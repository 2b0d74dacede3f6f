/** manimlib's interactive `Window` as a state machine: the state the class
    keeps, the rebinding to a new scene, the reset to the default geometry,
    the undrawn-event flag the render loop polls, and every `on_*` event
    handler as a pure transition that also reports which scene callback it
    makes. */
module Window {
  import opened Wrappers
  import opened Coordinates

  /** A scene's camera frame, known only through `from_fixed_frame_point`. */
  datatype Frame = Frame(id: nat)

  /** A scene as the window sees it: what `str(scene)` prints, and its `frame`
      attribute (`None` when the scene has none). */
  datatype Scene = Scene(name: string, frame: Option<Frame>)

  datatype Size = Size(width: int, height: int)

  datatype Position = Position(x: int, y: int)

  /** What the window reads but does not own: the `FRAME_SHAPE` constant and
      the frame's `from_fixed_frame_point(point, relative)`. */
  datatype Environment = Environment(
    frameShape: FrameShape,
    fromFixedFramePoint: (Frame, Vec3, bool) -> Vec3)

  /** The state of a `Window`. */
  datatype WindowState = WindowState(
    scene: Option<Scene>,
    /** `None` until a scene names the window. */
    title: Option<string>,
    size: Size,
    position: Position,
    defaultSize: Size,
    defaultPosition: Position,
    pressedKeys: set<int>,
    /** `_has_undrawn_event`; `None` while it has never been assigned. */
    undrawnEvent: Option<bool>,
    /** How many times the graphics context, its timer and the window
        configuration were rebuilt for a scene. */
    contextBuilds: nat)

  const DEFAULT_SIZE := Size(1280, 720)
  const DEFAULT_POSITION := Position(0, 0)

  // ---------------------------------------------------------------------------
  // Construction, rebinding and geometry

  /** `to_default_position`: back to the default position and size. The
      resize to one pixel less first only makes the platform repaint; the
      state ends at the default size. Nothing else changes. */
  function ToDefaultPosition(w: WindowState): (r: WindowState)
    ensures r.position == w.defaultPosition && r.size == w.defaultSize
    ensures r.(position := w.position, size := w.size) == w
  {
    var nudged := w.(position := w.defaultPosition,
                     size := Size(w.defaultSize.width - 1, w.defaultSize.height - 1));
    nudged.(size := Size(w.defaultSize.width, w.defaultSize.height))
  }

  lemma ToDefaultPositionIdempotent(w: WindowState)
    ensures ToDefaultPosition(ToDefaultPosition(w)) == ToDefaultPosition(w)
  {
  }

  /** `init_for_scene`: forget the pressed keys, mark the window as having an
      undrawn event, bind the scene, take its name as title and rebuild the
      graphics context. Geometry is untouched. */
  function InitForScene(w: WindowState, scene: Scene): (r: WindowState)
    ensures r.pressedKeys == {}
    ensures r.undrawnEvent == Some(true)
    ensures r.scene == Some(scene) && r.title == Some(scene.name)
    ensures r.contextBuilds == w.contextBuilds + 1
    ensures r.size == w.size && r.position == w.position
    ensures r.defaultSize == w.defaultSize && r.defaultPosition == w.defaultPosition
  {
    w.(pressedKeys := {},
       undrawnEvent := Some(true),
       scene := Some(scene),
       title := Some(scene.name),
       contextBuilds := w.contextBuilds + 1)
  }

  /** `Window(scene, size, default_position)`: the window starts at its
      default geometry; a given scene is bound at once. Without a scene the
      undrawn-event flag is left unassigned. */
  function NewWindow(scene: Option<Scene>, size: Size, defaultPosition: Position): (r: WindowState)
    ensures r.scene == scene
    ensures r.size == size && r.defaultSize == size
    ensures r.position == defaultPosition && r.defaultPosition == defaultPosition
    ensures r.pressedKeys == {}
    ensures scene.None? ==> r.undrawnEvent.None? && r.contextBuilds == 0 && r.title.None?
    ensures scene.Some? ==> r.undrawnEvent == Some(true) && r.contextBuilds == 1 && r.title == Some(scene.value.name)
  {
    var created := WindowState(scene, None, size, defaultPosition, size, defaultPosition, {}, None, 0);
    var placed := ToDefaultPosition(created);
    if scene.Some? then InitForScene(placed, scene.value) else placed
  }

  /** `Window()` with its default arguments: 1280 by 720 pixels at the
      screen origin, with no scene bound and the flag unassigned. */
  lemma DefaultWindow()
    ensures var r := NewWindow(None, DEFAULT_SIZE, DEFAULT_POSITION);
            r.size == Size(1280, 720) && r.defaultSize == r.size
            && r.position == Position(0, 0) && r.defaultPosition == r.position
            && r.scene.None? && HasUndrawnEvent(r).None?
  {
  }

  // ---------------------------------------------------------------------------
  // Redraw bookkeeping

  /** `has_undrawn_event`: the flag as last assigned, or `None` where reading
      the unassigned attribute raises `AttributeError`. */
  function HasUndrawnEvent(w: WindowState): (r: Option<bool>)
    ensures r.None? <==> w.undrawnEvent.None?
    ensures r.Some? ==> r.value == w.undrawnEvent.value
  {
    w.undrawnEvent
  }

  /** `swap_buffers`: the frame has been presented, so nothing is undrawn.
      Nothing else changes. */
  function SwapBuffers(w: WindowState): (r: WindowState)
    ensures HasUndrawnEvent(r) == Some(false)
    ensures r.(undrawnEvent := w.undrawnEvent) == w
  {
    w.(undrawnEvent := Some(false))
  }

  /** `is_key_pressed`: membership in the pressed keys. */
  function IsKeyPressed(w: WindowState, symbol: int): (pressed: bool)
    ensures pressed <==> symbol in w.pressedKeys
  {
    symbol in w.pressedKeys
  }

  // ---------------------------------------------------------------------------
  // Coordinates

  /** The window can convert pixels: no frame to convert for, or a pixel size
      the fixed frame can be divided by. */
  predicate Mappable(w: WindowState) {
    w.scene.None? || w.scene.value.frame.None? || (w.size.width != 0 && w.size.height != 0)
  }

  /** `pixel_coords_to_space_coords`: the zero vector without a scene or a
      frame; otherwise the frame's conversion of the fixed-frame point. */
  function PixelCoordsToSpaceCoords(env: Environment, w: WindowState, px: real, py: real, relative: bool): (p: Vec3)
    requires Mappable(w)
    ensures w.scene.None? || w.scene.value.frame.None? ==> p == Zero
    ensures w.scene.Some? && w.scene.value.frame.Some? ==>
      p == env.fromFixedFramePoint(
             w.scene.value.frame.value,
             FixedFramePoint(env.frameShape, w.size.width, w.size.height, px, py, relative),
             relative)
  {
    if w.scene.None? || w.scene.value.frame.None? then Zero
    else
      var coords := FixedFramePoint(env.frameShape, w.size.width, w.size.height, px, py, relative);
      env.fromFixedFramePoint(w.scene.value.frame.value, coords, relative)
  }

  // ---------------------------------------------------------------------------
  // Events

  /** A platform event, one per `on_*` handler, with the handler's arguments. */
  datatype Event =
    | MouseMotion(x: int, y: int, dx: int, dy: int)
    | MouseDrag(x: int, y: int, dx: int, dy: int, buttons: int, modifiers: int)
    | MousePress(x: int, y: int, button: int, modifiers: int)
    | MouseRelease(x: int, y: int, button: int, modifiers: int)
    | MouseScroll(x: int, y: int, xOffset: real, yOffset: real)
    | KeyPress(symbol: int, modifiers: int)
    | KeyRelease(symbol: int, modifiers: int)
    | Resize(width: int, height: int)
    | Show
    | Hide
    | Close

  /** The events whose handlers convert pixel coordinates. */
  predicate IsMouseEvent(e: Event) {
    e.MouseMotion? || e.MouseDrag? || e.MousePress? || e.MouseRelease? || e.MouseScroll?
  }

  /** The handler for `e` can run on `w`: only mouse handlers divide by the
      pixel size. */
  predicate CanHandle(w: WindowState, e: Event) {
    Mappable(w) || !IsMouseEvent(e)
  }

  /** A call into the bound scene, with the arguments the window passes. */
  datatype SceneCall =
    | SceneMouseMotion(point: Vec3, dPoint: Vec3)
    | SceneMouseDrag(point: Vec3, dPoint: Vec3, buttons: int, modifiers: int)
    | SceneMousePress(point: Vec3, button: int, modifiers: int)
    | SceneMouseRelease(point: Vec3, button: int, modifiers: int)
    | SceneMouseScroll(point: Vec3, offset: Vec3, xOffset: real, yOffset: real)
    | SceneKeyPress(symbol: int, modifiers: int)
    | SceneKeyRelease(symbol: int, modifiers: int)
    | SceneResize(width: int, height: int)
    | SceneShow
    | SceneHide
    | SceneClose

  /** The outcome of handling one event: the new state, and the scene callback
      made, if any. */
  datatype Step = Step(window: WindowState, call: Option<SceneCall>)

  /** The call answers the event: the callback of the same name, carrying
      the event's non-spatial arguments unchanged. */
  predicate Answers(call: SceneCall, e: Event) {
    match e
    case MouseMotion(_, _, _, _) => call.SceneMouseMotion?
    case MouseDrag(_, _, _, _, buttons, modifiers) =>
      call.SceneMouseDrag? && call.buttons == buttons && call.modifiers == modifiers
    case MousePress(_, _, button, modifiers) =>
      call.SceneMousePress? && call.button == button && call.modifiers == modifiers
    case MouseRelease(_, _, button, modifiers) =>
      call.SceneMouseRelease? && call.button == button && call.modifiers == modifiers
    case MouseScroll(_, _, xOffset, yOffset) =>
      call.SceneMouseScroll? && call.xOffset == xOffset && call.yOffset == yOffset
    case KeyPress(symbol, modifiers) =>
      call.SceneKeyPress? && call.symbol == symbol && call.modifiers == modifiers
    case KeyRelease(symbol, modifiers) =>
      call.SceneKeyRelease? && call.symbol == symbol && call.modifiers == modifiers
    case Resize(width, height) =>
      call.SceneResize? && call.width == width && call.height == height
    case Show => call.SceneShow?
    case Hide => call.SceneHide?
    case Close => call.SceneClose?
  }

  /** The callback a handler makes when a scene is bound. Points are
      converted in absolute mode, motion deltas and scroll offsets in relative
      mode. */
  function SceneCallFor(env: Environment, w: WindowState, e: Event): (c: SceneCall)
    requires CanHandle(w, e)
    ensures Answers(c, e)
    ensures IsMouseEvent(e) ==> c.point == PixelCoordsToSpaceCoords(env, w, e.x as real, e.y as real, false)
    ensures e.MouseMotion? || e.MouseDrag? ==>
      c.dPoint == PixelCoordsToSpaceCoords(env, w, e.dx as real, e.dy as real, true)
    ensures e.MouseScroll? ==> c.offset == PixelCoordsToSpaceCoords(env, w, e.xOffset, e.yOffset, true)
  {
    match e
    case MouseMotion(x, y, dx, dy) =>
      SceneMouseMotion(PixelCoordsToSpaceCoords(env, w, x as real, y as real, false),
                       PixelCoordsToSpaceCoords(env, w, dx as real, dy as real, true))
    case MouseDrag(x, y, dx, dy, buttons, modifiers) =>
      SceneMouseDrag(PixelCoordsToSpaceCoords(env, w, x as real, y as real, false),
                     PixelCoordsToSpaceCoords(env, w, dx as real, dy as real, true),
                     buttons, modifiers)
    case MousePress(x, y, button, modifiers) =>
      SceneMousePress(PixelCoordsToSpaceCoords(env, w, x as real, y as real, false), button, modifiers)
    case MouseRelease(x, y, button, modifiers) =>
      SceneMouseRelease(PixelCoordsToSpaceCoords(env, w, x as real, y as real, false), button, modifiers)
    case MouseScroll(x, y, xOffset, yOffset) =>
      SceneMouseScroll(PixelCoordsToSpaceCoords(env, w, x as real, y as real, false),
                       PixelCoordsToSpaceCoords(env, w, xOffset, yOffset, true),
                       xOffset, yOffset)
    case KeyPress(symbol, modifiers) => SceneKeyPress(symbol, modifiers)
    case KeyRelease(symbol, modifiers) => SceneKeyRelease(symbol, modifiers)
    case Resize(width, height) => SceneResize(width, height)
    case Show => SceneShow
    case Hide => SceneHide
    case Close => SceneClose
  }

  /** The body of an `on_*` handler: key handlers update the pressed keys
      first, whether or not a scene is bound; then, only with a scene bound,
      the scene's callback is made. */
  function Handler(env: Environment, w: WindowState, e: Event): (r: Step)
    requires CanHandle(w, e)
    ensures r.window.(pressedKeys := w.pressedKeys) == w
    ensures e.KeyPress? ==> r.window.pressedKeys == w.pressedKeys + {e.symbol}
    ensures e.KeyRelease? ==> r.window.pressedKeys == w.pressedKeys - {e.symbol}
    ensures !e.KeyPress? && !e.KeyRelease? ==> r.window.pressedKeys == w.pressedKeys
    ensures r.call.Some? <==> w.scene.Some?
    ensures r.call.Some? ==> r.call.value == SceneCallFor(env, w, e)
  {
    var keys :=
      match e
      case KeyPress(symbol, _) => w.pressedKeys + {symbol}
      case KeyRelease(symbol, _) => w.pressedKeys - {symbol}
      case _ => w.pressedKeys;
    var after := w.(pressedKeys := keys);
    if w.scene.None? then Step(after, None)
    else Step(after, Some(SceneCallFor(env, w, e)))
  }

  /** `note_undrawn_event`: once the handler has returned, the window has an
      undrawn event. */
  function NoteUndrawnEvent(s: Step): (r: Step)
    ensures HasUndrawnEvent(r.window) == Some(true)
    ensures r.window.(undrawnEvent := s.window.undrawnEvent) == s.window
    ensures r.call == s.call
  {
    s.(window := s.window.(undrawnEvent := Some(true)))
  }

  /** A decorated `on_*` handler. Afterwards the window has an undrawn event
      and only a key event has changed the pressed keys; a callback is made
      exactly when a scene is bound, and it is the one answering the event. */
  function HandleEvent(env: Environment, w: WindowState, e: Event): (r: Step)
    requires CanHandle(w, e)
    ensures HasUndrawnEvent(r.window) == Some(true)
    ensures r.window.(pressedKeys := w.pressedKeys, undrawnEvent := w.undrawnEvent) == w
    ensures e.KeyPress? ==> r.window.pressedKeys == w.pressedKeys + {e.symbol}
    ensures e.KeyRelease? ==> r.window.pressedKeys == w.pressedKeys - {e.symbol}
    ensures !e.KeyPress? && !e.KeyRelease? ==> r.window.pressedKeys == w.pressedKeys
    ensures r.call.Some? <==> w.scene.Some?
    ensures r.call.Some? ==> Answers(r.call.value, e)
  {
    NoteUndrawnEvent(Handler(env, w, e))
  }

  /** Mouse events hand the scene the pointer converted in absolute mode and
      the motion delta or scroll offset converted in relative mode. */
  lemma ForwardedCoordinates(env: Environment, w: WindowState, e: Event)
    requires Mappable(w) && w.scene.Some?
    ensures IsMouseEvent(e) ==>
      HandleEvent(env, w, e).call.value.point ==
        PixelCoordsToSpaceCoords(env, w, e.x as real, e.y as real, false)
    ensures e.MouseMotion? || e.MouseDrag? ==>
      HandleEvent(env, w, e).call.value.dPoint ==
        PixelCoordsToSpaceCoords(env, w, e.dx as real, e.dy as real, true)
    ensures e.MouseScroll? ==>
      HandleEvent(env, w, e).call.value.offset ==
        PixelCoordsToSpaceCoords(env, w, e.xOffset, e.yOffset, true)
  {
  }

  /** A scene without a frame still gets its mouse callbacks, with every point
      the zero vector. */
  lemma FramelessSceneGetsZeroPoints(env: Environment, w: WindowState, e: Event)
    requires w.scene.Some? && w.scene.value.frame.None?
    requires IsMouseEvent(e)
    ensures HandleEvent(env, w, e).call.Some?
    ensures HandleEvent(env, w, e).call.value.point == Zero
  {
  }

  /** A click at the centre of the window reaches the scene as the frame's
      conversion of the fixed-frame origin. */
  lemma CentreClickReachesOrigin(env: Environment, w: WindowState, button: int, modifiers: int)
    requires w.scene.Some? && w.scene.value.frame.Some?
    requires w.size.width > 0 && w.size.height > 0
    requires w.size.width % 2 == 0 && w.size.height % 2 == 0
    ensures var e := MousePress(w.size.width / 2, w.size.height / 2, button, modifiers);
            HandleEvent(env, w, e).call ==
              Some(SceneMousePress(env.fromFixedFramePoint(w.scene.value.frame.value, Zero, false), button, modifiers))
  {
    var W, H := w.size.width, w.size.height;
    assert (W / 2) as real == W as real / 2.0;
    assert (H / 2) as real == H as real / 2.0;
    CentreMapsToOrigin(env.frameShape, W, H);
  }

  // ---------------------------------------------------------------------------
  // Runs of events

  /** No event of the run converts pixel coordinates. */
  predicate NoMouseEvents(events: seq<Event>) {
    forall k :: 0 <= k < |events| ==> !IsMouseEvent(events[k])
  }

  /** Every event of the run can be handled on `w`: mouse events need a
      mappable window, and handling keeps what `Mappable` depends on. */
  predicate CanRun(w: WindowState, events: seq<Event>) {
    Mappable(w) || NoMouseEvents(events)
  }

  /** The state after handling the events in order. */
  function Run(env: Environment, w: WindowState, events: seq<Event>): (r: WindowState)
    requires CanRun(w, events)
    ensures r.scene == w.scene && r.size == w.size && r.position == w.position
    ensures r.contextBuilds == w.contextBuilds
    ensures |events| > 0 ==> HasUndrawnEvent(r) == Some(true)
    ensures |events| == 0 ==> r == w
    decreases |events|
  {
    if |events| == 0 then w
    else
      var before := Run(env, w, events[..|events| - 1]);
      HandleEvent(env, before, events[|events| - 1]).window
  }

  /** The latest key event for `symbol` among the events: `Some(true)` for a
      press, `Some(false)` for a release, `None` if there is none. */
  function LastKeyEvent(events: seq<Event>, symbol: int): Option<bool>
    decreases |events|
  {
    if |events| == 0 then None
    else
      var e := events[|events| - 1];
      if e.KeyPress? && e.symbol == symbol then Some(true)
      else if e.KeyRelease? && e.symbol == symbol then Some(false)
      else LastKeyEvent(events[..|events| - 1], symbol)
  }

  /** After any run of events a key is pressed exactly when its latest key
      event was a press; with no key event for it, it keeps its state. A
      release of a key never pressed is no error and leaves it released. */
  lemma {:induction false} KeyPressedFollowsLastKeyEvent(env: Environment, w: WindowState, events: seq<Event>, symbol: int)
    requires CanRun(w, events)
    ensures IsKeyPressed(Run(env, w, events), symbol) ==
      match LastKeyEvent(events, symbol)
      case Some(pressed) => pressed
      case None => IsKeyPressed(w, symbol)
    decreases |events|
  {
    if |events| > 0 {
      KeyPressedFollowsLastKeyEvent(env, w, events[..|events| - 1], symbol);
    }
  }

  /** After a buffer swap the flag reads false until the next handled event,
      which sets it again. */
  lemma SwapThenEvent(env: Environment, w: WindowState, e: Event)
    requires CanHandle(w, e)
    ensures HasUndrawnEvent(SwapBuffers(w)) == Some(false)
    ensures HasUndrawnEvent(ToDefaultPosition(SwapBuffers(w))) == Some(false)
    ensures HasUndrawnEvent(HandleEvent(env, SwapBuffers(w), e).window) == Some(true)
  {
  }

  /** Rebinding after any history leaves the new scene bound with no pressed
      keys, an undrawn event pending and one more context build. */
  lemma RebindAfterRun(env: Environment, w: WindowState, events: seq<Event>, scene: Scene)
    requires CanRun(w, events)
    ensures var r := InitForScene(Run(env, w, events), scene);
            r.scene == Some(scene) && r.pressedKeys == {} && HasUndrawnEvent(r) == Some(true)
            && r.contextBuilds == w.contextBuilds + 1 && r.size == w.size && r.position == w.position
  {
  }
}
