# manimlib window and configuration, modelled in Dafny

This project models two small sequential parts of manimlib.

**The interactive window** (`manimlib/window.py`) is modelled as an immutable state record `Window.WindowState`. It holds:
- the bound scene and the window title
- the size and position, and the default size and position
- the set of pressed keys
- the `_has_undrawn_event` flag
- a count of graphics-context rebuilds

The following are pure functions on that record:
- the constructor (`NewWindow`)
- `init_for_scene` (`InitForScene`)
- `to_default_position`
- `swap_buffers`
- `has_undrawn_event` and `is_key_pressed`

Every decorated `on_*` handler is one transition, `HandleEvent`. It returns the new state and the scene callback it makes, if any. The pixel-to-scene map of `pixel_coords_to_space_coords` is over `real` (module `Coordinates`), and an inverse map is proved to undo it. The scene frame's `from_fixed_frame_point` is an uninterpreted function parameter.

**Configuration derivation** (`manimlib/config.py`) is modelled as pure functions from the argparse namespace (`Config.Args`) to results that carry Python's exceptions as values. These cover:
- the three checks `parse_cli` makes after argparse
- `get_camera_configuration`: the quality preset, `-r`, the colour and transparency
- the derivations inside `get_configuration`: movie writing, quietness, file formats, `-n` and skipping

Python's `int(text)`, `str(n)` and `text.split(",")` are modelled in `PythonText`. They come with round trips:
- `int(str(n)) == n`
- `",".join(s.split(",")) == s`
- splitting a join of comma-free pieces gives back those pieces

These round trips are used to prove that `-r h,w`, `-r h`, `-n a,b` and `-n a` produce exactly the numbers written.

Files: `wrappers.dfy` (Option/Result), `pytext.dfy`, `config.dfy`, `coordinates.dfy`, `window.dfy`.

Three behaviours of the code are easy to misread, and the model follows the code in each:
- `init_for_scene` sets the undrawn-event flag to true. It does not clear it.
- The flag is set only after a handler returns normally. It is not set when a scene callback raises.
- A window built without a scene never assigns the flag. So `has_undrawn_event` would raise `AttributeError` until the first event, buffer swap or rebind. `HasUndrawnEvent` returns `None` in that case, and `SwapBuffers` assigns the flag false, so afterwards it reads `Some(false)`.

## Model

| member | source | states |
|---|---|---|
| Config.ValidateArgs | manimlib/config.py:172-181 | The command line is accepted if and only if a file or `--livestream` is given and `--to-twitch` comes with both `--livestream` and a key. An accepted namespace is returned unchanged. Each refusal exits with status 2 and names the first failing check, in source order. |
| Config.ToInt | manimlib/config.py:297-300 | `int(text)` succeeds if and only if the text is an optional sign and a digit run (single underscores between digits) with only whitespace around it. It then yields that run's signed value. Otherwise it raises `ValueError` naming the text. |
| Config.SplitPair | manimlib/config.py:296 | `a, b = text.split(",")` succeeds exactly when the text has one comma. The two pieces are comma-free and rejoin to the text. Any other number of pieces raises an unpack error carrying that count. |
| Config.SplitPairOfJoined | manimlib/config.py:269 | Unpacking `a + "," + b` with comma-free `a` and `b` gives back `(a, b)`. |
| Config.QualityPreset | manimlib/config.py:284-291 | The preset is low if and only if `-l`, medium if and only if `-m` without `-l`, and high if and only if `--high_quality` without either. Otherwise it is production. |
| Config.TruncateTowardZero | manimlib/config.py:301 | Python's `int()` of a number truncates toward zero: the result is within one of the input, on the zero side. |
| Config.WidthForHeight | manimlib/config.py:301 | `int(16*h/9)` is `16h div 9` for `h >= 0`, and the negated quotient of `-16h` by 9 for negative `h`. |
| Config.ParseResolution | manimlib/config.py:294-305 | Without a comma, `-r` succeeds if and only if the text is an int. It then gives that height and the 16:9 width, and otherwise fails on the whole text. With one comma, it succeeds if and only if both pieces are ints, and the height and width are `int()` of the first and second piece. A bad first piece is reported before a bad second one. With two or more commas it raises the unpack error. |
| Config.ResolutionRoundTrip | manimlib/config.py:295-298 | `-r "h,w"` gives height `h` and width `w` for all integers. |
| Config.HeightOnlyRoundTrip | manimlib/config.py:299-305 | `-r "h"` gives height `h` and width `int(16*h/9)` for all integers. |
| Config.CommaFree | manimlib/config.py:295 | The decimal form of an integer never contains a comma. |
| Config.GetCameraConfiguration | manimlib/config.py:282-320 | The camera configuration fails if and only if a non-empty `-r` fails to parse or a non-empty colour is rejected. A resolution error takes precedence over a colour error. On success it records the preset, the resolution (present if and only if `-r` is non-empty), the colour (present if and only if `-c` is non-empty) and opacity 0 if and only if `--transparent`. |
| Config.ConfiguredResolution | manimlib/config.py:294-305 | With `-r "h,w"` and no colour, the camera configuration succeeds and records exactly `(h, w)`. |
| Config.ParseAnimationRange | manimlib/config.py:266-273 | An absent `-n` leaves start and end unset. A comma-free `-n` succeeds if and only if it is an int, and gives start only; otherwise it fails on the whole text. With one comma it succeeds if and only if both pieces are ints, and start and end are `int()` of the first and second piece. A bad first piece is reported before a bad second one. Two or more commas raise the unpack error. |
| Config.AnimationRangeRoundTrip | manimlib/config.py:268-271 | `-n "a,b"` gives start `a` and end `b` for all integers. |
| Config.StartOnlyRoundTrip | manimlib/config.py:272-273 | `-n "a"` gives start `a` and no end. |
| Config.EmptyStartIsAnError | manimlib/config.py:267-273 | An empty `-n` is not skipped (unlike an empty `-r`). `int("")` raises. |
| Config.FileWriterFor | manimlib/config.py:229-239 | `write_to_movie = -w or not -s`. The PNG mode and movie extension are RGBA and .mov when transparent, and RGB and .mp4 otherwise. The other file-writer entries are copied from their flags. |
| Config.AssembleConfiguration | manimlib/config.py:243-279 | The camera configuration and the file-writer entries are placed as given, with `quiet = -q or -a`. Start and end come from `-n`. Animations are skipped if and only if `-s` is given or the start is present and non-zero. Every other entry is copied from its flag. |
| Config.GetConfiguration | manimlib/config.py:227-279 | It succeeds if and only if the camera configuration and `-n` both parse. Camera errors come first, then `-n` errors. On success the dictionary is assembled from the two parsed parts. |
| Config.ConfiguredAnimationRange | manimlib/config.py:266-278 | With `-n "a,b"`, the configuration has start `a` and end `b`, and skips animations if and only if `-s` is given or `a != 0`. |
| Config.StartAtZeroDoesNotSkip | manimlib/config.py:275-278 | `-n 0` without `-s` parses and does not skip animations. |
| PythonText.ParseInt | manimlib/config.py:297-298 | `int(text)` accepts a text if and only if it is an optional sign and a digit run with single underscores between digits, surrounded only by ASCII whitespace. The result is that run's signed value. |
| PythonText.SkipSpaces | manimlib/config.py:297-298 | The stripping `int()` does before parsing finds the first non-whitespace index: everything skipped is whitespace, and the character found is not. |
| PythonText.TrimSpaces | manimlib/config.py:297-298 | The trailing cut finds the end of the text once trailing whitespace is removed: everything cut is whitespace, and the last kept character is not. |
| PythonText.StripOfLiteral | manimlib/config.py:297-298 | Stripping a literal leaves exactly its signed digit run. |
| PythonText.ParsedTextIsLiteralChars | manimlib/config.py:297-298 | A text `int()` accepts holds only digits, underscores, signs and whitespace, so any other character (as in `12a`) is rejected. |
| PythonText.ParseFormatRoundTrip | manimlib/config.py:300 | `int(str(n)) == n` for every integer `n`. |
| PythonText.ParsedTextHasNoComma | manimlib/config.py:295-298 | A text `int()` accepts contains no comma. |
| PythonText.Split | manimlib/config.py:296 | `s.split(sep)` has one more piece than `s` has separators, a single piece exactly when `sep` is absent, and no piece containing `sep`. |
| PythonText.JoinSplit | manimlib/config.py:269 | Joining the pieces of a split gives the original text back. |
| PythonText.SplitJoin | manimlib/config.py:296 | Splitting a join of separator-free pieces gives the pieces back. |
| Coordinates.FixedFramePoint | manimlib/window.py:100-107 | The fixed-frame point lies in the plane z = 0. `PixelPoint` recovers the pixel point from it in either mode. |
| Coordinates.FixedFramePointOfPixelPoint | manimlib/window.py:100-107 | Every point with z = 0 is the image of the pixel point `PixelPoint` assigns it, so the two maps are mutually inverse. |
| Coordinates.AbsoluteIsShiftedRelative | manimlib/window.py:105-107 | An absolute point equals the relative point for the same pixels minus half the fixed frame. |
| Coordinates.CentreMapsToOrigin | manimlib/window.py:105-107 | The pixel `(W/2, H/2)` maps to the origin in absolute mode. |
| Coordinates.CornerMapsToFrameCorner | manimlib/window.py:105-107 | The pixel `(0, 0)` maps to `(-FW/2, -FH/2, 0)` in absolute mode. |
| Coordinates.RelativeIsLinear | manimlib/window.py:105-106 | In relative mode the map preserves sums and scalar multiples of pixel offsets. |
| Window.ToDefaultPosition | manimlib/window.py:82-88 | Afterwards position and size are the defaults. No other field changes. |
| Window.ToDefaultPositionIdempotent | manimlib/window.py:82-88 | Resetting twice equals resetting once. |
| Window.InitForScene | manimlib/window.py:50-68 | Rebinding empties the pressed keys, sets the undrawn flag to true, binds the scene and takes its name as title. It rebuilds the context once and leaves size, position and defaults unchanged. |
| Window.DefaultWindow | manimlib/window.py:30-48 | `Window()` with default arguments is 1280 by 720 at position `(0, 0)`, with no scene and the flag unassigned. |
| Window.NewWindow | manimlib/window.py:30-48 | A new window is at its default geometry with no pressed keys. With a scene, it is bound, the flag is true and the context has been built once. Without one, the flag is unassigned. |
| Window.HasUndrawnEvent | manimlib/window.py:110-111 | It reads the flag as last assigned. It is `None` exactly when the flag was never assigned, where the source raises `AttributeError`. |
| Window.IsKeyPressed | manimlib/window.py:212-213 | A key reads as pressed exactly when it is in the pressed-key set. |
| Window.SwapBuffers | manimlib/window.py:113-115 | Afterwards `has_undrawn_event` reads false. Nothing else changes. |
| Window.PixelCoordsToSpaceCoords | manimlib/window.py:91-108 | With no scene, or a scene without a frame, the result is the zero vector. Otherwise it is the frame's conversion of the fixed-frame point, in the same mode. |
| Window.SceneCallFor | manimlib/window.py:125-210 | The callback for an event is the scene method of the same name, with the event's non-spatial arguments. Mouse points are converted in absolute mode, and deltas and scroll offsets in relative mode. Only mouse events need a mappable window. |
| Window.Handler | manimlib/window.py:125-210 | A handler body adds the key on a press and removes it on a release, leaves every other field alone, and makes the scene callback if and only if a scene is bound. |
| Window.NoteUndrawnEvent | manimlib/window.py:117-123 | Once the handler has returned, the flag is true. The decorator changes nothing else, and it passes the callback through. |
| Window.HandleEvent | manimlib/window.py:117-210 | After any handler the flag is true, even with no scene. A key press adds the key and a key release removes it; no other event touches the key set, and no other field changes. A callback is made if and only if a scene is bound, and it is the one answering the event with its non-spatial arguments. |
| Window.ForwardedCoordinates | manimlib/window.py:125-166 | Mouse callbacks receive the pointer converted in absolute mode, and the motion delta or scroll offset converted in relative mode. |
| Window.FramelessSceneGetsZeroPoints | manimlib/window.py:97-98 | A bound scene without a frame still receives mouse callbacks, with the zero vector as the point. |
| Window.CentreClickReachesOrigin | manimlib/window.py:143-149 | A press at the window centre reaches the scene as the frame's conversion of the fixed-frame origin. |
| Window.Run | manimlib/window.py:117-123 | A sequence of handled events keeps scene, size, position and context count. Any non-empty sequence leaves the flag true. |
| Window.KeyPressedFollowsLastKeyEvent | manimlib/window.py:168-213 | After any event sequence, `is_key_pressed(k)` is true exactly when the latest key event for `k` was a press. With no key event for `k`, it keeps its initial state. Releasing an unpressed key is harmless. |
| Window.SwapThenEvent | manimlib/window.py:110-123 | After a swap the flag reads false, including after a reset to the default position. The next handled event sets it true. |
| Window.RebindAfterRun | manimlib/window.py:57-61 | Rebinding after any history leaves only the new scene bound. There are no pressed keys, the flag is true, there is one more context build, and the geometry is kept. |

## Left out

- The graphics context, timer, `mglw.WindowConfig` and `activate_context` (manimlib/window.py:63-68) are GPU and library calls. They are abstracted as one increment of a rebuild counter.
- `focus` (manimlib/window.py:70-80) is a platform workaround that hides and shows the window. It is not modelled.
- The `super()` calls into the pyglet base window are platform behaviour and are not modelled. In particular, `on_resize` does not change the modelled size, and the base class's default title is represented as `None`.
- Window.ToDefaultPosition: the intermediate size one pixel smaller only makes the platform repaint. The model records the same writes, but any resize events the platform may then deliver are not modelled.
- Window.HandleEvent: only handlers that return normally are modelled. When a scene callback raises, the source leaves the flag as it was but keeps the key update. The model does not describe that path.
- Window.PixelCoordsToSpaceCoords: this uses exact `real` arithmetic instead of numpy floats. `FRAME_SHAPE` (manimlib/constants is not part of this model) is a parameter. A zero pixel size with a framed scene is excluded by `Mappable`, where numpy would produce infinities. Only the five mouse handlers convert coordinates, so only they require `Mappable` (`CanHandle`, `CanRun`). Key, resize, show, hide and close events are handled on any window.
- A bound scene object is taken to be truthy, so `if not self.scene` and `self.scene is None` agree.
- `get_module` (manimlib/config.py:187-224) runs code with exec, importlib and stdin, so it is not modelled. The same goes for the `module` entry and the `OUTPUT_DIRECTORY` lookup (manimlib/config.py:241-242).
- argparse itself is not modelled: option syntax, the mutually exclusive groups and the `ArgumentError` handler (manimlib/config.py:182-184). Printed help and messages are not modelled either.
- Config.GetCameraConfiguration: `colour.Color` is a parameter. Only its `AttributeError` failure (exit status 2) is modelled. Other exceptions it might raise are not distinguished.
- The contents of the quality presets live in manimlib/constants, which is not part of this model. The camera configuration records which preset was applied and the `-r` override.
- PythonText.ParseInt: this covers ASCII digits, ASCII whitespace, signs and single underscores between digits. It does not cover non-ASCII digits and spaces, or the interpreter's limit on the number of digits.
- Config.WidthForHeight: `16 * h / 9` is taken as an exact quotient. Float rounding for very large heights is not modelled. Heights whose `16*h/9` exceeds the float range (about 1.02e308, far below the 4300-digit `int()` limit) make the source raise `OverflowError`; the model returns a width, so `Config.ParseResolution` succeeds there where the source fails.
- Config.ParseResolution: a comma-free height so large that `16*h/9` overflows a float makes the source raise `OverflowError`. The model succeeds there, because `Config.WidthForHeight` computes the quotient exactly.
- manimlib/__init__.py and manim.py only dispatch to these functions or to livestreaming, so they are not modelled.
