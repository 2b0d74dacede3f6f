/** The command-line side of manimlib: the checks `parse_cli` makes once
    argparse has produced its namespace, and the pure derivations of
    `get_camera_configuration` and `get_configuration` that turn that
    namespace into the configuration handed to scene extraction. */
module Config {
  import opened Wrappers
  import opened PythonText

  /** The argparse namespace: one field per command-line option. Options
      taking a value are `None` when not given. */
  datatype Args = Args(
    file: Option<string>,
    sceneNames: seq<string>,
    preview: bool,
    writeToMovie: bool,
    saveLastFrame: bool,
    lowQuality: bool,
    mediumQuality: bool,
    highQuality: bool,
    savePngs: bool,
    saveAsGif: bool,
    showFileInFinder: bool,
    transparent: bool,
    quiet: bool,
    writeAll: bool,
    fileName: Option<string>,
    startAtAnimationNumber: Option<string>,
    resolution: Option<string>,
    color: Option<string>,
    sound: bool,
    leaveProgressBars: bool,
    mediaDir: Option<string>,
    videoDir: Option<string>,
    videoOutputDir: Option<string>,
    texDir: Option<string>,
    livestream: bool,
    toTwitch: bool,
    twitchKey: Option<string>)

  // ---------------------------------------------------------------------------
  // parse_cli: the checks after argparse

  /** Why the command line is refused after argparse accepted it. */
  datatype UsageError = NoInputFile | TwitchWithoutLivestream | TwitchWithoutKey

  /** The status every `sys.exit` of this module uses. */
  const USAGE_EXIT_STATUS: int := 2

  datatype CliExit = CliExit(reason: UsageError, status: int)

  /** The three checks `parse_cli` makes, in order; an accepted namespace is
      returned unchanged. */
  function ValidateArgs(args: Args): (r: Result<Args, CliExit>)
    ensures r.Success? <==>
      && (args.file.Some? || args.livestream)
      && (args.toTwitch ==> args.livestream && args.twitchKey.Some?)
    ensures r.Success? ==> r.value == args
    ensures r.Failure? ==> r.error.status == 2
    ensures r.Failure? && r.error.reason == NoInputFile <==> args.file.None? && !args.livestream
    ensures r.Failure? && r.error.reason == TwitchWithoutLivestream <==>
      (args.file.Some? || args.livestream) && args.toTwitch && !args.livestream
    ensures r.Failure? && r.error.reason == TwitchWithoutKey <==>
      args.livestream && args.toTwitch && args.twitchKey.None?
  {
    if args.file.None? && !args.livestream then
      Failure(CliExit(NoInputFile, USAGE_EXIT_STATUS))
    else if args.toTwitch && !args.livestream then
      Failure(CliExit(TwitchWithoutLivestream, USAGE_EXIT_STATUS))
    else if args.toTwitch && args.twitchKey.None? then
      Failure(CliExit(TwitchWithoutKey, USAGE_EXIT_STATUS))
    else
      Success(args)
  }

  // ---------------------------------------------------------------------------
  // Errors of the derivations

  datatype ConfigError =
      /** `int(text)` raised `ValueError`. */
    | InvalidIntLiteral(text: string)
      /** `a, b = text.split(",")` raised `ValueError`: `got` pieces, not two. */
    | UnpackMismatch(expected: nat, got: nat)
      /** `colour.Color` raised `AttributeError`; the program exits with status 2. */
    | InvalidColor

  /** Python's truth value of an optional string: absent and empty are false. */
  predicate Truthy(o: Option<string>) {
    o.Some? && |o.value| > 0
  }

  /** `int(text)`: succeeds exactly on a signed digit run between whitespace,
      with that run's value, and otherwise raises `ValueError` naming the
      text. */
  function ToInt(text: string): (r: Result<int, ConfigError>)
    ensures r.Success? <==> exists i, j :: LiteralAt(text, i, j)
    ensures forall i, j :: LiteralAt(text, i, j) ==> r == Success(SignedRunValue(text[i..j]))
    ensures r.Failure? ==> r.error == InvalidIntLiteral(text)
  {
    match ParseInt(text)
    case Some(n) => Success(n)
    case None => Failure(InvalidIntLiteral(text))
  }

  /** `first, second = text.split(",")`. */
  function SplitPair(text: string): (r: Result<(string, string), ConfigError>)
    ensures r.Success? <==> Count(text, ',') == 1
    ensures r.Success? ==> text == r.value.0 + [','] + r.value.1
    ensures r.Success? ==> ',' !in r.value.0 && ',' !in r.value.1
    ensures r.Failure? ==> r.error == UnpackMismatch(2, Count(text, ',') + 1)
  {
    var parts := Split(text, ',');
    if |parts| != 2 then
      Failure(UnpackMismatch(2, |parts|))
    else
      JoinSplit(text, ',');
      assert Join(parts[1..], ',') == parts[1];
      Success((parts[0], parts[1]))
  }

  /** A text made of two comma-free pieces around one comma unpacks into
      exactly those pieces. */
  lemma SplitPairOfJoined(a: string, b: string)
    requires ',' !in a && ',' !in b
    ensures SplitPair(a + [','] + b) == Success((a, b))
  {
    SplitAfterFirst(a, ',', b);
    SplitWithoutSeparator(b, ',');
  }

  // ---------------------------------------------------------------------------
  // get_camera_configuration

  /** The camera preset copied in from manimlib.constants. */
  datatype Quality = Low | Medium | High | Production

  /** The quality flags in precedence order: `-l`, then `-m`, then
      `--high_quality`, else production. */
  function QualityPreset(args: Args): (q: Quality)
    ensures q == Low <==> args.lowQuality
    ensures q == Medium <==> !args.lowQuality && args.mediumQuality
    ensures q == High <==> !args.lowQuality && !args.mediumQuality && args.highQuality
    ensures q == Production <==> !args.lowQuality && !args.mediumQuality && !args.highQuality
  {
    if args.lowQuality then Low
    else if args.mediumQuality then Medium
    else if args.highQuality then High
    else Production
  }

  datatype Resolution = Resolution(height: int, width: int)

  /** Python's `int(x)` of a float: truncation toward zero. */
  function TruncateTowardZero(x: real): (n: int)
    ensures x >= 0.0 ==> n as real <= x < n as real + 1.0
    ensures x < 0.0 ==> n as real - 1.0 < x <= n as real
  {
    if x >= 0.0 then x.Floor else -((-x).Floor)
  }

  lemma TruncateNinth(m: nat)
    ensures TruncateTowardZero(m as real / 9.0) == m / 9
  {
  }

  /** `int(16 * height / 9)`: the width of a 16:9 picture of the given height,
      with the float quotient truncated toward zero. */
  function WidthForHeight(height: int): (width: int)
    ensures height >= 0 ==> width == 16 * height / 9
    ensures height < 0 ==> width == -(16 * -height / 9)
  {
    if height >= 0 then
      TruncateNinth(16 * height);
      TruncateTowardZero((16 * height) as real / 9.0)
    else
      TruncateNinth(16 * -height);
      assert (16 * height) as real / 9.0 == -((16 * -height) as real / 9.0);
      TruncateTowardZero((16 * height) as real / 9.0)
  }

  /** The value of `-r`: `"height,width"`, or `"height"` with a 16:9 width. */
  function ParseResolution(text: string): (r: Result<Resolution, ConfigError>)
    ensures ',' !in text ==>
      (r.Success? <==> ParseInt(text).Some?)
    ensures ',' !in text && r.Success? ==>
      r.value.height == ParseInt(text).value && r.value.width == WidthForHeight(r.value.height)
    ensures ',' in text ==>
      (r.Success? <==> Count(text, ',') == 1
                       && ParseInt(Split(text, ',')[0]).Some?
                       && ParseInt(Split(text, ',')[1]).Some?)
    ensures ',' !in text && r.Failure? ==> r.error == InvalidIntLiteral(text)
    ensures Count(text, ',') == 1 && r.Success? ==>
      r.value == Resolution(ParseInt(Split(text, ',')[0]).value, ParseInt(Split(text, ',')[1]).value)
    ensures Count(text, ',') == 1 && ParseInt(Split(text, ',')[0]).None? ==>
      r == Failure(InvalidIntLiteral(Split(text, ',')[0]))
    ensures Count(text, ',') == 1 && ParseInt(Split(text, ',')[0]).Some? && ParseInt(Split(text, ',')[1]).None? ==>
      r == Failure(InvalidIntLiteral(Split(text, ',')[1]))
    ensures Count(text, ',') > 1 ==> r == Failure(UnpackMismatch(2, Count(text, ',') + 1))
  {
    if ',' in text then
      var pieces :- SplitPair(text);
      SplitPairOfJoined(pieces.0, pieces.1);
      var height :- ToInt(pieces.0);
      var width :- ToInt(pieces.1);
      Success(Resolution(height, width))
    else
      assert |Split(text, ',')| == 1;
      var height :- ToInt(text);
      Success(Resolution(height, WidthForHeight(height)))
  }

  /** `-r h,w` for any integers gives back exactly that height and width. */
  lemma ResolutionRoundTrip(height: int, width: int)
    ensures ParseResolution(FormatInt(height) + "," + FormatInt(width)) == Success(Resolution(height, width))
  {
    var a, b := FormatInt(height), FormatInt(width);
    assert a + "," + b == a + [','] + b;
    CommaFree(height);
    CommaFree(width);
    SplitPairOfJoined(a, b);
    assert ',' in a + "," + b by {
      assert (a + "," + b)[|a|] == ',';
    }
    ParseFormatRoundTrip(height);
    ParseFormatRoundTrip(width);
  }

  /** `-r h` gives height h and width `int(16 * h / 9)`. */
  lemma HeightOnlyRoundTrip(height: int)
    ensures ParseResolution(FormatInt(height)) == Success(Resolution(height, WidthForHeight(height)))
  {
    CommaFree(height);
    ParseFormatRoundTrip(height);
  }

  lemma CommaFree(n: int)
    ensures ',' !in FormatInt(n)
  {
  }

  /** A colour as `colour.Color` builds it. */
  datatype Color = Color(red: real, green: real, blue: real)

  /** What `get_camera_configuration` writes into the camera dictionary. */
  datatype CameraConfig = CameraConfig(
    /** Which `*_QUALITY_CAMERA_CONFIG` preset was copied in. */
    quality: Quality,
    /** `pixel_height` and `pixel_width` from `-r`, overriding the preset. */
    resolution: Option<Resolution>,
    backgroundColor: Option<Color>,
    backgroundOpacity: Option<int>)

  /** `get_camera_configuration`; `parseColor` stands for `colour.Color`,
      `None` where it raises `AttributeError`. */
  function GetCameraConfiguration(args: Args, parseColor: string -> Option<Color>): (r: Result<CameraConfig, ConfigError>)
    ensures r.Failure? <==>
      || (Truthy(args.resolution) && ParseResolution(args.resolution.value).Failure?)
      || (Truthy(args.color) && parseColor(args.color.value).None?)
    ensures Truthy(args.resolution) && ParseResolution(args.resolution.value).Failure? ==>
      r.Failure? && r.error == ParseResolution(args.resolution.value).error
    ensures r.Failure? && !(Truthy(args.resolution) && ParseResolution(args.resolution.value).Failure?) ==>
      r.error == InvalidColor
    ensures r.Success? ==> r.value.quality == QualityPreset(args)
    ensures r.Success? ==>
      (r.value.resolution.Some? <==> Truthy(args.resolution))
    ensures r.Success? && Truthy(args.resolution) ==>
      ParseResolution(args.resolution.value) == Success(r.value.resolution.value)
    ensures r.Success? ==>
      (r.value.backgroundColor.Some? <==> Truthy(args.color))
    ensures r.Success? && Truthy(args.color) ==>
      parseColor(args.color.value) == r.value.backgroundColor
    ensures r.Success? ==>
      (args.transparent ==> r.value.backgroundOpacity == Some(0)) &&
      (!args.transparent ==> r.value.backgroundOpacity.None?)
  {
    var resolution :-
      if Truthy(args.resolution) then
        var res :- ParseResolution(args.resolution.value);
        Success(Some(res))
      else
        Success(None);
    var color :-
      if Truthy(args.color) then
        match parseColor(args.color.value)
        case Some(c) => Success(Some(c))
        case None => Failure(InvalidColor)
      else
        Success(None);
    Success(CameraConfig(
      QualityPreset(args),
      resolution,
      color,
      if args.transparent then Some(0) else None))
  }

  // ---------------------------------------------------------------------------
  // get_configuration

  /** The first and last animation to render, from `-n`. */
  datatype AnimationRange = AnimationRange(start: Option<int>, end: Option<int>)

  /** The value of `-n`: `"start,end"` or `"start"`; absent leaves both unset. */
  function ParseAnimationRange(text: Option<string>): (r: Result<AnimationRange, ConfigError>)
    ensures text.None? ==> r == Success(AnimationRange(None, None))
    ensures r.Success? && text.Some? ==> r.value.start.Some?
    ensures text.Some? && ',' !in text.value ==>
      (r.Success? <==> ParseInt(text.value).Some?) &&
      (r.Success? ==> r.value == AnimationRange(ParseInt(text.value), None))
    ensures text.Some? && ',' in text.value ==>
      (r.Success? <==> Count(text.value, ',') == 1
                       && ParseInt(Split(text.value, ',')[0]).Some?
                       && ParseInt(Split(text.value, ',')[1]).Some?) &&
      (r.Success? ==> r.value.end.Some?)
    ensures text.Some? && ',' !in text.value && r.Failure? ==> r.error == InvalidIntLiteral(text.value)
    ensures text.Some? && Count(text.value, ',') == 1 && r.Success? ==>
      r.value == AnimationRange(ParseInt(Split(text.value, ',')[0]), ParseInt(Split(text.value, ',')[1]))
    ensures text.Some? && Count(text.value, ',') == 1 && ParseInt(Split(text.value, ',')[0]).None? ==>
      r == Failure(InvalidIntLiteral(Split(text.value, ',')[0]))
    ensures text.Some? && Count(text.value, ',') == 1 && ParseInt(Split(text.value, ',')[0]).Some?
                       && ParseInt(Split(text.value, ',')[1]).None? ==>
      r == Failure(InvalidIntLiteral(Split(text.value, ',')[1]))
    ensures text.Some? && Count(text.value, ',') > 1 ==>
      r == Failure(UnpackMismatch(2, Count(text.value, ',') + 1))
  {
    match text
    case None => Success(AnimationRange(None, None))
    case Some(t) =>
      if ',' in t then
        var pieces :- SplitPair(t);
        SplitPairOfJoined(pieces.0, pieces.1);
        var start :- ToInt(pieces.0);
        var end :- ToInt(pieces.1);
        Success(AnimationRange(Some(start), Some(end)))
      else
        assert |Split(t, ',')| == 1;
        var start :- ToInt(t);
        Success(AnimationRange(Some(start), None))
  }

  lemma AnimationRangeRoundTrip(start: int, end: int)
    ensures ParseAnimationRange(Some(FormatInt(start) + "," + FormatInt(end)))
      == Success(AnimationRange(Some(start), Some(end)))
  {
    var a, b := FormatInt(start), FormatInt(end);
    assert a + "," + b == a + [','] + b;
    CommaFree(start);
    CommaFree(end);
    SplitPairOfJoined(a, b);
    assert ',' in a + "," + b by {
      assert (a + "," + b)[|a|] == ',';
    }
    ParseFormatRoundTrip(start);
    ParseFormatRoundTrip(end);
  }

  lemma StartOnlyRoundTrip(start: int)
    ensures ParseAnimationRange(Some(FormatInt(start))) == Success(AnimationRange(Some(start), None))
  {
    CommaFree(start);
    ParseFormatRoundTrip(start);
  }

  /** An empty `-n` is not skipped like an empty `-r`: `int("")` raises. */
  lemma EmptyStartIsAnError()
    ensures ParseAnimationRange(Some("")) == Failure(InvalidIntLiteral(""))
  {
    assert Strip("") == "";
  }

  /** The `file_writer_config` dictionary. */
  datatype FileWriterConfig = FileWriterConfig(
    writeToMovie: bool,
    saveLastFrame: bool,
    savePngs: bool,
    saveAsGif: bool,
    pngMode: string,
    movieFileExtension: string,
    fileName: Option<string>,
    inputFilePath: Option<string>)

  /** The configuration dictionary `get_configuration` returns, without the
      loaded module. */
  datatype Configuration = Configuration(
    sceneNames: seq<string>,
    openVideoUponCompletion: bool,
    showFileInFinder: bool,
    fileWriterConfig: FileWriterConfig,
    quiet: bool,
    ignoreWaits: bool,
    writeAll: bool,
    startAtAnimationNumber: Option<int>,
    endAtAnimationNumber: Option<int>,
    sound: bool,
    leaveProgressBars: bool,
    mediaDir: Option<string>,
    videoDir: Option<string>,
    videoOutputDir: Option<string>,
    texDir: Option<string>,
    cameraConfig: CameraConfig,
    skipAnimations: bool)

  /** Python's `any([save_last_frame, start])`: a start of `None` or `0` is false. */
  predicate SkipsAnimations(saveLastFrame: bool, start: Option<int>) {
    saveLastFrame || (start.Some? && start.value != 0)
  }

  /** The `file_writer_config` entries: a movie unless only the last frame
      is saved (or `-w` insists), and an alpha channel exactly when
      transparent. */
  function FileWriterFor(args: Args): (f: FileWriterConfig)
    ensures f.writeToMovie == (args.writeToMovie || !args.saveLastFrame)
    ensures args.transparent ==> f.pngMode == "RGBA" && f.movieFileExtension == ".mov"
    ensures !args.transparent ==> f.pngMode == "RGB" && f.movieFileExtension == ".mp4"
    ensures && f.saveLastFrame == args.saveLastFrame
            && f.savePngs == args.savePngs
            && f.saveAsGif == args.saveAsGif
            && f.fileName == args.fileName
            && f.inputFilePath == args.file
  {
    FileWriterConfig(
      args.writeToMovie || !args.saveLastFrame,
      args.saveLastFrame,
      args.savePngs,
      args.saveAsGif,
      if args.transparent then "RGBA" else "RGB",
      if args.transparent then ".mov" else ".mp4",
      args.fileName,
      args.file)
  }

  /** The dictionary `get_configuration` fills in once the camera
      configuration and `-n` have been parsed: the derived entries, and every
      other entry copied from its flag. */
  function AssembleConfiguration(args: Args, camera: CameraConfig, range: AnimationRange): (c: Configuration)
    ensures c.cameraConfig == camera && c.fileWriterConfig == FileWriterFor(args)
    ensures c.quiet == (args.quiet || args.writeAll)
    ensures c.startAtAnimationNumber == range.start && c.endAtAnimationNumber == range.end
    ensures c.skipAnimations <==> args.saveLastFrame || (range.start.Some? && range.start.value != 0)
    ensures && c.sceneNames == args.sceneNames
            && c.openVideoUponCompletion == args.preview
            && c.ignoreWaits == args.preview
            && c.showFileInFinder == args.showFileInFinder
            && c.writeAll == args.writeAll
            && c.sound == args.sound
            && c.leaveProgressBars == args.leaveProgressBars
            && c.mediaDir == args.mediaDir
            && c.videoDir == args.videoDir
            && c.videoOutputDir == args.videoOutputDir
            && c.texDir == args.texDir
  {
    Configuration(
      args.sceneNames,
      args.preview,
      args.showFileInFinder,
      FileWriterFor(args),
      args.quiet || args.writeAll,
      args.preview,
      args.writeAll,
      range.start,
      range.end,
      args.sound,
      args.leaveProgressBars,
      args.mediaDir,
      args.videoDir,
      args.videoOutputDir,
      args.texDir,
      camera,
      SkipsAnimations(args.saveLastFrame, range.start))
  }

  /** `get_configuration`, after the scene module has been loaded. The camera
      configuration is derived before `-n` is read, so its errors come first;
      on success the dictionary is assembled from both. */
  function GetConfiguration(args: Args, parseColor: string -> Option<Color>): (r: Result<Configuration, ConfigError>)
    ensures r.Success? <==>
      GetCameraConfiguration(args, parseColor).Success? &&
      ParseAnimationRange(args.startAtAnimationNumber).Success?
    ensures GetCameraConfiguration(args, parseColor).Failure? ==>
      r.Failure? && r.error == GetCameraConfiguration(args, parseColor).error
    ensures GetCameraConfiguration(args, parseColor).Success? && ParseAnimationRange(args.startAtAnimationNumber).Failure? ==>
      r.Failure? && r.error == ParseAnimationRange(args.startAtAnimationNumber).error
    ensures r.Success? ==>
      r.value == AssembleConfiguration(args, GetCameraConfiguration(args, parseColor).value,
                                       ParseAnimationRange(args.startAtAnimationNumber).value)
  {
    var camera := GetCameraConfiguration(args, parseColor);
    var range := ParseAnimationRange(args.startAtAnimationNumber);
    if camera.Failure? then Failure(camera.error)
    else if range.Failure? then Failure(range.error)
    else Success(AssembleConfiguration(args, camera.value, range.value))
  }

  /** `-n a,b` ends up as start `a` and end `b`, and animations are skipped
      exactly when `-s` is given or `a` is not zero. */
  lemma ConfiguredAnimationRange(args: Args, parseColor: string -> Option<Color>, start: int, end: int)
    requires args.startAtAnimationNumber == Some(FormatInt(start) + "," + FormatInt(end))
    requires GetCameraConfiguration(args, parseColor).Success?
    ensures GetConfiguration(args, parseColor).Success?
    ensures GetConfiguration(args, parseColor).value.startAtAnimationNumber == Some(start)
    ensures GetConfiguration(args, parseColor).value.endAtAnimationNumber == Some(end)
    ensures GetConfiguration(args, parseColor).value.skipAnimations <==> args.saveLastFrame || start != 0
  {
    AnimationRangeRoundTrip(start, end);
  }

  /** `-n 0` neither fails nor, without `-s`, skips animations. */
  lemma StartAtZeroDoesNotSkip(args: Args, parseColor: string -> Option<Color>)
    requires args.startAtAnimationNumber == Some("0")
    requires !args.saveLastFrame
    requires GetCameraConfiguration(args, parseColor).Success?
    ensures GetConfiguration(args, parseColor).Success?
    ensures !GetConfiguration(args, parseColor).value.skipAnimations
  {
    StartOnlyRoundTrip(0);
    assert FormatInt(0) == "0";
  }

  /** `-r h,w` on the command line reaches the camera configuration unchanged. */
  lemma ConfiguredResolution(args: Args, parseColor: string -> Option<Color>, height: int, width: int)
    requires args.resolution == Some(FormatInt(height) + "," + FormatInt(width))
    requires !Truthy(args.color)
    ensures GetCameraConfiguration(args, parseColor).Success?
    ensures GetCameraConfiguration(args, parseColor).value.resolution == Some(Resolution(height, width))
  {
    ResolutionRoundTrip(height, width);
  }
}
