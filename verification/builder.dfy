/**
 The stream builders: record-update builders for a mono and a stereo camera
 stream, with validation of device paths and of the pixel-encoding FourCC.

 The file system (`Path::exists`), deserialisation of a parameter file, and
 opening and starting a V4L2 device are oracles passed in as function values.
 A Rust panic is an outcome of its own (`Panicked`), distinct from an `Err`.
 */
module Builder {
  import opened Primitives
  import opened Errors
  import Rectification

  // ---------------------------------------------------------------------------
  // Data
  // ---------------------------------------------------------------------------

  /** The FourCC `MJPG` (motion JPEG). */
  const MJPG: seq<byte> := [0x4D, 0x4A, 0x50, 0x47]

  /** The FourCC `YUYV`, the device configuration's default encoding. */
  const YUYV: seq<byte> := [0x59, 0x55, 0x59, 0x56]

  /** V4L2's progressive (non-interlaced) field order. */
  const FIELD_NONE: u32 := 1

  /** The device configuration handed to a camera when it is started. */
  datatype Config = Config(
    interval: (u32, u32),
    resolution: (u32, u32),
    format: seq<byte>,
    field: u32,
    nbuffers: u32)

  /** Defaults: interval 1/10, 640x480, `YUYV`, progressive, two buffers. */
  const DefaultConfig: Config := Config((1, 10), (640, 480), YUYV, FIELD_NONE, 2)

  /** Still-image container formats of the image decoder. */
  datatype ImageFormat = Png | Jpeg | Gif | WebP | Pnm | Tiff | Tga | Bmp | Ico | Hdr

  datatype MonoStreamBuilder = MonoStreamBuilder(
    path: Option<Path>,
    rectifParams: Option<Rectification.RectifParams>,
    config: Config)

  datatype StereoStreamBuilder = StereoStreamBuilder(
    leftPath: Option<Path>,
    rightPath: Option<Path>,
    rectifParams: Option<Rectification.StereoRectifParams>,
    imgFormat: Option<ImageFormat>,
    leftConfig: Config,
    rightConfig: Config)

  /** What a call does: return a `Result`, or panic. */
  datatype Outcome<+T> = Returned(result: Result<T>) | Panicked(message: string)

  /** What the deserialiser makes of a parameter file. */
  datatype Loaded<+P> = Parsed(params: P) | Malformed(reason: string)

  // ---------------------------------------------------------------------------
  // Construction
  // ---------------------------------------------------------------------------

  /** A fresh mono builder: no device, no parameters, the default configuration. */
  function NewMono(): (b: MonoStreamBuilder)
    ensures b.path.None? && b.rectifParams.None?
    ensures b.config == DefaultConfig
  {
    MonoStreamBuilder(None, None, DefaultConfig)
  }

  /**
   A stereo builder is consistent when both sides share one configuration and
   an image format is recorded exactly when that configuration asks for `MJPG`.
   */
  predicate Consistent(b: StereoStreamBuilder) {
    && b.leftConfig == b.rightConfig
    && (b.imgFormat.Some? <==> b.leftConfig.format == MJPG)
    && (b.imgFormat.Some? ==> b.imgFormat.value == Jpeg)
  }

  /** A fresh stereo builder: nothing chosen yet, both sides on the default configuration. */
  function NewStereo(): (b: StereoStreamBuilder)
    ensures b.leftPath.None? && b.rightPath.None? && b.rectifParams.None? && b.imgFormat.None?
    ensures b.leftConfig == DefaultConfig
    ensures Consistent(b)
  {
    StereoStreamBuilder(None, None, None, None, DefaultConfig, DefaultConfig)
  }

  // ---------------------------------------------------------------------------
  // FourCC whitelist
  // ---------------------------------------------------------------------------

  /** The container format a FourCC is decoded from; only `MJPG` is recognised. */
  function FormatFromFourcc(format: seq<byte>): (r: Option<ImageFormat>)
    ensures r.Some? <==> format == MJPG
    ensures r.Some? ==> r.value == Jpeg
  {
    if format == MJPG then Some(Jpeg) else None
  }

  // ---------------------------------------------------------------------------
  // Parameters (shared by both builders)
  // ---------------------------------------------------------------------------

  /**
   Loads parameters from `path` and installs them with `install`. A missing
   file is reported before the deserialiser is consulted; a file it cannot
   parse is reported with the deserialiser's reason.
   */
  function RectifParamsFromFile<B, P>(
    b: B, path: Path, pathExists: Path -> bool, load: Path -> Loaded<P>, install: (B, P) -> B): (r: Result<B>)
    ensures !pathExists(path) ==> r == Err(FileNotFound(path))
    ensures pathExists(path) && load(path).Malformed? ==> r == Err(DeserialisationError(load(path).reason))
    ensures r.Ok? <==> pathExists(path) && load(path).Parsed?
    ensures r.Ok? ==> r.value == install(b, load(path).params)
  {
    if !pathExists(path) then
      Err(FileNotFound(path))
    else
      match load(path)
      case Malformed(reason) => Err(DeserialisationError(reason))
      case Parsed(p) => Ok(install(b, p))
  }

  /** For a path that does not exist the outcome does not depend on the deserialiser at all. */
  lemma MissingFileNeverLoads<B, P>(
    b: B, path: Path, pathExists: Path -> bool, load1: Path -> Loaded<P>, load2: Path -> Loaded<P>, install: (B, P) -> B)
    requires !pathExists(path)
    ensures RectifParamsFromFile(b, path, pathExists, load1, install) == RectifParamsFromFile(b, path, pathExists, load2, install)
  {
  }

  // ---------------------------------------------------------------------------
  // Mono builder
  // ---------------------------------------------------------------------------

  /** Records the device path if it exists; otherwise reports the missing path. */
  function MonoPath(b: MonoStreamBuilder, path: Path, pathExists: Path -> bool): (r: Result<MonoStreamBuilder>)
    ensures r.Ok? <==> pathExists(path)
    ensures r.Ok? ==> r.value.path == Some(path) && r.value.(path := b.path) == b
    ensures r.Err? ==> r.error == FileNotFound(path)
  {
    if pathExists(path) then Ok(b.(path := Some(path))) else Err(FileNotFound(path))
  }

  function MonoInterval(b: MonoStreamBuilder, interval: (u32, u32)): (r: MonoStreamBuilder)
    ensures r.config.interval == interval
    ensures r.(config := r.config.(interval := b.config.interval)) == b
  {
    b.(config := b.config.(interval := interval))
  }

  function MonoResolution(b: MonoStreamBuilder, resolution: (u32, u32)): (r: MonoStreamBuilder)
    ensures r.config.resolution == resolution
    ensures r.(config := r.config.(resolution := b.config.resolution)) == b
  {
    b.(config := b.config.(resolution := resolution))
  }

  /** The mono builder takes any FourCC without checking it. */
  function MonoFormat(b: MonoStreamBuilder, format: seq<byte>): (r: MonoStreamBuilder)
    ensures r.config.format == format
    ensures r.(config := r.config.(format := b.config.format)) == b
  {
    b.(config := b.config.(format := format))
  }

  function MonoField(b: MonoStreamBuilder, field: u32): (r: MonoStreamBuilder)
    ensures r.config.field == field
    ensures r.(config := r.config.(field := b.config.field)) == b
  {
    b.(config := b.config.(field := field))
  }

  function MonoNumBuffers(b: MonoStreamBuilder, numBuffers: u32): (r: MonoStreamBuilder)
    ensures r.config.nbuffers == numBuffers
    ensures r.(config := r.config.(nbuffers := b.config.nbuffers)) == b
  {
    b.(config := b.config.(nbuffers := numBuffers))
  }

  function MonoSetRectifParams(b: MonoStreamBuilder, params: Rectification.RectifParams): (r: MonoStreamBuilder)
    ensures r.rectifParams == Some(params)
    ensures r.(rectifParams := b.rectifParams) == b
  {
    b.(rectifParams := Some(params))
  }

  function MonoRectifParamsFromFile(
    b: MonoStreamBuilder, path: Path, pathExists: Path -> bool, load: Path -> Loaded<Rectification.RectifParams>): (r: Result<MonoStreamBuilder>)
    ensures r.Ok? <==> pathExists(path) && load(path).Parsed?
    ensures !pathExists(path) ==> r == Err(FileNotFound(path))
    ensures pathExists(path) && load(path).Malformed? ==> r == Err(DeserialisationError(load(path).reason))
    ensures r.Ok? ==> r.value == b.(rectifParams := Some(load(path).params))
  {
    RectifParamsFromFile(b, path, pathExists, load, MonoSetRectifParams)
  }

  // ---------------------------------------------------------------------------
  // Stereo builder
  // ---------------------------------------------------------------------------

  function StereoLeftPath(b: StereoStreamBuilder, path: Path, pathExists: Path -> bool): (r: Result<StereoStreamBuilder>)
    ensures r.Ok? <==> pathExists(path)
    ensures r.Ok? ==> r.value.leftPath == Some(path) && r.value.(leftPath := b.leftPath) == b
    ensures r.Err? ==> r.error == FileNotFound(path)
  {
    if pathExists(path) then Ok(b.(leftPath := Some(path))) else Err(FileNotFound(path))
  }

  function StereoRightPath(b: StereoStreamBuilder, path: Path, pathExists: Path -> bool): (r: Result<StereoStreamBuilder>)
    ensures r.Ok? <==> pathExists(path)
    ensures r.Ok? ==> r.value.rightPath == Some(path) && r.value.(rightPath := b.rightPath) == b
    ensures r.Err? ==> r.error == FileNotFound(path)
  {
    if pathExists(path) then Ok(b.(rightPath := Some(path))) else Err(FileNotFound(path))
  }

  /** Only the two configurations may differ between `b` and `r`. */
  predicate OnlyConfigsChanged(b: StereoStreamBuilder, r: StereoStreamBuilder) {
    r.(leftConfig := b.leftConfig, rightConfig := b.rightConfig) == b
  }

  function StereoInterval(b: StereoStreamBuilder, interval: (u32, u32)): (r: StereoStreamBuilder)
    ensures r.leftConfig.interval == interval && r.rightConfig.interval == interval
    ensures r.leftConfig.(interval := b.leftConfig.interval) == b.leftConfig
    ensures r.rightConfig.(interval := b.rightConfig.interval) == b.rightConfig
    ensures OnlyConfigsChanged(b, r)
  {
    b.(leftConfig := b.leftConfig.(interval := interval), rightConfig := b.rightConfig.(interval := interval))
  }

  function StereoResolution(b: StereoStreamBuilder, resolution: (u32, u32)): (r: StereoStreamBuilder)
    ensures r.leftConfig.resolution == resolution && r.rightConfig.resolution == resolution
    ensures r.leftConfig.(resolution := b.leftConfig.resolution) == b.leftConfig
    ensures r.rightConfig.(resolution := b.rightConfig.resolution) == b.rightConfig
    ensures OnlyConfigsChanged(b, r)
  {
    b.(leftConfig := b.leftConfig.(resolution := resolution), rightConfig := b.rightConfig.(resolution := resolution))
  }

  function StereoField(b: StereoStreamBuilder, field: u32): (r: StereoStreamBuilder)
    ensures r.leftConfig.field == field && r.rightConfig.field == field
    ensures r.leftConfig.(field := b.leftConfig.field) == b.leftConfig
    ensures r.rightConfig.(field := b.rightConfig.field) == b.rightConfig
    ensures OnlyConfigsChanged(b, r)
  {
    b.(leftConfig := b.leftConfig.(field := field), rightConfig := b.rightConfig.(field := field))
  }

  function StereoNumBuffers(b: StereoStreamBuilder, numBuffers: u32): (r: StereoStreamBuilder)
    ensures r.leftConfig.nbuffers == numBuffers && r.rightConfig.nbuffers == numBuffers
    ensures r.leftConfig.(nbuffers := b.leftConfig.nbuffers) == b.leftConfig
    ensures r.rightConfig.(nbuffers := b.rightConfig.nbuffers) == b.rightConfig
    ensures OnlyConfigsChanged(b, r)
  {
    b.(leftConfig := b.leftConfig.(nbuffers := numBuffers), rightConfig := b.rightConfig.(nbuffers := numBuffers))
  }

  /**
   Sets the FourCC of both cameras, accepting only `MJPG`. Any other code is an
   `ImageFormatError` whose text is the code's bytes; rendering that text
   panics when the bytes are not UTF-8.
   */
  function StereoFormat(b: StereoStreamBuilder, format: seq<byte>): (r: Outcome<StereoStreamBuilder>)
    ensures r.Returned? && r.result.Ok? <==> format == MJPG
    ensures format == MJPG ==>
              && r.result.value.imgFormat == Some(Jpeg)
              && r.result.value.leftConfig == b.leftConfig.(format := MJPG)
              && r.result.value.rightConfig == b.rightConfig.(format := MJPG)
              && r.result.value.(imgFormat := b.imgFormat, leftConfig := b.leftConfig, rightConfig := b.rightConfig) == b
    ensures format != MJPG && ValidUtf8(format) ==> r == Returned(Err(ImageFormatError(format)))
    ensures r.Panicked? <==> format != MJPG && !ValidUtf8(format)
  {
    var imgFormat := FormatFromFourcc(format);
    if imgFormat.None? then
      if ValidUtf8(format) then
        Returned(Err(ImageFormatError(format)))
      else
        Panicked("unsupported FourCC is not valid UTF-8")
    else
      Returned(Ok(b.(imgFormat := imgFormat,
                     leftConfig := b.leftConfig.(format := format),
                     rightConfig := b.rightConfig.(format := format))))
  }

  function StereoSetRectifParams(b: StereoStreamBuilder, params: Rectification.StereoRectifParams): (r: StereoStreamBuilder)
    ensures r.rectifParams == Some(params)
    ensures r.(rectifParams := b.rectifParams) == b
  {
    b.(rectifParams := Some(params))
  }

  function StereoRectifParamsFromFile(
    b: StereoStreamBuilder, path: Path, pathExists: Path -> bool,
    load: Path -> Loaded<Rectification.StereoRectifParams>): (r: Result<StereoStreamBuilder>)
    ensures r.Ok? <==> pathExists(path) && load(path).Parsed?
    ensures !pathExists(path) ==> r == Err(FileNotFound(path))
    ensures pathExists(path) && load(path).Malformed? ==> r == Err(DeserialisationError(load(path).reason))
    ensures r.Ok? ==> r.value == b.(rectifParams := Some(load(path).params))
  {
    RectifParamsFromFile(b, path, pathExists, load, StereoSetRectifParams)
  }

  // ---------------------------------------------------------------------------
  // Building the stereo stream
  // ---------------------------------------------------------------------------

  /** An opened camera device, started with `config`. */
  datatype Camera = Camera(device: Path, config: Config)

  datatype StereoCamStream = StereoCamStream(
    leftCam: Camera,
    rightCam: Camera,
    imgFormat: ImageFormat,
    rectifParams: Option<Rectification.StereoRectifParams>)

  /** A request made of the device layer. */
  datatype DeviceCall = Open(device: Path) | Start(device: Path, config: Config)

  /**
   The device layer: the error, if any, that it reports for a call, given the
   calls this build has already made. Each call acts on its own handle, so the
   same device opened or started twice may answer differently the second time.
   */
  datatype Devices = Devices(respond: (seq<DeviceCall>, DeviceCall) -> Option<string>)

  /** The outcome of `build` and the device calls it made, in order. */
  datatype BuildRun = BuildRun(outcome: Outcome<StereoCamStream>, calls: seq<DeviceCall>)

  const MissingCameraPath: string := "Missing camera path"

  /** Every device call `build` makes when nothing fails. */
  function AllCalls(left: Path, right: Path, b: StereoStreamBuilder): seq<DeviceCall> {
    [Open(left), Open(right), Start(left, b.leftConfig), Start(right, b.rightConfig)]
  }

  /** The error the device layer reports for the `k`-th of `calls`, after the ones before it. */
  function ErrorAt(dev: Devices, calls: seq<DeviceCall>, k: nat): Option<string>
    requires k < |calls|
  {
    dev.respond(calls[..k], calls[k])
  }

  /** Both paths are present and text, and the device layer raises no error. */
  predicate DevicesCooperate(b: StereoStreamBuilder, dev: Devices) {
    && b.leftPath.Some? && b.rightPath.Some?
    && ValidUtf8(b.leftPath.value) && ValidUtf8(b.rightPath.value)
    && var calls := AllCalls(b.leftPath.value, b.rightPath.value, b);
       && ErrorAt(dev, calls, 0).None? && ErrorAt(dev, calls, 1).None?
       && ErrorAt(dev, calls, 2).None? && ErrorAt(dev, calls, 3).None?
  }

  /**
   Builds the stereo stream: both paths must be present before any device is
   touched; the left camera is opened, then the right, then both are started;
   the recorded image format is unwrapped last.
   */
  function Build(b: StereoStreamBuilder, dev: Devices): (r: BuildRun)
    ensures b.leftPath.None? || b.rightPath.None? ==>
              r == BuildRun(Returned(Err(CamStreamBuildError(MissingCameraPath))), [])
    ensures b.leftPath.Some? && b.rightPath.Some? ==> r.calls <= AllCalls(b.leftPath.value, b.rightPath.value, b)
    ensures r.outcome.Returned? && r.outcome.result.Ok? <==> DevicesCooperate(b, dev) && b.imgFormat.Some?
    ensures r.outcome.Returned? && r.outcome.result.Ok? ==>
              && r.outcome.result.value == StereoCamStream(
                   Camera(b.leftPath.value, b.leftConfig), Camera(b.rightPath.value, b.rightConfig),
                   b.imgFormat.value, b.rectifParams)
              && r.calls == AllCalls(b.leftPath.value, b.rightPath.value, b)
    ensures r.outcome.Returned? && r.outcome.result.Err? ==>
              r.outcome.result.error.CamStreamBuildError? || r.outcome.result.error.CamStartError?
    ensures DevicesCooperate(b, dev) && b.imgFormat.None? ==> r.outcome.Panicked? && |r.calls| == 4
    // Each failure point, in the order `build` meets them.
    ensures b.leftPath.Some? && b.rightPath.Some? ==>
              var left, right := b.leftPath.value, b.rightPath.value;
              var calls := AllCalls(left, right, b);
              && (!ValidUtf8(left) ==> r.outcome.Panicked? && r.calls == [])
              && (ValidUtf8(left) && ErrorAt(dev, calls, 0).Some? ==>
                    r == BuildRun(Returned(Err(CamStreamBuildError(ErrorAt(dev, calls, 0).value))), [Open(left)]))
              && (ValidUtf8(left) && ErrorAt(dev, calls, 0).None? && !ValidUtf8(right) ==>
                    r.outcome.Panicked? && r.calls == [Open(left)])
              && (ValidUtf8(left) && ErrorAt(dev, calls, 0).None? && ValidUtf8(right) && ErrorAt(dev, calls, 1).Some? ==>
                    r == BuildRun(Returned(Err(CamStreamBuildError(ErrorAt(dev, calls, 1).value))),
                                  [Open(left), Open(right)]))
              && (ValidUtf8(left) && ErrorAt(dev, calls, 0).None? && ValidUtf8(right) && ErrorAt(dev, calls, 1).None?
                  && ErrorAt(dev, calls, 2).Some? ==>
                    r == BuildRun(Returned(Err(CamStartError(ErrorAt(dev, calls, 2).value))),
                                  [Open(left), Open(right), Start(left, b.leftConfig)]))
              && (ValidUtf8(left) && ErrorAt(dev, calls, 0).None? && ValidUtf8(right) && ErrorAt(dev, calls, 1).None?
                  && ErrorAt(dev, calls, 2).None? && ErrorAt(dev, calls, 3).Some? ==>
                    r == BuildRun(Returned(Err(CamStartError(ErrorAt(dev, calls, 3).value))), calls))
    // A panic comes from a path that is not text, or from the unset image format once both cameras are started.
    ensures r.outcome.Panicked? ==>
              && b.leftPath.Some? && b.rightPath.Some?
              && (|| !ValidUtf8(b.leftPath.value) || !ValidUtf8(b.rightPath.value)
                  || (DevicesCooperate(b, dev) && b.imgFormat.None?
                      && r.calls == AllCalls(b.leftPath.value, b.rightPath.value, b)))
  {
    if b.leftPath.None? || b.rightPath.None? then
      BuildRun(Returned(Err(CamStreamBuildError(MissingCameraPath))), [])
    else
      var left, right := b.leftPath.value, b.rightPath.value;
      var calls := AllCalls(left, right, b);
      if !ValidUtf8(left) then
        BuildRun(Panicked("Cannot convert left path to &str"), [])
      else if ErrorAt(dev, calls, 0).Some? then
        BuildRun(Returned(Err(CamStreamBuildError(ErrorAt(dev, calls, 0).value))), calls[..1])
      else if !ValidUtf8(right) then
        BuildRun(Panicked("Cannot convert right path to &str"), calls[..1])
      else if ErrorAt(dev, calls, 1).Some? then
        BuildRun(Returned(Err(CamStreamBuildError(ErrorAt(dev, calls, 1).value))), calls[..2])
      else if ErrorAt(dev, calls, 2).Some? then
        BuildRun(Returned(Err(CamStartError(ErrorAt(dev, calls, 2).value))), calls[..3])
      else if ErrorAt(dev, calls, 3).Some? then
        BuildRun(Returned(Err(CamStartError(ErrorAt(dev, calls, 3).value))), calls)
      else if b.imgFormat.None? then
        BuildRun(Panicked("image format unwrapped while unset"), calls)
      else
        BuildRun(Returned(Ok(StereoCamStream(Camera(left, b.leftConfig), Camera(right, b.rightConfig),
                                             b.imgFormat.value, b.rectifParams))), calls)
  }

  /**
   Naming one device node for both cameras: with a device layer that refuses a
   second start of a node that is already streaming, the left camera starts,
   the right start fails, and `build` reports that failure after all four calls.
   */
  lemma SameDeviceSecondStartFails(b: StereoStreamBuilder, node: Path)
    requires b.leftPath == Some(node) && b.rightPath == Some(node) && IsAscii(node)
    ensures var busy := Devices((history: seq<DeviceCall>, call: DeviceCall) =>
                          if call.Start? && Start(call.device, b.leftConfig) in history then Some("busy") else None);
            var r := Build(b, busy);
            && r.outcome == Returned(Err(CamStartError("busy")))
            && r.calls == AllCalls(node, node, b)
  {
    AsciiIsValidUtf8(node);
  }

  // ---------------------------------------------------------------------------
  // Builder sessions
  // ---------------------------------------------------------------------------

  /** One call on a stereo builder. */
  datatype StereoStep =
    | LeftPath(path: Path)
    | RightPath(path: Path)
    | Interval(interval: (u32, u32))
    | Resolution(resolution: (u32, u32))
    | Format(fourcc: seq<byte>)
    | Field(field: u32)
    | NumBuffers(numBuffers: u32)
    | Params(params: Rectification.StereoRectifParams)
    | ParamsFromFile(file: Path)

  /** The file system and deserialiser a session runs against. */
  datatype Host = Host(pathExists: Path -> bool, load: Path -> Loaded<Rectification.StereoRectifParams>)

  function StereoApply(b: StereoStreamBuilder, step: StereoStep, host: Host): Outcome<StereoStreamBuilder> {
    match step
    case LeftPath(p) => Returned(StereoLeftPath(b, p, host.pathExists))
    case RightPath(p) => Returned(StereoRightPath(b, p, host.pathExists))
    case Interval(i) => Returned(Ok(StereoInterval(b, i)))
    case Resolution(res) => Returned(Ok(StereoResolution(b, res)))
    case Format(f) => StereoFormat(b, f)
    case Field(f) => Returned(Ok(StereoField(b, f)))
    case NumBuffers(n) => Returned(Ok(StereoNumBuffers(b, n)))
    case Params(p) => Returned(Ok(StereoSetRectifParams(b, p)))
    case ParamsFromFile(p) => Returned(StereoRectifParamsFromFile(b, p, host.pathExists, host.load))
  }

  /** A chain of calls, each consuming the previous builder; the first error or panic ends it. */
  function StereoRun(b: StereoStreamBuilder, steps: seq<StereoStep>, host: Host): Outcome<StereoStreamBuilder>
    decreases |steps|
  {
    if |steps| == 0 then
      Returned(Ok(b))
    else
      match StereoApply(b, steps[0], host)
      case Returned(Ok(next)) => StereoRun(next, steps[1..], host)
      case failed => failed
  }

  /** Every stereo call keeps the builder consistent. */
  lemma StereoApplyPreservesConsistency(b: StereoStreamBuilder, step: StereoStep, host: Host)
    requires Consistent(b)
    ensures var r := StereoApply(b, step, host);
            r.Returned? && r.result.Ok? ==> Consistent(r.result.value)
  {
  }

  /** Every session keeps the builder consistent. */
  lemma {:induction false} StereoRunPreservesConsistency(b: StereoStreamBuilder, steps: seq<StereoStep>, host: Host)
    requires Consistent(b)
    ensures var r := StereoRun(b, steps, host);
            r.Returned? && r.result.Ok? ==> Consistent(r.result.value)
    decreases |steps|
  {
    if |steps| > 0 {
      StereoApplyPreservesConsistency(b, steps[0], host);
      var first := StereoApply(b, steps[0], host);
      if first.Returned? && first.result.Ok? {
        StereoRunPreservesConsistency(first.result.value, steps[1..], host);
      }
    }
  }

  /**
   Any builder a session produces from a fresh one has identical left and right
   configurations, and it records an image format exactly when that
   configuration's FourCC is `MJPG`: with cooperating devices such a builder
   either builds or, when `format` was never called successfully, panics.
   */
  lemma SessionBuildersAreConsistent(steps: seq<StereoStep>, host: Host, dev: Devices)
    ensures var r := StereoRun(NewStereo(), steps, host);
            r.Returned? && r.result.Ok? ==>
              && r.result.value.leftConfig == r.result.value.rightConfig
              && (DevicesCooperate(r.result.value, dev) ==>
                    (Build(r.result.value, dev).outcome.Returned? <==> r.result.value.leftConfig.format == MJPG))
  {
    StereoRunPreservesConsistency(NewStereo(), steps, host);
  }

  /** Repeating a stereo setter keeps only the last value. */
  lemma StereoSettersLastWriteWins(b: StereoStreamBuilder, i1: (u32, u32), i2: (u32, u32), f1: u32, f2: u32)
    ensures StereoInterval(StereoInterval(b, i1), i2) == StereoInterval(b, i2)
    ensures StereoResolution(StereoResolution(b, i1), i2) == StereoResolution(b, i2)
    ensures StereoField(StereoField(b, f1), f2) == StereoField(b, f2)
    ensures StereoNumBuffers(StereoNumBuffers(b, f1), f2) == StereoNumBuffers(b, f2)
  {
  }

  /**
   The sequence of calls in the crate's stereo integration test: with both
   device nodes present and cooperating devices, the stream builds and both
   cameras are started with interval 1/30, 640x480 and `MJPG`.
   */
  lemma IntegrationSessionBuilds(host: Host, dev: Devices, left: Path, right: Path)
    requires IsAscii(left) && IsAscii(right)
    requires host.pathExists(left) && host.pathExists(right)
    requires var c := Config((1, 30), (640, 480), MJPG, FIELD_NONE, 2);
             forall k :: 0 <= k < 4 ==> ErrorAt(dev, [Open(left), Open(right), Start(left, c), Start(right, c)], k).None?
    ensures var c := Config((1, 30), (640, 480), MJPG, FIELD_NONE, 2);
            var steps := [LeftPath(left), RightPath(right), Interval((1, 30)), Resolution((640, 480)), Format(MJPG)];
            var r := StereoRun(NewStereo(), steps, host);
            && r.Returned? && r.result.Ok?
            && Build(r.result.value, dev).outcome
               == Returned(Ok(StereoCamStream(Camera(left, c), Camera(right, c), Jpeg, None)))
  {
    AsciiIsValidUtf8(left);
    AsciiIsValidUtf8(right);
    var steps := [LeftPath(left), RightPath(right), Interval((1, 30)), Resolution((640, 480)), Format(MJPG)];
    var b1 := NewStereo().(leftPath := Some(left));
    var b2 := b1.(rightPath := Some(right));
    var b3 := StereoInterval(b2, (1, 30));
    var b4 := StereoResolution(b3, (640, 480));
    var r5 := StereoFormat(b4, MJPG);
    assert StereoRun(b4, steps[4..], host) == StereoRun(r5.result.value, [], host);
    assert StereoRun(b3, steps[3..], host) == StereoRun(b4, steps[4..], host);
    assert StereoRun(b2, steps[2..], host) == StereoRun(b3, steps[3..], host);
    assert StereoRun(b1, steps[1..], host) == StereoRun(b2, steps[2..], host);
    assert StereoRun(NewStereo(), steps, host) == StereoRun(b1, steps[1..], host);
  }
}
