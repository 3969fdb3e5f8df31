# cv_camstream in Dafny

A model of the core of `cv_camstream`, a Rust crate that captures
frames from one or two V4L2 cameras and rectifies them against a pinhole
camera model. Two parts are modelled:

- **Rectification** (`rectification.dfy`, module `Rectification`). It covers the
  two partial conversions from a `RectifParams` record to a camera-model
  variant: plain pinhole, or pinhole with one radial coefficient `k1`. It also
  covers the per-pixel loop of `rectify`. That loop calibrates the two image
  corners, places every destination pixel centre linearly between them, and
  reprojects it. It then samples the source with the crate's guarded
  three-neighbour interpolation. Coordinates and samples are `real`. The camera
  model's `calibrate` and `uncalibrate` are uninterpreted: they are the two
  function values of a `CameraModel` that the caller passes in. An image is a
  `GrayImage` of `width`, `height` and `rows[y][x]`.
- **Stream builders** (`builder.dfy`, module `Builder`). These are the
  record-update builders for mono and stereo streams:
  - the FourCC whitelist (only `MJPG`);
  - the stereo setters that write one value into both camera configurations;
  - path validation against a file-system oracle;
  - loading parameters from a file through a deserialiser oracle;
  - the control flow of `build`.

  `build` returns the device calls it made (`Open`, `Start`) together with its
  outcome. So "nothing is opened before both paths are checked" is a statement
  about that call list. A Rust panic is its own outcome (`Panicked`), separate
  from an `Err`. The model covers three panics: the `unwrap` of
  `String::from_utf8` on an unsupported FourCC, the `to_str().expect(..)` on a
  device path, and the `unwrap` of the image format.

Supporting modules:

- `Primitives` (`primitives.dfy`): `byte`, `u32`, `Option`, and the UTF-8
  well-formedness test that those conversions apply (section 4 of RFC 3629).
- `Errors` (`errors.dfy`): the crate's error enumeration. It adds
  `ImageFormatError`, `CamStreamBuildError` and `CamStartError`, which the
  builder uses but `src/error.rs` does not declare. Payloads from foreign
  libraries are carried as message strings.

Notes on the model:

- The interpolation formula is kept exactly as written. It omits the diagonal
  neighbour, so it is not bilinear. `LinterpPixels` states what it actually
  computes: the mean of a horizontal and a vertical linear interpolation from
  `p(x, y)`.
- Where the crate's documentation and its code differ, the code is followed:
  `MonoStreamBuilder` has no `build`, although the documentation example in
  `src/lib.rs` calls one.
- Image dimensions may be zero. An empty image only means that the per-pixel
  loops of `rectify` do not run.
- The device layer answers each call given the calls the same `build` has
  already made. So a node named for both cameras can accept its first start
  and refuse its second.
- `Fract` is `r - floor(r)`. Rust's `fract` truncates toward zero instead. The
  two agree here, because the sampler only takes fractional parts of
  non-negative coordinates.

## Model

| member | source | states |
|---|---|---|
| Primitives.LeadSequenceLength | src/builder.rs:233 | the UTF-8 sequence that `String::from_utf8` accepts at the head of a byte string: one byte exactly for ASCII, never starting with a continuation byte, every following byte a continuation byte, at most four bytes, and a non-empty sequence starts with ASCII or a lead byte from C2 to F4 |
| Primitives.ValidUtf8 | src/builder.rs:272-282 | the acceptance test of `OsStr::to_str` here and of `String::from_utf8` at line 233, whose failure makes the `expect`/`unwrap` panic: the bytes split into well-formed sequences, so the octets C0, C1 and F5 to FF never occur |
| Primitives.AsciiIsValidUtf8 | src/builder.rs:272-283 | an ASCII device path or FourCC is valid UTF-8, so converting it to text cannot panic |
| Rectification.ToPinholeIntrinsics | src/rectification.rs:70-81 | succeeds iff `k1` is absent; copies focals, principal point and skew unchanged; otherwise fails with the `k1` value that would have been discarded |
| Rectification.ToPinholeIntrinsicsK1 | src/rectification.rs:86-100 | succeeds iff `k1` is present; the result's `k1` is the stored coefficient and its linear part copies the three fields; otherwise fails with the missing-k1 error |
| Rectification.ExactlyOneConversionSucceeds | src/rectification.rs:66-100 | on every parameter set exactly one of the two conversions succeeds |
| Rectification.ConversionsAreLossless | src/rectification.rs:66-100 | a successful conversion determines the parameter set it came from (no information is dropped) |
| Rectification.PixelCentre | src/rectification.rs:202-207 | the pixel-centre fraction `(i + 0.5) / n` lies strictly between 0 and 1 |
| Rectification.ImageXyToNormKp | src/rectification.rs:187-208 | the normalised point of pixel `(x, y)` is `tl + t * (br - tl)` per axis with `t` the pixel-centre fraction, so it lies strictly between the two corners, or equals them when they coincide |
| Rectification.NormKpMonotone | src/rectification.rs:187-208 | along a row the x-coordinate is strictly monotone in `x`, in the direction from `tl.x` to `br.x`, and the y-coordinate is unchanged |
| Rectification.NormKpMonotoneY | src/rectification.rs:187-208 | down a column the y-coordinate is strictly monotone in `y`, in the direction from `tl.y` to `br.y`, and the x-coordinate is unchanged |
| Rectification.NormKpSymmetric | src/rectification.rs:187-208 | pixel `x` and its mirror `width - 1 - x` map to points symmetric about the corners' midpoint |
| Rectification.Fract | src/rectification.rs:228-231 | the fractional part lies in `[0, 1)` and adds back to the floor |
| Rectification.OutsideSampleGrid | src/rectification.rs:215-226 | the edge guard lets a point through exactly when it lies in the half-open box `[0, width - 1) x [0, height - 1)`, where all three neighbours the sampler reads exist |
| Rectification.LinterpPixels | src/rectification.rs:211-241 | black for a negative coordinate or a floor at or beyond the last column or row; otherwise all three neighbours are in bounds and the value is the mean of a horizontal and a vertical linear interpolation |
| Rectification.LinterpWithinNeighbours | src/rectification.rs:230-238 | the weights are non-negative and sum to one, so the sample lies within the range of its three neighbours |
| Rectification.LinterpFlat | src/rectification.rs:234-238 | a flat neighbourhood of value `v` samples to exactly `v` |
| Rectification.LinterpAtGridPoint | src/rectification.rs:219-238 | at whole-pixel coordinates inside the guard the sample is the pixel itself |
| Rectification.LinterpReadsOnlyNeighbours | src/rectification.rs:219-238 | images that agree on `(x, y)`, `(x + 1, y)` and `(x, y + 1)` give the same sample; no other pixel is read |
| Rectification.RemapPixelBounded | src/rectification.rs:126-140 | if every source sample lies in a range that contains black, every rectified pixel lies in it too |
| Rectification.RemapPixelUniform | src/rectification.rs:126-140 | a uniform source of value `v` rectifies to `v` wherever the edge guard does not apply, and to black where it does |
| Rectification.Remap | src/rectification.rs:120-143 | the per-pixel loop yields an image of the source's width and height in which every pixel holds the sample remapped from its own centre |
| Rectification.Rectify | src/rectification.rs:103-175 | uses the `k1` variant exactly when `k1` is present, so neither conversion's `unwrap` fails; the output has the input's dimensions, every pixel is its own remapped sample, guarded pixels are black, values in `[0, 1]` stay in `[0, 1]`, and a uniform input gives only `v` or black |
| Builder.NewMono | src/builder.rs:86-92 | a fresh mono builder has no path, no parameters and the default device configuration |
| Builder.NewStereo | src/builder.rs:94-103 | a fresh stereo builder has nothing chosen, the default configuration on both sides, and is consistent |
| Builder.FormatFromFourcc | src/builder.rs:313-318 | returns the JPEG format exactly for the bytes `MJPG` and nothing for any other byte string |
| Builder.RectifParamsFromFile | src/builder.rs:36-47 | a missing file gives `FileNotFound` with that path; an unparsable one gives `DeserialisationError`; it succeeds iff the file exists and parses, installing the parsed parameters |
| Builder.MissingFileNeverLoads | src/builder.rs:36-44 | for a missing file the outcome does not depend on the deserialiser, which is never consulted |
| Builder.MonoPath | src/builder.rs:111-119 | stores the path iff it exists, changing nothing else; otherwise `FileNotFound` with that path |
| Builder.MonoInterval | src/builder.rs:124-128 | sets the configuration's interval and changes nothing else |
| Builder.MonoResolution | src/builder.rs:133-137 | sets the configuration's resolution and changes nothing else |
| Builder.MonoFormat | src/builder.rs:142-146 | sets the configuration's FourCC, unchecked, and changes nothing else |
| Builder.MonoField | src/builder.rs:151-155 | sets the configuration's field order and changes nothing else |
| Builder.MonoNumBuffers | src/builder.rs:160-164 | sets the configuration's buffer count and changes nothing else |
| Builder.MonoSetRectifParams | src/builder.rs:170-174 | sets the parameters to `Some(params)` and changes nothing else |
| Builder.MonoRectifParamsFromFile | src/builder.rs:36-47 | succeeds iff the file exists and parses, and then only the parameters change; a missing file gives `FileNotFound` with that path; an existing but unparsable one gives `DeserialisationError` with the deserialiser's reason |
| Builder.StereoLeftPath | src/builder.rs:182-190 | stores the left path iff it exists, changing nothing else; otherwise `FileNotFound` with that path |
| Builder.StereoRightPath | src/builder.rs:196-204 | stores the right path iff it exists, changing nothing else; otherwise `FileNotFound` with that path |
| Builder.StereoInterval | src/builder.rs:209-214 | writes the same interval into both configurations; nothing else in either configuration or the builder changes |
| Builder.StereoResolution | src/builder.rs:219-224 | writes the same resolution into both configurations; nothing else changes |
| Builder.StereoFormat | src/builder.rs:229-240 | succeeds iff the FourCC is `MJPG`, then records the JPEG format and writes the FourCC into both configurations and nothing else; any other UTF-8 code gives `ImageFormatError` with that code; a non-UTF-8 code panics |
| Builder.StereoField | src/builder.rs:245-250 | writes the same field order into both configurations; nothing else changes |
| Builder.StereoNumBuffers | src/builder.rs:255-260 | writes the same buffer count into both configurations; nothing else changes |
| Builder.StereoSetRectifParams | src/builder.rs:302-306 | sets the parameters to `Some(params)` and changes nothing else |
| Builder.StereoRectifParamsFromFile | src/builder.rs:36-47 | succeeds iff the file exists and parses, and then only the parameters change; a missing file gives `FileNotFound` with that path; an existing but unparsable one gives `DeserialisationError` with the deserialiser's reason |
| Builder.Build | src/builder.rs:265-296 | a missing path gives `CamStreamBuildError` with no device call made; device calls are always a prefix of open-left, open-right, start-left, start-right; success iff both paths are present and text, the devices cooperate and a format was recorded, yielding cameras started with their own side's configuration; each failure point has its own outcome and call list: a left path that is not text panics before any call; a failed left open gives `CamStreamBuildError` with that error after one call; a right path that is not text panics after opening the left; a failed right open gives `CamStreamBuildError` after two calls; a failed left or right start gives `CamStartError` after three or four calls; a device failure is never a panic; any panic comes from a non-text path or, only after both cameras are started, from the unset image format; every error is a build or start error |
| Builder.SameDeviceSecondStartFails | src/builder.rs:272-287 | the two opens and starts act on separate handles: when one node is named for both cameras and the device refuses its second start, the left start succeeds and `build` returns that `CamStartError` after all four calls |
| Builder.StereoApplyPreservesConsistency | src/builder.rs:177-260 | every stereo call keeps both configurations equal and keeps "format recorded iff FourCC is `MJPG`" |
| Builder.StereoRunPreservesConsistency | src/builder.rs:177-306 | any chain of stereo calls keeps the builder consistent |
| Builder.SessionBuildersAreConsistent | src/builder.rs:94-296 | every builder reached from a fresh one has equal left and right configurations, and with cooperating devices it builds iff its FourCC is `MJPG` (otherwise the format `unwrap` panics) |
| Builder.StereoSettersLastWriteWins | src/builder.rs:209-260 | repeating a stereo configuration setter keeps only the last value |
| Builder.IntegrationSessionBuilds | tests/stereo.rs:18-25 | the integration test's call chain, with both devices present and cooperating, builds a stream whose cameras both run at interval 1/30, 640x480, `MJPG` |

## Left out

- Camera I/O (`rscam::Camera::new`, `start`, `capture`): opening and starting a device are an oracle (`Devices`) that sees the calls made so far and whose only observable effect is the error it may report; capture is not modelled.
- `CamStream::capture` for mono and stereo streams (`src/camstream.rs`): it only sequences capture, decode and `rectify`. It is also type-inconsistent, since `rectify` returns a `GrayFloatImage` while capture returns a `DynamicImage`.
- Frame decoding (`image::load_from_memory`) and `GrayFloatImage::from_dynamic`/`new`/`get`: the `crate::image` module is not part of this model. `Rectify` starts from a `GrayImage` grid.
- `Rectify`: no conversion from a `DynamicImage` is modelled. The model takes the already converted grey-scale grid.
- `calibrate`/`uncalibrate`: their definitions live in the external `cv_pinhole` crate, so they stay uninterpreted, and no round-trip law between them is assumed.
- Image dimensions above the `u32` range: the pixel loops cast width and height to `u32`; the model uses unbounded naturals.
- Floating point: `f32`/`f64` rounding, NaN and infinities, the saturating `floor() as usize` on huge values, and the `f64` to `f32` cast of the fractional parts. Everything is `real`.
- LinterpPixels: requires a width and height of at least one. With zero, the source's `usize` subtraction `width() - 1` underflows. `rectify` only samples from inside its pixel loops, so it never calls it with an empty image.
- Deserialisation (`serde_any::from_file`) is an oracle (`Loaded`) returning parsed parameters or a reason.
- The device configuration defaults (interval 1/10, 640x480, `YUYV`, progressive field order, two buffers) are those named in the builder's documentation comments. The configuration type itself belongs to `rscam`, which is not part of this model.
- `CamStreamBuilder::new`, `src/lib.rs` re-exports, and the display code and `luma_to_u32` helper of `tests/stereo.rs`: glue and UI.
- `StereoCamStream::new`: this constructor is not in the code shown, so the built stream is modelled as the record of its four arguments.
