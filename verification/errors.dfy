/**
 The crate's error enumeration and its `Result` alias. Payloads that come from
 foreign libraries (`serde_any::Error`, `std::io::Error`, `image::ImageError`,
 `rscam::Error`) are carried as their rendered message.
 */
module Errors {
  import opened Primitives

  /** A file-system path, as the bytes of a Linux `OsStr`. */
  type Path = seq<byte>

  datatype Error =
    | FileNotFound(path: Path)
    | DeserialisationError(reason: string)
      /** Refusal to drop a radial distortion coefficient; carries the `k1` that would be lost. */
    | RectifToCamIntrisicsError(k1: Option<real>)
    | RectifToCamIntrisicsK1DistortionError
    | CameraCaptureError(reason: string)
    | ImageConversionError(reason: string)
      /** Unsupported FourCC; the `String` is exactly the FourCC's UTF-8 bytes. */
    | ImageFormatError(fourcc: seq<byte>)
    | CamStreamBuildError(reason: string)
    | CamStartError(reason: string)

  /** `crate::error::Result<T>`. */
  datatype Result<+T> = Ok(value: T) | Err(error: Error)
}
