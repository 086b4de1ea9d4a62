/** Publishing modes and the configuration of one camera. */
module CameraConfig {

  datatype Mode =
    | PassthroughMjpeg
    | PassthroughH264
    | TranscodeMjpegToH264
    | TranscodeRawToH264
    | TranscodeRawToMjpeg
    | Unknown

  function ModeName(m: Mode): string {
    match m
    case PassthroughMjpeg => "passthrough_mjpeg"
    case PassthroughH264 => "passthrough_h264"
    case TranscodeMjpegToH264 => "transcode_mjpeg_to_h264"
    case TranscodeRawToH264 => "transcode_raw_to_h264"
    case TranscodeRawToMjpeg => "transcode_raw_to_mjpeg"
    case Unknown => "unknown"
  }

  function ModeFromString(s: string): Mode {
    if s == "passthrough_mjpeg" then PassthroughMjpeg
    else if s == "passthrough_h264" then PassthroughH264
    else if s == "transcode_mjpeg_to_h264" then TranscodeMjpegToH264
    else if s == "transcode_raw_to_h264" then TranscodeRawToH264
    else if s == "transcode_raw_to_mjpeg" then TranscodeRawToMjpeg
    else Unknown
  }

  datatype CameraConfig = CameraConfig(
    friendlyName: string, rtspPath: string,
    mode: Mode, width: int, height: int, fps: int, enabled: bool)

  /** Only the two modes that the user interface offers survive a restart. */
  function Coerce(m: Mode): Mode {
    if m == TranscodeMjpegToH264 || m == TranscodeRawToH264 then m else TranscodeMjpegToH264
  }

  /** A mode name names one mode, and only "unknown" stands for several texts. */
  lemma ModeNames(m: Mode, s: string)
    ensures ModeFromString(ModeName(m)) == m
    ensures ModeFromString(s) != Unknown ==> ModeName(ModeFromString(s)) == s
  {
    assert |ModeName(m)| in {7, 16, 17, 21, 22, 23};
  }
}
