/** The single fixed sensor mode and the media-bus format it is reported
    as. */
module Modes {

  /** Media-bus code of 12-bit RGGB Bayer data, from the kernel's media-bus
      format header. */
  const MEDIA_BUS_FMT_SRGGB12_1X12: nat := 0x3012
  /** `V4L2_FIELD_NONE`: progressive frames. */
  const V4L2_FIELD_NONE: nat := 1
  /** `V4L2_COLORSPACE_RAW`. */
  const V4L2_COLORSPACE_RAW: nat := 11
  const LINK_FREQ_576MHZ: nat := 576_000_000

  /** A sensor mode: an immutable descriptor of one streaming configuration. */
  datatype Mode = Mode(width: nat, height: nat, code: nat, hts: nat, vts: nat, linkFreq: nat)

  /** The one mode the driver has. */
  const DefaultMode: Mode := Mode(4056, 3040, MEDIA_BUS_FMT_SRGGB12_1X12, 0x0172, 0x0CB2, LINK_FREQ_576MHZ)

  /** The fields of a media-bus frame format that a caller may fill in. */
  datatype MbusFormat = MbusFormat(
    width: int, height: int, code: int, field: int, colorspace: int,
    ycbcrEnc: int, quantization: int, xferFunc: int, flags: int)

  /** A pad-format request: which format (try or active), the pad, and the
      frame format. */
  datatype SubdevFormat = SubdevFormat(which: int, pad: int, format: MbusFormat)

  /** What a format query fills in from a mode: code, width, height, field
      and colorspace; every other field of the request is left as it was. */
  function Report(mode: Mode, fmt: SubdevFormat): (r: SubdevFormat)
    ensures Reported(r) == (mode.width, mode.height, mode.code, V4L2_FIELD_NONE, V4L2_COLORSPACE_RAW)
    ensures r.which == fmt.which && r.pad == fmt.pad
    ensures r.format.ycbcrEnc == fmt.format.ycbcrEnc && r.format.quantization == fmt.format.quantization
    ensures r.format.xferFunc == fmt.format.xferFunc && r.format.flags == fmt.format.flags
  {
    fmt.(format := fmt.format.(code := mode.code, width := mode.width, height := mode.height,
                               field := V4L2_FIELD_NONE, colorspace := V4L2_COLORSPACE_RAW))
  }

  /** The default mode's descriptor: 4056x3040 SRGGB12, a line length of
      0x0172, a frame length of 0x0CB2 lines and a 576 MHz link. */
  lemma DefaultModeValues()
    ensures DefaultMode.width == 4056 && DefaultMode.height == 3040
    ensures DefaultMode.code == 0x3012
    ensures DefaultMode.hts == 0x0172 && DefaultMode.vts == 0x0CB2 && DefaultMode.linkFreq == 576_000_000
  {
  }

  /** The five values a format query reports. */
  function Reported(fmt: SubdevFormat): (int, int, int, int, int)
  {
    (fmt.format.width, fmt.format.height, fmt.format.code, fmt.format.field, fmt.format.colorspace)
  }

  /** Reporting the default mode gives 4056x3040 SRGGB12, progressive, raw
      colorspace, whatever the request held, and keeps the rest of the
      request; hts, vts and the link frequency are never reported. */
  lemma ReportDefault(fmt: SubdevFormat)
    ensures Reported(Report(DefaultMode, fmt)) == (4056, 3040, 0x3012, 1, 11)
    ensures var r := Report(DefaultMode, fmt);
      r.which == fmt.which && r.pad == fmt.pad
      && r.format.ycbcrEnc == fmt.format.ycbcrEnc && r.format.quantization == fmt.format.quantization
      && r.format.xferFunc == fmt.format.xferFunc && r.format.flags == fmt.format.flags
  {
  }

  /** What is reported does not depend on the request, and reporting again
      into a reported format changes nothing. */
  lemma ReportIgnoresRequest(mode: Mode, f1: SubdevFormat, f2: SubdevFormat)
    ensures Reported(Report(mode, f1)) == Reported(Report(mode, f2))
    ensures Report(mode, Report(mode, f1)) == Report(mode, f1)
  {
  }
}
