/** The two runtime controls, their declared ranges, and how a control
    value is split into the bytes of its high and low register. */
module Controls {
  import opened Registers

  /** The control a request is for. `OtherControl` stands for any id the
      control handler might pass that is neither of the two registered. */
  datatype Control = Exposure | AnalogueGain | OtherControl(id: int)

  const GAIN_MIN: int := 0
  const GAIN_MAX: int := 0x7A5
  const GAIN_DEFAULT: int := 0
  const EXPOSURE_MIN: int := 1
  const EXPOSURE_MAX: int := 0xFFFF
  const EXPOSURE_DEFAULT: int := 0x03E8

  /** The range the control was registered with; the control framework
      refuses or clamps values outside it before the driver sees them. A
      value in range fits the 16 bits of its register pair. */
  predicate InRange(c: Control, v: I32): (ok: bool)
    ensures ok && !c.OtherControl? ==> 0 <= v < 0x1_0000
  {
    match c
    case Exposure => EXPOSURE_MIN <= v <= EXPOSURE_MAX
    case AnalogueGain => GAIN_MIN <= v <= GAIN_MAX
    case OtherControl(_) => true
  }

  // For a non-negative value, `v >> 8` is `v / 0x100` and `v & m`, with
  // `m + 1` a power of two, is `v % (m + 1)`.

  /** `(v >> 8) & 0xFF`: the byte written to the exposure high register,
      which is the high byte of the low 16 bits of `v`. */
  function ExposureHigh(v: nat): (hi: Byte)
    ensures hi == (v % 0x1_0000) / 0x100
  {
    var q := v / 0x100;
    var hi := q % 0x100;
    assert v == q * 0x100 + v % 0x100;
    assert q == (q / 0x100) * 0x100 + hi;
    assert v == (q / 0x100) * 0x1_0000 + (hi * 0x100 + v % 0x100);
    assert v % 0x1_0000 == hi * 0x100 + v % 0x100;
    hi
  }

  /** `(v >> 8) & 0x07`: the byte written to the gain high register: bits
      8 to 10 of `v`, the high part of its low 11 bits. */
  function GainHigh(v: nat): (hi: Byte)
    ensures hi < 0x8 && hi == (v % 0x800) / 0x100
  {
    var q := v / 0x100;
    var hi := q % 0x8;
    assert v == q * 0x100 + v % 0x100;
    assert q == (q / 0x8) * 0x8 + hi;
    assert v == (q / 0x8) * 0x800 + (hi * 0x100 + v % 0x100);
    assert v % 0x800 == hi * 0x100 + v % 0x100;
    hi
  }

  /** `v & 0xFF`: the byte written to either low register; it differs from
      `v` by a multiple of 0x100. */
  function LowByte(v: nat): (lo: Byte)
    ensures (v - lo) % 0x100 == 0
  {
    v % 0x100
  }

  /** The exposure bytes recombine, high byte first, to the 16 bits the
      masks keep. */
  lemma ExposureSplit(v: nat)
    ensures ExposureHigh(v) * 0x100 + LowByte(v) == v % 0x1_0000
  {
    var q := v / 0x100;
    assert v == q * 0x100 + LowByte(v);
    assert q == (q / 0x100) * 0x100 + ExposureHigh(v);
    assert v == (q / 0x100) * 0x1_0000 + (ExposureHigh(v) * 0x100 + LowByte(v));
  }

  /** The gain bytes recombine, high byte first, to the 11 bits the masks
      keep. */
  lemma GainSplit(v: nat)
    ensures GainHigh(v) * 0x100 + LowByte(v) == v % 0x800
  {
    var q := v / 0x100;
    assert v == q * 0x100 + LowByte(v);
    assert q == (q / 0x8) * 0x8 + GainHigh(v);
    assert v == (q / 0x8) * 0x800 + (GainHigh(v) * 0x100 + LowByte(v));
  }

  /** Within the declared ranges the masks drop nothing: the two bytes
      written are exactly the control value. */
  lemma SplitLosesNothingInRange(c: Control, v: I32)
    requires InRange(c, v) && !c.OtherControl?
    ensures c.Exposure? ==> ExposureHigh(v) * 0x100 + LowByte(v) == v
    ensures c.AnalogueGain? ==> GainHigh(v) * 0x100 + LowByte(v) == v && GainHigh(v) <= 0x7
  {
    if c.Exposure? {
      ExposureSplit(v);
    } else {
      GainSplit(v);
    }
  }
}
