/** The sensor's register transport: 16-bit register addresses, 8-bit
    values, the byte frames they travel in, and the mapping from what the
    transport reports to the driver's status code. */
module Registers {

  /** One byte on the two-wire bus (a C `u8`). */
  type Byte = x: int | 0 <= x < 0x100

  /** A register address (a C `u16`). */
  type U16 = x: int | 0 <= x < 0x1_0000

  /** A C `int`: what the transport returns and what every driver entry
      point returns (0, or a negative errno). */
  type I32 = x: int | -0x8000_0000 <= x < 0x8000_0000

  /** Linux errno for an I/O error; the driver returns its negation. */
  const EIO: int := 5

  // The register map of the sensor.
  const STANDBY: U16 := 0x3000
  const MODE_SELECT: U16 := 0x0100
  const GAIN_H: U16 := 0x3009
  const GAIN_L: U16 := 0x300A
  const EXPOSURE_H: U16 := 0x300B
  const EXPOSURE_L: U16 := 0x300C
  const VMAX_H: U16 := 0x30F7
  const VMAX_L: U16 := 0x30F8
  const HMAX_H: U16 := 0x30F5
  const HMAX_L: U16 := 0x30F6

  /** The big-endian register address of a frame: its first two bytes. */
  function AddressOf(frame: seq<Byte>): (reg: U16)
    requires |frame| >= 2
    ensures reg / 0x100 == frame[0] && reg % 0x100 == frame[1]
  {
    frame[0] as int * 0x100 + frame[1] as int
  }

  /** The two address bytes that start every register access:
      `{ reg >> 8, reg & 0xff }`, most significant byte first. */
  function AddressFrame(reg: U16): (frame: seq<Byte>)
    ensures |frame| == 2 && AddressOf(frame) == reg
  {
    [reg / 0x100, reg % 0x100]
  }

  /** The three bytes of a register write: the address, then the value. */
  function WriteFrame(reg: U16, val: Byte): (frame: seq<Byte>)
    ensures |frame| == 3 && AddressOf(frame) == reg && frame[2] == val
    ensures frame[..2] == AddressFrame(reg)
  {
    AddressFrame(reg) + [val]
  }

  /** The bytes of a write, spelled out. */
  lemma WriteFrameBytes(reg: U16, val: Byte)
    ensures WriteFrame(reg, val) == [reg / 0x100, reg % 0x100, val]
    ensures AddressFrame(reg) == [reg / 0x100, reg % 0x100]
  {
  }

  /** Decoding the address of a frame and encoding it again gives back the
      frame's first two bytes, so no two addresses share a frame. */
  lemma AddressFrameRoundTrip(frame: seq<Byte>)
    requires |frame| >= 2
    ensures AddressFrame(AddressOf(frame)) == frame[..2]
  {
  }

  /** Different writes put different bytes on the bus. */
  lemma WriteFrameInjective(reg1: U16, val1: Byte, reg2: U16, val2: Byte)
    requires WriteFrame(reg1, val1) == WriteFrame(reg2, val2)
    ensures reg1 == reg2 && val1 == val2
  {
    assert AddressOf(WriteFrame(reg1, val1)) == reg1;
    assert WriteFrame(reg1, val1)[2] == val1;
  }

  /** The status a register access returns, given the count the transport
      reported and the count a complete transaction has (3 bytes for a
      write, 2 messages for a read): success only for exactly that count,
      a negative transport status unchanged, any other count `-EIO`. */
  function TransferStatus(count: I32, expected: nat): (r: I32)
    requires expected > 0
    ensures r <= 0
    ensures r == 0 <==> count == expected
    ensures count < 0 ==> r == count
    ensures 0 <= count && count != expected ==> r == -EIO
  {
    if count == expected then 0 else if count < 0 then count else -EIO
  }
}
