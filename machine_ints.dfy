/** Fixed-width integers of the firmware, as subset types of `int`.
    Every operation that could leave a range in the firmware is written out
    where it is used (a `% 65536` for a cast, a bound proved for an add). */
module MachineInts {

  type u8 = x: int | 0 <= x < 0x100
  type u16 = x: int | 0 <= x < 0x1_0000
  type u32 = x: int | 0 <= x < 0x1_0000_0000
  type i16 = x: int | -0x8000 <= x < 0x8000

  /** `x as i16`: the same 16 bits read as two's complement. */
  function AsI16(x: u16): i16
  {
    if x < 0x8000 then x else x - 0x1_0000
  }

  /** A 16-bit two's complement add that wraps instead of panicking. */
  function WrapI16(x: int): i16
  {
    (x + 0x8000) % 0x1_0000 - 0x8000
  }

  /** `x as u16`. */
  function AsU16(x: i16): u16
  {
    x % 0x1_0000
  }

  /** `((x as i16) + d) as u16`, the servo update of the PCA9685 examples, is
      addition modulo 2^16. */
  function AddSigned(x: u16, d: i16): (r: u16)
    ensures r == (x + d) % 0x1_0000
  {
    AsU16(WrapI16(AsI16(x) + d))
  }

  /** The `>> 5` the display examples apply to an ADS1115 reading (an `i16`):
      an arithmetic shift, i.e. division by 32 rounded towards minus infinity. */
  function ShiftRight5(v: i16): (r: i16)
    ensures 32 * r <= v < 32 * r + 32
    ensures -1024 <= r <= 1023
    ensures v >= 0 ==> r >= 0
  {
    v / 32
  }

  /** An `f32` sensor value (a temperature or a humidity), kept as its bit
      pattern: the firmware only stores, forwards and prints these. */
  datatype F32 = F32(bits: bv32)

  /** `0.0_f32`. */
  const ZeroF32 := F32(0)
}
