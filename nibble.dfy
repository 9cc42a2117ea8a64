/** `Nibble`: the two four-bit halves of one byte. */
module Nibbles {
  /** The constructor is `init(lower:upper:)`: it stores both fields as
      given, so either may exceed 15. */
  datatype Nibble = Nibble(lower: bv8, upper: bv8) {

    /** `uint8Value`: `(upper << 4) | lower`, computed in eight bits, so the
        high four bits of `upper` are shifted out and the high four bits of
        `lower` are OR-ed into the upper half. */
    function Uint8Value(): (v: bv8)
      ensures v & 0x0F == lower & 0x0F
      ensures v >> 4 == (upper & 0x0F) | (lower >> 4)
      ensures lower <= 15 && upper <= 15 ==> v as int == 16 * upper as int + lower as int
    {
      (upper << 4) | lower
    }
  }

  /** `init(_:)`: the low four bits go to `lower`, the high four to `upper`. */
  function FromByte(value: bv8): (n: Nibble)
    ensures n.lower <= 15 && n.upper <= 15
    ensures value as int == 16 * n.upper as int + n.lower as int
    ensures n.Uint8Value() == value
  {
    Nibble(value & 0x0F, (value >> 4) & 0x0F)
  }

  /** Splitting a nibble pair's byte gives the pair back, when both halves
      fit in four bits. */
  lemma PartsRoundTrip(lower: bv8, upper: bv8)
    requires lower <= 15 && upper <= 15
    ensures FromByte(Nibble(lower, upper).Uint8Value()) == Nibble(lower, upper)
  {
  }

  /** The high bits of `upper` never reach the byte. */
  lemma Uint8ValueDropsHighBitsOfUpper(lower: bv8, upper: bv8)
    ensures Nibble(lower, upper).Uint8Value() == Nibble(lower, upper & 0x0F).Uint8Value()
  {
  }

  /** `==`: both halves agree. */
  function Equal(a: Nibble, b: Nibble): (r: bool)
    ensures r <==> a == b
  {
    a.upper == b.upper && a.lower == b.lower
  }

  /** `UInt8.nibbleValue`: the byte as a nibble pair. */
  function NibbleValue(b: bv8): (n: Nibble)
    ensures n.lower <= 15 && n.upper <= 15
    ensures n.Uint8Value() == b
  {
    FromByte(b)
  }
}
