/** The bit-field logic of the IEEE-11073 16-bit SFLOAT and 32-bit FLOAT
    readers (ISO/IEEE 11073-20601, "SFLOAT-Type" and "FLOAT-Type"). The
    readers end by multiplying the mantissa by a power of ten in floating
    point; this model stops at the symbolic result before that step. */
module IEEE11073 {

  /** What a reader yields: one of the special values, or the number
      `mantissa * 10^exponent`. */
  datatype MedicalFloat = PosInf | NaN | NegInf | Finite(mantissa: int, exponent: int)

  // `DecoderSFloatValues`: the reserved 12-bit mantissa codes of SFLOAT.
  const SFloatPositiveInfinity := 0x07FE
  const SFloatNaN := 0x07FF
  const SFloatRes := 0x0800
  const SFloatReservedValue := 0x0801
  const SFloatNegativeInfinity := 0x0802

  // `DecoderFloatValues`: the reserved 24-bit mantissa codes of FLOAT.
  const FloatPositiveInfinity := 0x007F_FFFE
  const FloatNaN := 0x007F_FFFF
  const FloatRes := 0x0080_0000
  const FloatReservedValue := 0x0080_0001
  const FloatNegativeInfinity := 0x0080_0002

  /** `kReservedFloatValues`: the value of each reserved code, indexed by the
      code's distance from the positive-infinity code. */
  const ReservedFloatValues: seq<MedicalFloat> := [PosInf, NaN, NaN, NaN, NegInf]

  /** The signed reading of a `bits`-wide field, given `modulus = 2^bits`. */
  function TwosComplement(u: int, modulus: int): (v: int)
    requires 0 <= u < modulus && modulus % 2 == 0
    ensures -(modulus / 2) <= v < modulus / 2
    ensures v == u || v == u - modulus
  {
    if u >= modulus / 2 then u - modulus else u
  }

  // ---------------------------------------------------------------- SFLOAT

  /** `tmpValue & 0x0FFF` on the signed 16-bit `raw`: the low twelve bits. */
  function SFloatMantissaField(raw: int): (m: int)
    requires -0x8000 <= raw < 0x8000
    ensures 0 <= m <= 0x0FFF
    ensures (raw - m) % 0x1000 == 0
  {
    raw % 0x1000
  }

  /** `tmpValue >> 12` on the signed 16-bit `raw`: an arithmetic shift, so the
      top four bits come out already sign-extended. */
  function SFloatExponentField(raw: int): (e: int)
    requires -0x8000 <= raw < 0x8000
    ensures -8 <= e <= 7
    ensures raw == e * 0x1000 + SFloatMantissaField(raw)
  {
    raw / 0x1000
  }

  /** `DecodeData.decodeSFloatValueIfPresent` after its read: it also applies
      `exponent >= 0x0008` as a sign fix, and takes a mantissa above 0x0800
      as negative. */
  function SFloatOfDecodeData(raw: int): (r: MedicalFloat)
    requires -0x8000 <= raw < 0x8000
    ensures r == SFloatReference(raw % 0x1_0000)
  {
    var mantissa := SFloatMantissaField(raw);
    var shifted := SFloatExponentField(raw);
    var exponent := if shifted >= 0x0008 then -((0x000F + 1) - shifted) else shifted;
    SFloatMatchesReference(raw);
    if SFloatPositiveInfinity <= mantissa <= SFloatNegativeInfinity then
      ReservedFloatValues[mantissa - SFloatPositiveInfinity]
    else if mantissa > 0x0800 then
      Finite(-((0x0FFF + 1) - mantissa), exponent)
    else
      Finite(mantissa, exponent)
  }

  /** `DataDecoder.decodeSFloatValue` after its read: no exponent fix, and a
      mantissa at or above 0x0800 taken as negative. */
  function SFloatOfDataDecoder(raw: int): (r: MedicalFloat)
    requires -0x8000 <= raw < 0x8000
    ensures r == SFloatReference(raw % 0x1_0000)
  {
    var mantissa := SFloatMantissaField(raw);
    var exponent := SFloatExponentField(raw);
    SFloatMatchesReference(raw);
    if SFloatPositiveInfinity <= mantissa <= SFloatNegativeInfinity then
      ReservedFloatValues[mantissa - SFloatPositiveInfinity]
    else if mantissa >= 0x0800 then
      Finite(-((0x0FFF + 1) - mantissa), exponent)
    else
      Finite(mantissa, exponent)
  }

  /** SFLOAT read field by field from the unsigned 16-bit pattern `bits`: a
      four-bit two's-complement exponent over a twelve-bit two's-complement
      mantissa, where the five reserved mantissa codes stand for +inf, NaN
      (three codes) and -inf whatever the exponent. */
  function SFloatReference(bits: int): (r: MedicalFloat)
    requires 0 <= bits < 0x1_0000
    ensures r.Finite? ==> -2045 <= r.mantissa <= 2045 && -8 <= r.exponent <= 7
    ensures bits % 0x1000 == SFloatPositiveInfinity <==> r == PosInf
    ensures bits % 0x1000 == SFloatNegativeInfinity <==> r == NegInf
    ensures SFloatNaN <= bits % 0x1000 <= SFloatReservedValue <==> r == NaN
  {
    var m := bits % 0x1000;
    if m == SFloatPositiveInfinity then PosInf
    else if m == SFloatNegativeInfinity then NegInf
    else if SFloatNaN <= m <= SFloatReservedValue then NaN
    else Finite(TwosComplement(m, 0x1000), TwosComplement(bits / 0x1000, 0x10))
  }

  /** The shift and mask of the signed `raw` pick the same fields as the
      unsigned pattern, with the exponent already signed; so the exponent fix
      of `DecodeData` never fires, and the strict and non-strict sign tests
      disagree only on 0x0800, a reserved code. */
  lemma SFloatMatchesReference(raw: int)
    requires -0x8000 <= raw < 0x8000
    ensures SFloatMantissaField(raw) == (raw % 0x1_0000) % 0x1000
    ensures SFloatExponentField(raw) == TwosComplement((raw % 0x1_0000) / 0x1000, 0x10)
    ensures SFloatExponentField(raw) < 0x0008
  {
    var bits := raw % 0x1_0000;
    var e := raw / 0x1000;
    var m := raw % 0x1000;
    assert raw == e * 0x1000 + m;
    if raw < 0 {
      assert bits == raw + 0x1_0000;
      assert bits == (e + 16) * 0x1000 + m;
    } else {
      assert bits == raw;
    }
  }

  /** The two readers' bit-field logic agree on every 16-bit input. */
  lemma SFloatVariantsAgree(raw: int)
    requires -0x8000 <= raw < 0x8000
    ensures SFloatOfDecodeData(raw) == SFloatOfDataDecoder(raw)
  {
  }

  // ----------------------------------------------------------------- FLOAT

  /** `tmpValue & 0x00FFFFFF` on the signed 32-bit `raw`. */
  function FloatMantissaField(raw: int): (m: int)
    requires -0x8000_0000 <= raw < 0x8000_0000
    ensures 0 <= m <= 0xFF_FFFF
    ensures (raw - m) % 0x100_0000 == 0
  {
    raw % 0x100_0000
  }

  /** `Int8(tmpValue >> 24)`: the signed top byte. */
  function FloatExponentField(raw: int): (e: int)
    requires -0x8000_0000 <= raw < 0x8000_0000
    ensures -128 <= e <= 127
    ensures raw == e * 0x100_0000 + FloatMantissaField(raw)
  {
    raw / 0x100_0000
  }

  /** The FLOAT bit-field logic shared, word for word, by both readers. */
  function FloatOfBits(raw: int): (r: MedicalFloat)
    requires -0x8000_0000 <= raw < 0x8000_0000
    ensures r == FloatReference(raw % 0x1_0000_0000)
  {
    var mantissa := FloatMantissaField(raw);
    var exponent := FloatExponentField(raw);
    FloatMatchesReference(raw);
    if FloatPositiveInfinity <= mantissa <= FloatNegativeInfinity then
      ReservedFloatValues[mantissa - FloatPositiveInfinity]
    else if mantissa >= 0x80_0000 then
      Finite(-((0xFF_FFFF + 1) - mantissa), exponent)
    else
      Finite(mantissa, exponent)
  }

  /** FLOAT read field by field from the unsigned 32-bit pattern `bits`: an
      eight-bit two's-complement exponent over a 24-bit two's-complement
      mantissa, with the five reserved mantissa codes. */
  function FloatReference(bits: int): (r: MedicalFloat)
    requires 0 <= bits < 0x1_0000_0000
    ensures r.Finite? ==> -0x7F_FFFD <= r.mantissa <= 0x7F_FFFD && -128 <= r.exponent <= 127
    ensures bits % 0x100_0000 == FloatPositiveInfinity <==> r == PosInf
    ensures bits % 0x100_0000 == FloatNegativeInfinity <==> r == NegInf
    ensures FloatNaN <= bits % 0x100_0000 <= FloatReservedValue <==> r == NaN
  {
    var m := bits % 0x100_0000;
    if m == FloatPositiveInfinity then PosInf
    else if m == FloatNegativeInfinity then NegInf
    else if FloatNaN <= m <= FloatReservedValue then NaN
    else Finite(TwosComplement(m, 0x100_0000), TwosComplement(bits / 0x100_0000, 0x100))
  }

  lemma FloatMatchesReference(raw: int)
    requires -0x8000_0000 <= raw < 0x8000_0000
    ensures FloatMantissaField(raw) == (raw % 0x1_0000_0000) % 0x100_0000
    ensures FloatExponentField(raw) == TwosComplement((raw % 0x1_0000_0000) / 0x100_0000, 0x100)
  {
    var bits := raw % 0x1_0000_0000;
    var e := raw / 0x100_0000;
    var m := raw % 0x100_0000;
    assert raw == e * 0x100_0000 + m;
    if raw < 0 {
      assert bits == raw + 0x1_0000_0000;
      assert bits == (e + 256) * 0x100_0000 + m;
    } else {
      assert bits == raw;
    }
  }
}
