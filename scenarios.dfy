/** Concrete reads on fixed buffers: the sensor example of the package's
    tests, and one buffer per kind of field. */
module Scenarios {
  import opened DataExtension
  import Nibbles
  import opened MACAddresses
  import opened IEEE11073
  import opened TextFormat
  import opened Readers
  import opened Decoder
  import opened DataDecoders

  /** The buffer of the sensor example. */
  const SensorData: seq<byte> := [0x02, 0xFE, 0xFF, 0xEF, 0xBE, 0xAD, 0xDE, 0xA5]

  /** The sensor example: one byte, a 16-bit and a 32-bit number, then a
      nibble byte, then a nibble read from the exhausted buffer. */
  method SensorExample() returns (height: int, weight: int, beef: int, nib: Nibbles.Nibble, novalue: Nibbles.Nibble)
    ensures height == 2
    ensures weight == 0xFFFF - 1
    ensures beef == 3735928559
    ensures nib.lower == 5 && nib.upper == 10
    ensures novalue.Uint8Value() == 0
  {
    var decoder := new DataDecoder(SensorData, 0);
    height := decoder.DecodeUInt8();
    SensorHeight(height, decoder.index);
    weight := decoder.DecodeUInt16();
    SensorWeight(weight, decoder.index);
    beef := decoder.DecodeUInt32();
    SensorBeef(beef, decoder.index);
    nib, novalue := SensorNibbles(decoder);
  }

  /** The rest of the sensor example, from the last byte on. */
  method SensorNibbles(decoder: DataDecoder) returns (nib: Nibbles.Nibble, novalue: Nibbles.Nibble)
    requires decoder.decode == SensorData && decoder.index == 7
    modifies decoder
    ensures nib.lower == 5 && nib.upper == 10
    ensures novalue.Uint8Value() == 0
  {
    nib := decoder.DecodeNibble();
    NibblesOfA5(SensorData[7]);
    novalue := decoder.DecodeNibble();
  }

  lemma SensorHeight(v: int, index: nat)
    requires ReadsAsOrZero(SensorData, 0, UInt8, v, index)
    ensures v == 2 && index == 1
  {
    assert SensorData[0..1] == [0x02];
  }

  lemma SensorWeight(v: int, index: nat)
    requires ReadsAsOrZero(SensorData, 1, UInt16, v, index)
    ensures v == 0xFFFE && index == 3
  {
    assert SensorData[1..3] == [0xFE, 0xFF];
    assert LittleEndian([0xFE, 0xFF]) == 0xFE + 256 * LittleEndian([0xFF]);
  }

  lemma SensorBeef(v: int, index: nat)
    requires ReadsAsOrZero(SensorData, 3, UInt32, v, index)
    ensures v == 0xDEADBEEF && index == 7
  {
    var w := SensorData[3..7];
    assert w == [0xEF, 0xBE, 0xAD, 0xDE];
    assert w[1..] == [0xBE, 0xAD, 0xDE];
    assert w[1..][1..] == [0xAD, 0xDE];
    assert LittleEndian([0xAD, 0xDE]) == 0xDEAD by {
      assert LittleEndian([0xDE]) == 0xDE;
    }
    assert LittleEndian([0xBE, 0xAD, 0xDE]) == 0xDEADBE;
  }

  lemma NibblesOfA5(b: byte)
    requires b == 0xA5
    ensures Nibbles.FromByte(b as bv8) == Nibbles.Nibble(5, 10)
  {
  }

  /** The address AD A5 EE B2, sent most significant byte first. */
  method IPAddressExample() returns (s: string)
    ensures s == "173.165.238.178"
  {
    var data: seq<byte> := [0xAD, 0xA5, 0xEE, 0xB2];
    var decoder := new DecodeData(0);
    s := decoder.DecodeIPAddress(data, false);
    assert Padded(data, 0, 4) == data;
    assert s == DottedDecimal(173, 165, 238, 178);
    DottedDecimalExample();
  }

  /** The same address sent least significant byte first. */
  method IPAddressLittleEndianExample() returns (s: string)
    ensures s == "173.165.238.178"
  {
    var data: seq<byte> := [0xB2, 0xEE, 0xA5, 0xAD];
    var decoder := new DataDecoder(data, 0);
    s := decoder.DecodeIPAddress(true);
    assert Padded(data, 0, 4) == data;
    assert InPrintOrder(data, true) == [0xAD, 0xA5, 0xEE, 0xB2];
    assert s == DottedDecimal(173, 165, 238, 178);
    DottedDecimalExample();
  }

  lemma ThreeDigits(n: nat)
    requires 100 <= n < 1000
    ensures Decimal(n) == [DecimalDigit(n / 100), DecimalDigit(n / 10 % 10), DecimalDigit(n % 10)]
  {
    assert Decimal(n / 10) == Decimal(n / 100) + [DecimalDigit(n / 10 % 10)];
  }

  lemma DecimalExamples()
    ensures Decimal(173) == "173" && Decimal(165) == "165"
    ensures Decimal(238) == "238" && Decimal(178) == "178"
  {
    ThreeDigits(173);
    ThreeDigits(165);
    ThreeDigits(238);
    ThreeDigits(178);
  }

  lemma DottedDecimalExample()
    ensures DottedDecimal(173, 165, 238, 178) == "173.165.238.178"
  {
    DecimalExamples();
    assert DottedDecimal(173, 165, 238, 178) == "173" + "." + "165" + "." + "238" + "." + "178";
  }

  method MACAddressExample() returns (m: MACAddress)
    ensures m.stringValue == "00:50:C2:34:F7:11"
  {
    var data: seq<byte> := [0x00, 0x50, 0xC2, 0x34, 0xF7, 0x11];
    var decoder := new DecodeData(0);
    m := decoder.DecodeMACAddress(data, false);
    assert Padded(data, 0, 6) == data;
    assert m.stringValue == HexColon(data);
    HexColonExample(data);
  }

  lemma HexColonExample(data: seq<byte>)
    requires data == [0x00, 0x50, 0xC2, 0x34, 0xF7, 0x11]
    ensures HexColon(data) == "00:50:C2:34:F7:11"
  {
    assert Hex2(0x00) == "00" && Hex2(0x50) == "50" && Hex2(0xC2) == "C2";
    assert Hex2(0x34) == "34" && Hex2(0xF7) == "F7" && Hex2(0x11) == "11";
  }

  /** Three 0xFF bytes: the largest 24-bit number, both from the unsigned
      reader and from the signed one as written. */
  method UInt24Example() returns (u: int, s: int)
    ensures u == 0xFF_FFFF && s == 0xFF_FFFF
  {
    var data: seq<byte> := [0xFF, 0xFF, 0xFF];
    var decoder := new DecodeData(0);
    u := decoder.DecodeUInt24(data);
    var again := new DataDecoder(data, 0);
    s := again.DecodeInt24();
    assert Padded(data, 0, 3) == data;
  }

  /** Six 0xFF bytes: the largest 48-bit number. */
  method UInt48Example() returns (v: int)
    ensures v == 0xFFFF_FFFF_FFFF
  {
    var data: seq<byte> := [0xFF, 0xFF, 0xFF, 0xFF, 0xFF, 0xFF];
    var decoder := new DataDecoder(data, 0);
    v := decoder.DecodeUInt48();
    assert Padded(data, 0, 6) == data;
  }

  /** Two bytes of a 24-bit number: the missing top byte reads as 0 and the
      position stops at the end of the buffer. */
  method UInt24ShortExample() returns (v: int, index: nat)
    ensures v == 0x0201 && index == 2
  {
    var data: seq<byte> := [0x01, 0x02];
    var decoder := new DataDecoder(data, 0);
    v := decoder.DecodeUInt24();
    index := decoder.index;
    assert Padded(data, 0, 3) == [0x01, 0x02, 0];
  }

  /** The SFLOAT codes 0x07FE and 0x0802 are +inf and -inf, whatever the
      exponent; a one-byte buffer has no SFLOAT and reads as 0. */
  method SFloatExamples() returns (pos: MedicalFloat, neg: MedicalFloat, missing: Option<MedicalFloat>, zero: MedicalFloat)
    ensures pos == PosInf && neg == NegInf
    ensures missing == None && zero == Finite(0, 0)
  {
    var data: seq<byte> := [0xFE, 0x07, 0x02, 0x38, 0x01];
    var decoder := new DecodeData(0);
    pos := decoder.DecodeSFloatValue(data);
    assert data[0..2] == [0xFE, 0x07];
    neg := decoder.DecodeSFloatValue(data);
    assert data[2..4] == [0x02, 0x38];
    missing := decoder.DecodeSFloatValueIfPresent(data);
    var short := new DataDecoder([0x01], 0);
    zero := short.DecodeSFloatValue();
  }

  /** The SFLOAT 0xFF72 is -142 * 10^-1: the exponent field 0xF is -1 and
      the mantissa field 0xF72 is -142 in twelve-bit two's complement. */
  method SFloatFiniteExample() returns (f: MedicalFloat)
    ensures f == Finite(-142, -1)
  {
    var data: seq<byte> := [0x72, 0xFF];
    var decoder := new DataDecoder(data, 0);
    f := decoder.DecodeSFloatValue();
    assert data[0..2] == [0x72, 0xFF];
  }

  /** The signed 24-bit bytes 00 00 80 are read as 8388608, not -8388608. */
  method Int24Example() returns (v: int)
    ensures v == 0x80_0000
  {
    var data: seq<byte> := [0x00, 0x00, 0x80];
    var decoder := new DecodeData(0);
    v := decoder.DecodeInt24(data);
    assert Padded(data, 0, 3) == data;
  }
}
