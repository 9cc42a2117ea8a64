/** What the byte-by-byte readers of both decoders compute from the bytes
    they take: the 24- and 48-bit integers, the dotted-decimal IPv4 address
    and the MAC address. Both `DecodeData` and `DataDecoder` repeat this logic
    word for word; here it is defined once, as functions of the bytes read. */
module Readers {
  import opened DataExtension
  import opened TextFormat
  import opened MACAddresses

  /** `(c << 16) | (b << 8) | a` on 32-bit words holding bytes: the shifted
      bytes cover disjoint bits, so the `|` adds them. */
  lemma OrOfShiftedBytes24(a: bv32, b: bv32, c: bv32)
    requires a < 0x100 && b < 0x100 && c < 0x100
    ensures (c << 16) | (b << 8) | a == c * 0x1_0000 + b * 0x100 + a
  {
  }

  /** The same for the six `|=` steps of the 48-bit reader on 64-bit words. */
  lemma OrOfShiftedBytes48(v0: bv64, v1: bv64, v2: bv64, v3: bv64, v4: bv64, v5: bv64)
    requires v0 < 0x100 && v1 < 0x100 && v2 < 0x100 && v3 < 0x100 && v4 < 0x100 && v5 < 0x100
    ensures v0 | (v1 << 8) | (v2 << 16) | (v3 << 24) | (v4 << 32) | (v5 << 40)
         == v0 + v1 * 0x100 + v2 * 0x1_0000 + v3 * 0x100_0000 + v4 * 0x1_0000_0000 + v5 * 0x100_0000_0000
  {
  }

  lemma LittleEndian3(v: seq<byte>)
    requires |v| == 3
    ensures LittleEndian(v) == (v[0] as int) + 0x100 * (v[1] as int) + 0x1_0000 * (v[2] as int)
  {
    var t1 := v[1..];
    var t2 := t1[1..];
    assert t2[1..] == [];
    assert LittleEndian(t2) == t2[0];
    assert LittleEndian(t1) == (t1[0] as int) + 256 * (t2[0] as int);
  }

  lemma LittleEndian6(v: seq<byte>)
    requires |v| == 6
    ensures LittleEndian(v) == (v[0] as int) + 0x100 * (v[1] as int) + 0x1_0000 * (v[2] as int) + 0x100_0000 * (v[3] as int)
                               + 0x1_0000_0000 * (v[4] as int) + 0x100_0000_0000 * (v[5] as int)
  {
    var w := v[3..];
    assert v == v[..3] + w;
    LittleEndianAppend(v[..3], w);
    LittleEndian3(v[..3]);
    LittleEndian3(w);
    assert Pow256(3) == 0x100_0000;
  }

  /** `decodeUInt24`: the three bytes as an unsigned little-endian number. */
  function UInt24Value(v: seq<byte>): (r: int)
    requires |v| == 3
    ensures r == LittleEndian(v)
    ensures 0 <= r < 0x100_0000
  {
    LittleEndian3(v);
    (v[2] as int) * 0x1_0000 + (v[1] as int) * 0x100 + (v[0] as int)
  }

  /** `val2 & 0x80` on a byte: the sign bit of the top byte, in place. */
  function SignBit(b: byte): (r: int)
    ensures r == 0 || r == 0x80
    ensures r == 0x80 <==> b >= 0x80
  {
    ((b as bv8) & 0x80) as int
  }

  /** `decodeInt24` as written: the sign test compares `val2 & 0x80`, which
      is 0 or 0x80, with 1, so its sign-extending branch is never taken and
      the result is the unsigned value. */
  function Int24AsWritten(v: seq<byte>): (r: int)
    requires |v| == 3
    ensures r == UInt24Value(v)
  {
    var val0, val1, val2 := v[0] as int, v[1] as int, v[2] as int;
    if SignBit(v[2]) == 1 then
      val0 + val1 * 0x100 + val2 * 0x1_0000 + 0xFF * 0x100_0000
    else
      UInt24Value(v)
  }

  /** The sign test of `decodeInt24` fails on every byte. */
  lemma Int24SignTestNeverHolds(b: byte)
    ensures SignBit(b) != 1
  {
  }

  /** The evidently intended `decodeInt24`: the three bytes as a 24-bit
      two's-complement number. */
  function Int24Value(v: seq<byte>): (r: int)
    requires |v| == 3
    ensures -0x80_0000 <= r < 0x80_0000
    ensures (r - UInt24Value(v)) % 0x100_0000 == 0
    ensures r < 0 <==> SignBit(v[2]) == 0x80
  {
    var u := UInt24Value(v);
    if SignBit(v[2]) == 0x80 then u - 0x100_0000 else u
  }

  /** Every 24-bit two's-complement number is read back from its three
      little-endian bytes. */
  lemma Int24ValueRoundTrip(x: int)
    requires -0x80_0000 <= x < 0x80_0000
    ensures Int24Value(LittleEndianBytes(x % 0x100_0000, 3)) == x
  {
    var u := x % 0x100_0000;
    assert Pow256(3) == 0x100_0000;
    var v := LittleEndianBytes(u, 3);
    LittleEndianOfBytes(u, 3);
    assert UInt24Value(v) == u;
    assert (v[2] as int) == u / 0x1_0000 by {
      LittleEndian3(v);
    }
  }

  /** The bytes 00 00 80 hold -8388608 as a 24-bit two's-complement number;
      `decodeInt24` as written returns 8388608 for them. */
  lemma Int24SignBitIgnored()
    ensures Int24AsWritten([0, 0, 0x80]) == 0x80_0000
    ensures Int24Value([0, 0, 0x80]) == -0x80_0000
  {
  }

  /** `decodeUInt48`: the six bytes as an unsigned little-endian number,
      always below 2^48. */
  function UInt48Value(v: seq<byte>): (r: int)
    requires |v| == 6
    ensures r == LittleEndian(v)
    ensures 0 <= r < 0x1_0000_0000_0000
  {
    LittleEndian6(v);
    (v[0] as int) + (v[1] as int) * 0x100 + (v[2] as int) * 0x1_0000 + (v[3] as int) * 0x100_0000 + (v[4] as int) * 0x1_0000_0000 + (v[5] as int) * 0x100_0000_0000
  }

  /** The bytes in the order they are printed: reversed when the value was
      sent least significant byte first. */
  function InPrintOrder(v: seq<byte>, fromLittleEndian: bool): (r: seq<byte>)
    ensures |r| == |v|
    ensures forall i :: 0 <= i < |v| ==> r[i] == if fromLittleEndian then v[|v| - 1 - i] else v[i]
  {
    if fromLittleEndian then seq(|v|, i requires 0 <= i < |v| => v[|v| - 1 - i]) else v
  }

  /** Printing order undone: reversing twice gives the bytes back. */
  lemma InPrintOrderInvolution(v: seq<byte>, fromLittleEndian: bool)
    ensures InPrintOrder(InPrintOrder(v, fromLittleEndian), fromLittleEndian) == v
  {
  }

  /** `decodeIPAddress` after its four reads: `%d.%d.%d.%d` of the bytes in
      printing order. Reading the text back gives those bytes. */
  function IPAddressText(v: seq<byte>, fromLittleEndian: bool): (s: string)
    requires |v| == 4
    ensures 7 <= |s| <= 15
    ensures var p := InPrintOrder(v, fromLittleEndian);
            Split(s, '.') == [Decimal(p[0]), Decimal(p[1]), Decimal(p[2]), Decimal(p[3])]
    ensures var p := InPrintOrder(v, fromLittleEndian);
            ParseDottedDecimal(s) == [p[0], p[1], p[2], p[3]]
  {
    var p := InPrintOrder(v, fromLittleEndian);
    DottedDecimalSplit(p[0], p[1], p[2], p[3]);
    DottedDecimalRoundTrip(p[0], p[1], p[2], p[3]);
    DottedDecimal(p[0], p[1], p[2], p[3])
  }

  /** `decodeMACAddress` after its six reads: the `%02X:...` text of the bytes
      in printing order, wrapped by `MACAddress(string:)`. The text is
      canonical and reads back as those bytes. */
  function MACAddressValue(v: seq<byte>, fromLittleEndian: bool): (m: MACAddress)
    requires |v| == 6
    ensures IsMACString(m.stringValue)
    ensures ParseHexColon(m.stringValue) == InPrintOrder(v, fromLittleEndian)
  {
    var p := InPrintOrder(v, fromLittleEndian);
    UppercaseOfMACString(HexColon(p));
    HexColonRoundTrip(p);
    FromString(HexColon(p))
  }

  /** The reader's address and `MACAddress(data:)` agree: both print the
      bytes in the order given. */
  lemma MACAddressValueIsFromData(v: seq<byte>)
    requires |v| == 6
    ensures MACAddressValue(v, false) == FromData(v)
  {
  }
}
