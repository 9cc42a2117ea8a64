/** `DataDecoder`: a buffer together with a read position into it. Each read
    takes its bytes at the position and moves it past them; a read that runs
    past the end yields a zero value instead. There are no `...IfPresent`
    readers here. */
module DataDecoders {
  import opened DataExtension
  import Nibbles
  import ANTToggle
  import opened MACAddresses
  import opened IEEE11073
  import opened Readers

  class DataDecoder {
    /** The buffer being read; no reader changes it. */
    const decode: seq<byte>
    /** The position of the next byte to read. */
    var index: nat

    constructor(value: seq<byte>, startIndex: nat)
      ensures decode == value && index == startIndex
    {
      decode := value;
      index := startIndex;
    }

    /** `decodeData(length:)`: `length` one-byte reads with no check of the
        range first, so the bytes past the end come out as 0 and the
        position stops at the end. */
    method DecodeBytes(length: nat) returns (r: seq<byte>)
      modifies this
      ensures r == Padded(decode, old(index), length)
      ensures index == old(index) + Consumed(|decode|, old(index), length)
    {
      var value: seq<byte> := [];
      var start := index;
      for k := 0 to length
        invariant value == Padded(decode, start, k)
        invariant index == start + Consumed(|decode|, start, k)
      {
        var b;
        b, index := ScanByteOrZero(decode, index);
        PaddedStep(decode, start, k);
        ConsumedStep(|decode|, start, k);
        value := value + [b];
      }
      r := value;
    }

    /** `decodeNibble()`: the nibbles of the next byte, or of 0. */
    method DecodeNibble() returns (n: Nibbles.Nibble)
      modifies this
      ensures old(index) < |decode| ==> n == Nibbles.FromByte(decode[old(index)] as bv8) && index == old(index) + 1
      ensures old(index) >= |decode| ==> n == Nibbles.FromByte(0) && n.Uint8Value() == 0 && index == old(index)
    {
      var value;
      value, index := ScanByteOrZero(decode, index);
      n := Nibbles.FromByte(value as bv8);
    }

    method DecodeInt8() returns (v: int)
      modifies this
      ensures ReadsAsOrZero(decode, old(index), Int8, v, index)
    {
      var value;
      value, index := ScanValue(decode, index, Int8);
      v := value.GetOr(0);
    }

    method DecodeUInt8() returns (v: int)
      modifies this
      ensures ReadsAsOrZero(decode, old(index), UInt8, v, index)
    {
      var value;
      value, index := ScanValue(decode, index, UInt8);
      v := value.GetOr(0);
    }

    method DecodeInt16() returns (v: int)
      modifies this
      ensures ReadsAsOrZero(decode, old(index), Int16, v, index)
    {
      var value;
      value, index := ScanValue(decode, index, Int16);
      v := value.GetOr(0);
    }

    method DecodeUInt16() returns (v: int)
      modifies this
      ensures ReadsAsOrZero(decode, old(index), UInt16, v, index)
    {
      var value;
      value, index := ScanValue(decode, index, UInt16);
      v := value.GetOr(0);
    }

    /** `decodeUInt24()`: three one-byte reads, each 0 past the end. */
    method DecodeUInt24() returns (v: int)
      modifies this
      ensures v == UInt24Value(Padded(decode, old(index), 3))
      ensures index == old(index) + Consumed(|decode|, old(index), 3)
    {
      var start := index;
      var val0, val1, val2, i1, i2, i3;
      val0, i1 := ScanByteOrZero(decode, start);
      ReadByteStep(decode, start, 0, start, val0, i1);
      val1, i2 := ScanByteOrZero(decode, i1);
      ReadByteStep(decode, start, 1, i1, val1, i2);
      val2, i3 := ScanByteOrZero(decode, i2);
      ReadByteStep(decode, start, 2, i2, val2, i3);
      index := i3;
      assert [val0, val1, val2] == Padded(decode, start, 3);
      v := UInt24Value([val0, val1, val2]);
    }

    /** `decodeInt24()`, as written: see `Readers.Int24AsWritten`. */
    method DecodeInt24() returns (v: int)
      modifies this
      ensures v == Int24AsWritten(Padded(decode, old(index), 3))
      ensures v == UInt24Value(Padded(decode, old(index), 3))
      ensures index == old(index) + Consumed(|decode|, old(index), 3)
    {
      var start := index;
      var val0, val1, val2, i1, i2, i3;
      val0, i1 := ScanByteOrZero(decode, start);
      ReadByteStep(decode, start, 0, start, val0, i1);
      val1, i2 := ScanByteOrZero(decode, i1);
      ReadByteStep(decode, start, 1, i1, val1, i2);
      val2, i3 := ScanByteOrZero(decode, i2);
      ReadByteStep(decode, start, 2, i2, val2, i3);
      index := i3;
      assert [val0, val1, val2] == Padded(decode, start, 3);
      v := Int24AsWritten([val0, val1, val2]);
    }

    method DecodeInt32() returns (v: int)
      modifies this
      ensures ReadsAsOrZero(decode, old(index), Int32, v, index)
    {
      var value;
      value, index := ScanValue(decode, index, Int32);
      v := value.GetOr(0);
    }

    method DecodeUInt32() returns (v: int)
      modifies this
      ensures ReadsAsOrZero(decode, old(index), UInt32, v, index)
    {
      var value;
      value, index := ScanValue(decode, index, UInt32);
      v := value.GetOr(0);
    }

    /** `decodeUInt48()`: six one-byte reads, each 0 past the end. */
    method DecodeUInt48() returns (v: int)
      modifies this
      ensures v == UInt48Value(Padded(decode, old(index), 6))
      ensures 0 <= v < 0x1_0000_0000_0000
      ensures index == old(index) + Consumed(|decode|, old(index), 6)
    {
      var start := index;
      var val0, val1, val2, val3, val4, val5, i1, i2, i3, i4, i5, i6;
      val0, i1 := ScanByteOrZero(decode, start);
      ReadByteStep(decode, start, 0, start, val0, i1);
      val1, i2 := ScanByteOrZero(decode, i1);
      ReadByteStep(decode, start, 1, i1, val1, i2);
      val2, i3 := ScanByteOrZero(decode, i2);
      ReadByteStep(decode, start, 2, i2, val2, i3);
      val3, i4 := ScanByteOrZero(decode, i3);
      ReadByteStep(decode, start, 3, i3, val3, i4);
      val4, i5 := ScanByteOrZero(decode, i4);
      ReadByteStep(decode, start, 4, i4, val4, i5);
      val5, i6 := ScanByteOrZero(decode, i5);
      ReadByteStep(decode, start, 5, i5, val5, i6);
      index := i6;
      PaddedSix(decode, start, val0, val1, val2, val3, val4, val5);
      v := UInt48Value([val0, val1, val2, val3, val4, val5]);
    }

    method DecodeInt64() returns (v: int)
      modifies this
      ensures ReadsAsOrZero(decode, old(index), Int64, v, index)
    {
      var value;
      value, index := ScanValue(decode, index, Int64);
      v := value.GetOr(0);
    }

    method DecodeUInt64() returns (v: int)
      modifies this
      ensures ReadsAsOrZero(decode, old(index), UInt64, v, index)
    {
      var value;
      value, index := ScanValue(decode, index, UInt64);
      v := value.GetOr(0);
    }

    /** `decodeIPAddress(fromLittleEndian:)`: four one-byte reads, each 0
        past the end, printed as a dotted-decimal address. */
    method DecodeIPAddress(fromLittleEndian: bool) returns (s: string)
      modifies this
      ensures s == IPAddressText(Padded(decode, old(index), 4), fromLittleEndian)
      ensures index == old(index) + Consumed(|decode|, old(index), 4)
    {
      var start := index;
      var val0, val1, val2, val3, i1, i2, i3, i4;
      val0, i1 := ScanByteOrZero(decode, start);
      ReadByteStep(decode, start, 0, start, val0, i1);
      val1, i2 := ScanByteOrZero(decode, i1);
      ReadByteStep(decode, start, 1, i1, val1, i2);
      val2, i3 := ScanByteOrZero(decode, i2);
      ReadByteStep(decode, start, 2, i2, val2, i3);
      val3, i4 := ScanByteOrZero(decode, i3);
      ReadByteStep(decode, start, 3, i3, val3, i4);
      index := i4;
      assert [val0, val1, val2, val3] == Padded(decode, start, 4);
      s := IPAddressText([val0, val1, val2, val3], fromLittleEndian);
    }

    /** `decodeMACAddress(fromLittleEndian:)`: six one-byte reads, each 0
        past the end, printed as a MAC address. */
    method DecodeMACAddress(fromLittleEndian: bool) returns (m: MACAddress)
      modifies this
      ensures m == MACAddressValue(Padded(decode, old(index), 6), fromLittleEndian)
      ensures index == old(index) + Consumed(|decode|, old(index), 6)
    {
      var start := index;
      var val0, val1, val2, val3, val4, val5, i1, i2, i3, i4, i5, i6;
      val0, i1 := ScanByteOrZero(decode, start);
      ReadByteStep(decode, start, 0, start, val0, i1);
      val1, i2 := ScanByteOrZero(decode, i1);
      ReadByteStep(decode, start, 1, i1, val1, i2);
      val2, i3 := ScanByteOrZero(decode, i2);
      ReadByteStep(decode, start, 2, i2, val2, i3);
      val3, i4 := ScanByteOrZero(decode, i3);
      ReadByteStep(decode, start, 3, i3, val3, i4);
      val4, i5 := ScanByteOrZero(decode, i4);
      ReadByteStep(decode, start, 4, i4, val4, i5);
      val5, i6 := ScanByteOrZero(decode, i5);
      ReadByteStep(decode, start, 5, i5, val5, i6);
      index := i6;
      PaddedSix(decode, start, val0, val1, val2, val3, val4, val5);
      m := MACAddressValue([val0, val1, val2, val3, val4, val5], fromLittleEndian);
    }

    /** `decodeANTToggleByte()`: the next byte, or 0, split into page number
        and toggle bit. */
    method DecodeANTToggleByte() returns (t: ANTToggle.ANTToggleByte)
      modifies this
      ensures t == ANTToggle.FromByte(Padded(decode, old(index), 1)[0] as bv8)
      ensures index == old(index) + Consumed(|decode|, old(index), 1)
    {
      var value;
      value, index := ScanByteOrZero(decode, index);
      t := ANTToggle.FromByte(value as bv8);
    }

    /** `decodeSFloatValue()`: a signed 16-bit read, 0 when the bytes are not
        all there, split into its SFLOAT fields; the raw 0 is the number 0. */
    method DecodeSFloatValue() returns (f: MedicalFloat)
      modifies this
      ensures old(index) + 2 <= |decode| ==> f == SFloatReference(LittleEndian(decode[old(index)..old(index) + 2])) && index == old(index) + 2
      ensures old(index) + 2 > |decode| ==> f == Finite(0, 0) && index == old(index)
    {
      var value;
      value, index := ScanValue(decode, index, Int16);
      var tmpValue := value.GetOr(0);
      f := SFloatOfDataDecoder(tmpValue);
    }

    /** `decodeFloatValue()`: a signed 32-bit read, 0 when the bytes are not
        all there, split into its FLOAT fields; the raw 0 is the number 0. */
    method DecodeFloatValue() returns (f: MedicalFloat)
      modifies this
      ensures old(index) + 4 <= |decode| ==> f == FloatReference(LittleEndian(decode[old(index)..old(index) + 4])) && index == old(index) + 4
      ensures old(index) + 4 > |decode| ==> f == Finite(0, 0) && index == old(index)
    {
      var value;
      value, index := ScanValue(decode, index, Int32);
      var tmpValue := value.GetOr(0);
      f := FloatOfBits(tmpValue);
    }
  }
}
