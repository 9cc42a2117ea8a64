/** `DecodeData`: a read position into a buffer that the caller passes to
    every read. Each read takes its bytes at the position and moves it past
    them. The `...IfPresent` readers yield `None` and leave the position
    alone when the bytes are not all there; the plain readers put a zero
    value in place of `None`. */
module Decoder {
  import opened DataExtension
  import Nibbles
  import ANTToggle
  import opened MACAddresses
  import opened IEEE11073
  import opened Readers

  class DecodeData {
    /** The position of the next byte to read. */
    var index: nat

    constructor(startIndex: nat)
      ensures index == startIndex
    {
      index := startIndex;
    }

    /** `decodeData(_:length:)`: the `length` bytes at the position, or the
        empty buffer when they are not all there. */
    method DecodeBytes(data: seq<byte>, length: nat) returns (r: seq<byte>)
      modifies this
      ensures old(index) + length <= |data| ==> r == data[old(index)..old(index) + length] && index == old(index) + length
      ensures old(index) + length > |data| ==> r == [] && index == old(index)
    {
      var present := DecodeBytesIfPresent(data, length);
      r := present.GetOr([]);
    }

    /** `decodeDataIfPresent(_:length:)`: checks the whole range first, then
        copies it one byte read at a time. */
    method DecodeBytesIfPresent(data: seq<byte>, length: nat) returns (r: Option<seq<byte>>)
      modifies this
      ensures old(index) + length <= |data| ==> r == Some(data[old(index)..old(index) + length]) && index == old(index) + length
      ensures old(index) + length > |data| ==> r == None && index == old(index)
    {
      var value: seq<byte> := [];
      if index + length > |data| {
        return None;
      }
      var start := index;
      for k := 0 to length
        invariant index == start + k
        invariant value == data[start..start + k]
      {
        var b;
        b, index := ScanByteOrZero(data, index);
        value := value + [b];
      }
      r := Some(value);
    }

    /** `decodeNibble(_:)`: the nibbles of the next byte, or of 0. */
    method DecodeNibble(data: seq<byte>) returns (n: Nibbles.Nibble)
      modifies this
      ensures old(index) < |data| ==> n == Nibbles.FromByte(data[old(index)] as bv8) && index == old(index) + 1
      ensures old(index) >= |data| ==> n == Nibbles.FromByte(0) && n.Uint8Value() == 0 && index == old(index)
    {
      var value := DecodeNibbleIfPresent(data);
      n := value.GetOr(Nibbles.FromByte(0));
    }

    /** `decodeNibbleIfPresent(_:)`. */
    method DecodeNibbleIfPresent(data: seq<byte>) returns (r: Option<Nibbles.Nibble>)
      modifies this
      ensures old(index) < |data| ==> r == Some(Nibbles.FromByte(data[old(index)] as bv8)) && index == old(index) + 1
      ensures old(index) >= |data| ==> r == None && index == old(index)
    {
      var value;
      value, index := ScanValue(data, index, UInt8);
      if value.Some? {
        ScanAtByte(data, old(index));
        return Some(Nibbles.FromByte(value.value as bv8));
      }
      return None;
    }

    method DecodeInt8(data: seq<byte>) returns (v: int)
      modifies this
      ensures ReadsAsOrZero(data, old(index), Int8, v, index)
    {
      var value := DecodeInt8IfPresent(data);
      v := value.GetOr(0);
    }

    method DecodeInt8IfPresent(data: seq<byte>) returns (r: Option<int>)
      modifies this
      ensures ReadsAs(data, old(index), Int8, r, index)
    {
      r, index := ScanValue(data, index, Int8);
    }

    method DecodeUInt8(data: seq<byte>) returns (v: int)
      modifies this
      ensures ReadsAsOrZero(data, old(index), UInt8, v, index)
    {
      var value := DecodeUInt8IfPresent(data);
      v := value.GetOr(0);
    }

    method DecodeUInt8IfPresent(data: seq<byte>) returns (r: Option<int>)
      modifies this
      ensures ReadsAs(data, old(index), UInt8, r, index)
    {
      r, index := ScanValue(data, index, UInt8);
    }

    method DecodeInt16(data: seq<byte>) returns (v: int)
      modifies this
      ensures ReadsAsOrZero(data, old(index), Int16, v, index)
    {
      var value := DecodeInt16IfPresent(data);
      v := value.GetOr(0);
    }

    method DecodeInt16IfPresent(data: seq<byte>) returns (r: Option<int>)
      modifies this
      ensures ReadsAs(data, old(index), Int16, r, index)
    {
      r, index := ScanValue(data, index, Int16);
    }

    method DecodeUInt16(data: seq<byte>) returns (v: int)
      modifies this
      ensures ReadsAsOrZero(data, old(index), UInt16, v, index)
    {
      var value := DecodeUInt16IfPresent(data);
      v := value.GetOr(0);
    }

    method DecodeUInt16IfPresent(data: seq<byte>) returns (r: Option<int>)
      modifies this
      ensures ReadsAs(data, old(index), UInt16, r, index)
    {
      r, index := ScanValue(data, index, UInt16);
    }

    /** `decodeUInt24(_:)`: three one-byte reads, each 0 past the end. */
    method DecodeUInt24(data: seq<byte>) returns (v: int)
      modifies this
      ensures v == UInt24Value(Padded(data, old(index), 3))
      ensures index == old(index) + Consumed(|data|, old(index), 3)
    {
      var start := index;
      var val0, val1, val2, i1, i2, i3;
      val0, i1 := ScanByteOrZero(data, start);
      ReadByteStep(data, start, 0, start, val0, i1);
      val1, i2 := ScanByteOrZero(data, i1);
      ReadByteStep(data, start, 1, i1, val1, i2);
      val2, i3 := ScanByteOrZero(data, i2);
      ReadByteStep(data, start, 2, i2, val2, i3);
      index := i3;
      assert [val0, val1, val2] == Padded(data, start, 3);
      v := UInt24Value([val0, val1, val2]);
    }

    /** `decodeInt24(_:)`, as written: see `Readers.Int24AsWritten`. */
    method DecodeInt24(data: seq<byte>) returns (v: int)
      modifies this
      ensures v == Int24AsWritten(Padded(data, old(index), 3))
      ensures v == UInt24Value(Padded(data, old(index), 3))
      ensures index == old(index) + Consumed(|data|, old(index), 3)
    {
      var start := index;
      var val0, val1, val2, i1, i2, i3;
      val0, i1 := ScanByteOrZero(data, start);
      ReadByteStep(data, start, 0, start, val0, i1);
      val1, i2 := ScanByteOrZero(data, i1);
      ReadByteStep(data, start, 1, i1, val1, i2);
      val2, i3 := ScanByteOrZero(data, i2);
      ReadByteStep(data, start, 2, i2, val2, i3);
      index := i3;
      assert [val0, val1, val2] == Padded(data, start, 3);
      v := Int24AsWritten([val0, val1, val2]);
    }

    method DecodeInt32(data: seq<byte>) returns (v: int)
      modifies this
      ensures ReadsAsOrZero(data, old(index), Int32, v, index)
    {
      var value := DecodeInt32IfPresent(data);
      v := value.GetOr(0);
    }

    method DecodeInt32IfPresent(data: seq<byte>) returns (r: Option<int>)
      modifies this
      ensures ReadsAs(data, old(index), Int32, r, index)
    {
      r, index := ScanValue(data, index, Int32);
    }

    method DecodeUInt32(data: seq<byte>) returns (v: int)
      modifies this
      ensures ReadsAsOrZero(data, old(index), UInt32, v, index)
    {
      var value := DecodeUInt32IfPresent(data);
      v := value.GetOr(0);
    }

    method DecodeUInt32IfPresent(data: seq<byte>) returns (r: Option<int>)
      modifies this
      ensures ReadsAs(data, old(index), UInt32, r, index)
    {
      r, index := ScanValue(data, index, UInt32);
    }

    /** `decodeUInt48(_:)`: six one-byte reads, each 0 past the end. */
    method DecodeUInt48(data: seq<byte>) returns (v: int)
      modifies this
      ensures v == UInt48Value(Padded(data, old(index), 6))
      ensures 0 <= v < 0x1_0000_0000_0000
      ensures index == old(index) + Consumed(|data|, old(index), 6)
    {
      var start := index;
      var val0, val1, val2, val3, val4, val5, i1, i2, i3, i4, i5, i6;
      val0, i1 := ScanByteOrZero(data, start);
      ReadByteStep(data, start, 0, start, val0, i1);
      val1, i2 := ScanByteOrZero(data, i1);
      ReadByteStep(data, start, 1, i1, val1, i2);
      val2, i3 := ScanByteOrZero(data, i2);
      ReadByteStep(data, start, 2, i2, val2, i3);
      val3, i4 := ScanByteOrZero(data, i3);
      ReadByteStep(data, start, 3, i3, val3, i4);
      val4, i5 := ScanByteOrZero(data, i4);
      ReadByteStep(data, start, 4, i4, val4, i5);
      val5, i6 := ScanByteOrZero(data, i5);
      ReadByteStep(data, start, 5, i5, val5, i6);
      index := i6;
      PaddedSix(data, start, val0, val1, val2, val3, val4, val5);
      v := UInt48Value([val0, val1, val2, val3, val4, val5]);
    }

    method DecodeInt64(data: seq<byte>) returns (v: int)
      modifies this
      ensures ReadsAsOrZero(data, old(index), Int64, v, index)
    {
      var value := DecodeInt64IfPresent(data);
      v := value.GetOr(0);
    }

    method DecodeInt64IfPresent(data: seq<byte>) returns (r: Option<int>)
      modifies this
      ensures ReadsAs(data, old(index), Int64, r, index)
    {
      r, index := ScanValue(data, index, Int64);
    }

    method DecodeUInt64(data: seq<byte>) returns (v: int)
      modifies this
      ensures ReadsAsOrZero(data, old(index), UInt64, v, index)
    {
      var value := DecodeUInt64IfPresent(data);
      v := value.GetOr(0);
    }

    method DecodeUInt64IfPresent(data: seq<byte>) returns (r: Option<int>)
      modifies this
      ensures ReadsAs(data, old(index), UInt64, r, index)
    {
      r, index := ScanValue(data, index, UInt64);
    }

    /** `decodeIPAddress(_:fromLittleEndian:)`: four one-byte reads, each 0
        past the end, printed as a dotted-decimal address. */
    method DecodeIPAddress(data: seq<byte>, fromLittleEndian: bool) returns (s: string)
      modifies this
      ensures s == IPAddressText(Padded(data, old(index), 4), fromLittleEndian)
      ensures index == old(index) + Consumed(|data|, old(index), 4)
    {
      var start := index;
      var val0, val1, val2, val3, i1, i2, i3, i4;
      val0, i1 := ScanByteOrZero(data, start);
      ReadByteStep(data, start, 0, start, val0, i1);
      val1, i2 := ScanByteOrZero(data, i1);
      ReadByteStep(data, start, 1, i1, val1, i2);
      val2, i3 := ScanByteOrZero(data, i2);
      ReadByteStep(data, start, 2, i2, val2, i3);
      val3, i4 := ScanByteOrZero(data, i3);
      ReadByteStep(data, start, 3, i3, val3, i4);
      index := i4;
      assert [val0, val1, val2, val3] == Padded(data, start, 4);
      s := IPAddressText([val0, val1, val2, val3], fromLittleEndian);
    }

    /** `decodeMACAddress(_:fromLittleEndian:)`: six one-byte reads, each 0
        past the end, printed as a MAC address. */
    method DecodeMACAddress(data: seq<byte>, fromLittleEndian: bool) returns (m: MACAddress)
      modifies this
      ensures m == MACAddressValue(Padded(data, old(index), 6), fromLittleEndian)
      ensures index == old(index) + Consumed(|data|, old(index), 6)
    {
      var start := index;
      var val0, val1, val2, val3, val4, val5, i1, i2, i3, i4, i5, i6;
      val0, i1 := ScanByteOrZero(data, start);
      ReadByteStep(data, start, 0, start, val0, i1);
      val1, i2 := ScanByteOrZero(data, i1);
      ReadByteStep(data, start, 1, i1, val1, i2);
      val2, i3 := ScanByteOrZero(data, i2);
      ReadByteStep(data, start, 2, i2, val2, i3);
      val3, i4 := ScanByteOrZero(data, i3);
      ReadByteStep(data, start, 3, i3, val3, i4);
      val4, i5 := ScanByteOrZero(data, i4);
      ReadByteStep(data, start, 4, i4, val4, i5);
      val5, i6 := ScanByteOrZero(data, i5);
      ReadByteStep(data, start, 5, i5, val5, i6);
      index := i6;
      PaddedSix(data, start, val0, val1, val2, val3, val4, val5);
      m := MACAddressValue([val0, val1, val2, val3, val4, val5], fromLittleEndian);
    }

    /** `decodeANTToggleByte(_:)`: the next byte, or 0, split into page
        number and toggle bit. */
    method DecodeANTToggleByte(data: seq<byte>) returns (t: ANTToggle.ANTToggleByte)
      modifies this
      ensures t == ANTToggle.FromByte(Padded(data, old(index), 1)[0] as bv8)
      ensures index == old(index) + Consumed(|data|, old(index), 1)
    {
      var value;
      value, index := ScanByteOrZero(data, index);
      t := ANTToggle.FromByte(value as bv8);
    }

    /** `decodeSFloatValue(_:)`: a missing value reads as 0. */
    method DecodeSFloatValue(data: seq<byte>) returns (f: MedicalFloat)
      modifies this
      ensures old(index) + 2 <= |data| ==> f == SFloatReference(LittleEndian(data[old(index)..old(index) + 2])) && index == old(index) + 2
      ensures old(index) + 2 > |data| ==> f == Finite(0, 0) && index == old(index)
    {
      var value := DecodeSFloatValueIfPresent(data);
      f := value.GetOr(Finite(0, 0));
    }

    /** `decodeSFloatValueIfPresent(_:)`: a signed 16-bit read split into
        its SFLOAT fields. */
    method DecodeSFloatValueIfPresent(data: seq<byte>) returns (r: Option<MedicalFloat>)
      modifies this
      ensures old(index) + 2 <= |data| ==> r == Some(SFloatReference(LittleEndian(data[old(index)..old(index) + 2]))) && index == old(index) + 2
      ensures old(index) + 2 > |data| ==> r == None && index == old(index)
    {
      var tmpValue;
      tmpValue, index := ScanValue(data, index, Int16);
      if tmpValue.Some? {
        return Some(SFloatOfDecodeData(tmpValue.value));
      }
      return None;
    }

    /** `decodeFloatValue(_:)`: a missing value reads as 0. */
    method DecodeFloatValue(data: seq<byte>) returns (f: MedicalFloat)
      modifies this
      ensures old(index) + 4 <= |data| ==> f == FloatReference(LittleEndian(data[old(index)..old(index) + 4])) && index == old(index) + 4
      ensures old(index) + 4 > |data| ==> f == Finite(0, 0) && index == old(index)
    {
      var value := DecodeFloatValueIfPresent(data);
      f := value.GetOr(Finite(0, 0));
    }

    /** `decodeFloatValueifPresent(_:)`: a signed 32-bit read split into its
        FLOAT fields. */
    method DecodeFloatValueIfPresent(data: seq<byte>) returns (r: Option<MedicalFloat>)
      modifies this
      ensures old(index) + 4 <= |data| ==> r == Some(FloatReference(LittleEndian(data[old(index)..old(index) + 4]))) && index == old(index) + 4
      ensures old(index) + 4 > |data| ==> r == None && index == old(index)
    {
      var tmpValue;
      tmpValue, index := ScanValue(data, index, Int32);
      if tmpValue.Some? {
        return Some(FloatOfBits(tmpValue.value));
      }
      return None;
    }
  }
}
