/** The read primitives of `Data`: the bounds-checked "take the bytes of one
    value and advance" read that every decoder goes through, the unchecked
    reads at a given start, and the little-endian, two's-complement meaning
    of the bytes they take. */
module DataExtension {

  /** One byte of a buffer, as a number. */
  type byte = b: int | 0 <= b < 256

  datatype Option<+T> = None | Some(value: T) {
    /** The wrapped value, or `default` when absent (Swift's `??`). */
    function GetOr(default: T): (r: T)
      ensures Some? ==> r == value
      ensures None? ==> r == default
    {
      match this
      case Some(v) => v
      case None => default
    }
  }

  /** The fixed-width integer types the decoders read natively. */
  datatype IntType = UInt8 | Int8 | UInt16 | Int16 | UInt32 | Int32 | UInt64 | Int64 {

    /** The number of bytes of one value (`MemoryLayout<T>.size`). */
    function Size(): (n: nat)
      ensures n == 1 || n == 2 || n == 4 || n == 8
    {
      match this
      case UInt8 | Int8 => 1
      case UInt16 | Int16 => 2
      case UInt32 | Int32 => 4
      case UInt64 | Int64 => 8
    }

    predicate Signed() {
      Int8? || Int16? || Int32? || Int64?
    }

    /** The number of distinct values of the type: 256 to the power of its
        size. */
    function Modulus(): (m: nat)
      ensures m == Pow256(Size())
      ensures m % 2 == 0
    {
      assert Pow256(4) == 0x1_0000_0000;
      assert Pow256(8) == 0x1_0000_0000_0000_0000;
      match this
      case UInt8 | Int8 => 0x100
      case UInt16 | Int16 => 0x1_0000
      case UInt32 | Int32 => 0x1_0000_0000
      case UInt64 | Int64 => 0x1_0000_0000_0000_0000
    }

    /** The least value: 0 unsigned, minus half the modulus signed. */
    function Min(): (r: int)
      ensures !Signed() ==> r == 0
      ensures Signed() ==> 2 * -r == Modulus()
    {
      if Signed() then -(Modulus() / 2) else 0
    }

    /** The greatest value: the range from `Min()` to it holds exactly
        `Modulus()` values. */
    function Max(): (r: int)
      ensures r - Min() + 1 == Modulus()
    {
      if Signed() then Modulus() / 2 - 1 else Modulus() - 1
    }
  }

  function Pow256(n: nat): (p: nat)
    ensures p >= 1
  {
    if n == 0 then 1 else 256 * Pow256(n - 1)
  }

  /** A power of 256 splits over a sum of exponents, as the byte lengths of
      concatenated buffers add. */
  lemma {:induction false} Pow256Add(a: nat, b: nat)
    ensures Pow256(a + b) == Pow256(a) * Pow256(b)
  {
    if a > 0 {
      Pow256Add(a - 1, b);
      var x, y := Pow256(a - 1), Pow256(b);
      assert Pow256(a + b) == 256 * (x * y);
      assert Pow256(a) * y == (256 * x) * y;
      ScaleProduct(x, y);
    }
  }

  /** The unsigned value of a byte sequence read least significant byte
      first, as the bytes of an integer lie in memory on the little-endian
      machines the package runs on. */
  function LittleEndian(s: seq<byte>): (v: nat)
    ensures v < Pow256(|s|)
    ensures |s| == 4 ==> v < 0x1_0000_0000
  {
    if s == [] then 0 else s[0] + 256 * LittleEndian(s[1..])
  }

  /** The `n` bytes that hold `v` in memory, least significant first. */
  function LittleEndianBytes(v: nat, n: nat): (s: seq<byte>)
    requires v < Pow256(n)
    ensures |s| == n
  {
    if n == 0 then [] else [v % 256] + LittleEndianBytes(v / 256, n - 1)
  }

  lemma {:induction false} LittleEndianOfBytes(v: nat, n: nat)
    requires v < Pow256(n)
    ensures LittleEndian(LittleEndianBytes(v, n)) == v
  {
    if n > 0 {
      var s := LittleEndianBytes(v, n);
      assert s[0] == v % 256 && s[1..] == LittleEndianBytes(v / 256, n - 1);
      LittleEndianOfBytes(v / 256, n - 1);
      calc {
        LittleEndian(s);
        s[0] + 256 * LittleEndian(s[1..]);
        v % 256 + 256 * (v / 256);
        v;
      }
    }
  }

  lemma {:induction false} BytesOfLittleEndian(s: seq<byte>)
    ensures LittleEndianBytes(LittleEndian(s), |s|) == s
  {
    if s != [] {
      BytesOfLittleEndian(s[1..]);
      var v := LittleEndian(s);
      assert v % 256 == s[0];
      assert v / 256 == LittleEndian(s[1..]);
    }
  }

  /** Reading a concatenation: the second part holds the high-order bytes. */
  lemma {:induction false} LittleEndianAppend(a: seq<byte>, b: seq<byte>)
    ensures LittleEndian(a + b) == LittleEndian(a) + Pow256(|a|) * LittleEndian(b)
  {
    if a == [] {
      assert a + b == b;
    } else {
      var ab := a + b;
      assert ab[0] == a[0] && ab[1..] == a[1..] + b;
      LittleEndianAppend(a[1..], b);
      var p, q, x, y := Pow256(|a| - 1), Pow256(|a|), LittleEndian(b), LittleEndian(a[1..]);
      var w := p * x;
      assert LittleEndian(a[1..] + b) == y + w;
      assert LittleEndian(ab) == a[0] + 256 * (y + w);
      assert LittleEndian(a) == a[0] + 256 * y;
      assert q * x == 256 * w by {
        assert q == 256 * p;
        ScaleProduct(p, x);
      }
    }
  }

  lemma ScaleProduct(p: nat, x: nat)
    ensures (256 * p) * x == 256 * (p * x)
  {
  }

  /** The value of type `t` whose bytes, read as an unsigned little-endian
      number, are `u`: the number itself for an unsigned type, its two's
      complement reading for a signed one. */
  function Reinterpret(t: IntType, u: nat): (v: int)
    requires u < t.Modulus()
    ensures t.Min() <= v <= t.Max()
    ensures v % t.Modulus() == u
    ensures !t.Signed() ==> v == u
  {
    if t.Signed() && u >= t.Modulus() / 2 then u - t.Modulus() else u
  }

  /** `scanValue(start:type:)`: the value of type `t` stored at `start`.
      The read takes no bounds check of its own; a range past the end traps,
      so the caller must keep `start + size <= count`. */
  function ScanAt(data: seq<byte>, start: nat, t: IntType): (v: int)
    requires start + t.Size() <= |data|
    ensures t.Min() <= v <= t.Max()
    ensures v % t.Modulus() == LittleEndian(data[start..start + t.Size()])
  {
    Reinterpret(t, LittleEndian(data[start..start + t.Size()]))
  }

  /** `scanValue(start:length:)`: the value of type `t` read from the front of
      the `length` bytes at `start`; only the first `size` of them matter. */
  function ScanAtLength(data: seq<byte>, start: nat, length: nat, t: IntType): (v: int)
    requires start + length <= |data|
    requires t.Size() <= length
    ensures v == ScanAt(data, start, t)
  {
    var sub := data[start..start + length];
    assert sub[0..t.Size()] == data[start..start + t.Size()];
    ScanAt(sub, 0, t)
  }

  /** `scanValue(index:type:)`: the bounds-checked read. The in-out `index`
      is passed in as `index` and handed back as `index'`. On an overrun it
      yields nothing and leaves the index alone; otherwise it yields the value
      built from the bytes `[index, index + size)` and advances the index by
      exactly `size`. */
  method ScanValue(data: seq<byte>, index: nat, t: IntType) returns (value: Option<int>, index': nat)
    ensures index + t.Size() > |data| ==> value == None && index' == index
    ensures index + t.Size() <= |data| ==> value == Some(ScanAt(data, index, t)) && index' == index + t.Size()
    ensures index <= |data| ==> index' <= |data|
  {
    var scanIdx := index;
    var toSize := scanIdx + t.Size();
    if toSize > |data| {
      return None, index;
    }
    index' := index + t.Size();
    value := Some(ScanAt(data, scanIdx, t));
  }

  /** The number of bytes a byte-by-byte reader of `width` bytes consumes
      when it starts at `index` of a buffer of `count` bytes: each one-byte
      read succeeds until the end of the buffer and fails from there on. */
  function Consumed(count: nat, index: nat, width: nat): (n: nat)
    ensures n <= width
    ensures index <= count ==> index + n <= count
    ensures n < width ==> index + n >= count
    ensures index >= count ==> n == 0
  {
    if index >= count then 0
    else if count - index < width then count - index
    else width
  }

  /** The `width` bytes from `index` on, with 0 in place of every byte past
      the end of the buffer. */
  function Padded(data: seq<byte>, index: nat, width: nat): (s: seq<byte>)
    ensures |s| == width
    ensures forall k :: 0 <= k < width ==> s[k] == if index + k < |data| then data[index + k] else 0
  {
    seq(width, k requires 0 <= k < width => if index + k < |data| then data[index + k] else 0)
  }

  /** A one-byte read at `start` is the byte there. */
  lemma ScanAtByte(data: seq<byte>, start: nat)
    requires start < |data|
    ensures ScanAt(data, start, UInt8) == data[start]
  {
    assert data[start..start + 1] == [data[start]];
    assert LittleEndian([data[start]]) == data[start];
  }

  /** What one bounds-checked read of a `t` at `index` yields, and where it
      leaves the index (`index'`). */
  predicate ReadsAs(data: seq<byte>, index: nat, t: IntType, value: Option<int>, index': nat) {
    if index + t.Size() <= |data| then value == Some(ScanAt(data, index, t)) && index' == index + t.Size()
    else value == None && index' == index
  }

  /** The same read followed by `?? 0`: an overrun yields 0. */
  predicate ReadsAsOrZero(data: seq<byte>, index: nat, t: IntType, value: int, index': nat) {
    if index + t.Size() <= |data| then value == ScanAt(data, index, t) && index' == index + t.Size()
    else value == 0 && index' == index
  }

  /** `scanValue(index: &index, type: UInt8.self) ?? 0`, the step every
      byte-by-byte reader repeats. */
  method ScanByteOrZero(data: seq<byte>, index: nat) returns (b: byte, index': nat)
    ensures index < |data| ==> b == data[index] && index' == index + 1
    ensures index >= |data| ==> b == 0 && index' == index
  {
    var value;
    value, index' := ScanValue(data, index, UInt8);
    if value.Some? {
      ScanAtByte(data, index);
      b := value.value;
    } else {
      b := 0;
    }
  }

  /** One more byte-by-byte read extends what was read by one padded byte. */
  lemma PaddedStep(data: seq<byte>, index: nat, k: nat)
    ensures Padded(data, index, k + 1) == Padded(data, index, k) + [if index + k < |data| then data[index + k] else 0]
  {
  }

  /** The `k`-th of a run of one-byte reads from `start` reads at
      `start + Consumed(count, start, k)`, which lies in the buffer exactly when
      `start + k` does: it yields the `k`-th padded byte and consumes one
      byte more only then. */
  lemma ReadByteStep(data: seq<byte>, start: nat, k: nat, index: nat, b: byte, index': nat)
    requires index == start + Consumed(|data|, start, k)
    requires index < |data| ==> b == data[index] && index' == index + 1
    requires index >= |data| ==> b == 0 && index' == index
    ensures b == if start + k < |data| then data[start + k] else 0
    ensures index' == start + Consumed(|data|, start, k + 1)
  {
  }

  /** Six padded bytes, one by one, make up `Padded(data, start, 6)`. */
  lemma PaddedSix(data: seq<byte>, start: nat, v0: byte, v1: byte, v2: byte, v3: byte, v4: byte, v5: byte)
    requires v0 == (if start < |data| then data[start] else 0)
    requires v1 == (if start + 1 < |data| then data[start + 1] else 0)
    requires v2 == (if start + 2 < |data| then data[start + 2] else 0)
    requires v3 == (if start + 3 < |data| then data[start + 3] else 0)
    requires v4 == (if start + 4 < |data| then data[start + 4] else 0)
    requires v5 == (if start + 5 < |data| then data[start + 5] else 0)
    ensures [v0, v1, v2, v3, v4, v5] == Padded(data, start, 6)
  {
  }

  lemma ConsumedStep(count: nat, index: nat, k: nat)
    ensures Consumed(count, index, k + 1) == Consumed(count, index, k) + (if index + k < count then 1 else 0)
  {
  }
}
