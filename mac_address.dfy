/** `MACAddress`: a MAC address held as its upper-case string form. */
module MACAddresses {
  import opened DataExtension
  import opened TextFormat

  /** The address. Its one field is `stringValue`; the source sets it only
      through `FromString` and `FromData` below. */
  datatype MACAddress = MACAddress(stringValue: string)

  predicate IsLowerAscii(c: char) {
    'a' <= c <= 'z'
  }

  /** One character upper-cased: a lower-case ASCII letter becomes its
      capital, 32 code points below it; every other character is kept. */
  function UpperChar(c: char): (u: char)
    ensures !IsLowerAscii(u)
    ensures IsLowerAscii(c) ==> u as int == c as int - 32
    ensures !IsLowerAscii(c) ==> u == c
  {
    if IsLowerAscii(c) then (c as int - 32) as char else c
  }

  /** `uppercased()`, on the ASCII letters: every lower-case letter becomes
      its capital and every other character is kept. */
  function Uppercase(s: string): (u: string)
    ensures |u| == |s|
    ensures forall i :: 0 <= i < |u| ==> !IsLowerAscii(u[i])
    ensures forall i :: 0 <= i < |s| && IsLowerAscii(s[i]) ==> u[i] as int == s[i] as int - 32
    ensures forall i :: 0 <= i < |s| && !IsLowerAscii(s[i]) ==> u[i] == s[i]
  {
    seq(|s|, i requires 0 <= i < |s| => UpperChar(s[i]))
  }

  /** `init(string:)`: keeps the upper-cased string. */
  function FromString(s: string): (m: MACAddress)
    ensures m.stringValue == Uppercase(s)
    ensures |m.stringValue| == |s|
    ensures forall i :: 0 <= i < |s| ==> !IsLowerAscii(m.stringValue[i])
  {
    MACAddress(Uppercase(s))
  }

  /** Wrapping the string of an address again gives the same address. */
  lemma {:induction false} FromStringIdempotent(s: string)
    ensures FromString(FromString(s).stringValue) == FromString(s)
  {
    var u := Uppercase(s);
    assert Uppercase(u) == u;
  }

  /** A canonical MAC string has no lower-case letter, so upper-casing
      leaves it alone. */
  lemma {:induction false} UppercaseOfMACString(s: string)
    requires IsMACString(s)
    ensures Uppercase(s) == s
  {
    forall i | 0 <= i < |s|
      ensures !IsLowerAscii(s[i])
    {
      if i < 2 { assert s[i] == s[0..2][i]; }
      else if i == 2 {}
      else if i < 5 { assert s[i] == s[3..5][i - 3]; }
      else if i == 5 {}
      else if i < 8 { assert s[i] == s[6..8][i - 6]; }
      else if i == 8 {}
      else if i < 11 { assert s[i] == s[9..11][i - 9]; }
      else if i == 11 {}
      else if i < 14 { assert s[i] == s[12..14][i - 12]; }
      else if i == 14 {}
      else { assert s[i] == s[15..17][i - 15]; }
    }
  }

  /** `init(data:)`: six bytes give their canonical colon-separated hex
      string; any other count gives the all-zero address. */
  function FromData(data: seq<byte>): (m: MACAddress)
    ensures |data| == 6 ==> IsMACString(m.stringValue) && ParseHexColon(m.stringValue) == data
    ensures |data| != 6 ==> m.stringValue == "00:00:00:00:00:00"
  {
    if |data| == 6 then
      UppercaseOfMACString(HexColon(data));
      HexColonRoundTrip(data);
      MACAddress(Uppercase(HexColon(data)))
    else
      MACAddress("00:00:00:00:00:00")
  }

  /** `==`: the string forms agree. */
  function Equal(a: MACAddress, b: MACAddress): (r: bool)
    ensures r <==> a == b
  {
    a.stringValue == b.stringValue
  }

  lemma EqualIsEquivalence(a: MACAddress, b: MACAddress, c: MACAddress)
    ensures Equal(a, a)
    ensures Equal(a, b) ==> Equal(b, a)
    ensures Equal(a, b) && Equal(b, c) ==> Equal(a, c)
  {
  }

  /** `s.replacingOccurrences(of: ":", with: "")`: every colon dropped and
      every other character kept in order (`RemoveColonsLength`,
      `RemoveColonsAppend`). */
  function RemoveColons(s: string): (r: string)
    ensures ':' !in r
    ensures ':' !in s ==> r == s
    ensures |r| <= |s|
  {
    if s == [] then []
    else (if s[0] == ':' then [] else [s[0]]) + RemoveColons(s[1..])
  }

  /** Exactly the colons are dropped: the length falls by their number. */
  lemma {:induction false} RemoveColonsLength(s: string)
    ensures |RemoveColons(s)| == |s| - multiset(s)[':']
  {
    if s != [] {
      assert s == [s[0]] + s[1..];
      RemoveColonsLength(s[1..]);
    }
  }

  lemma {:induction false} RemoveColonsAppend(a: string, b: string)
    ensures RemoveColons(a + b) == RemoveColons(a) + RemoveColons(b)
  {
    if a != [] {
      var x := if a[0] == ':' then [] else [a[0]];
      var ra, rb := RemoveColons(a[1..]), RemoveColons(b);
      assert (a + b)[0] == a[0] && (a + b)[1..] == a[1..] + b;
      assert RemoveColons(a + b) == x + RemoveColons(a[1..] + b);
      RemoveColonsAppend(a[1..], b);
      assert RemoveColons(a) == x + ra;
      assert x + (ra + rb) == (x + ra) + rb;
    } else {
      assert a + b == b;
    }
  }

  /** The UTF-8 encoding of one Unicode scalar value: the shortest of the
      one- to four-byte forms that holds it, a lead byte marking the length
      followed by continuation bytes 10xxxxxx. */
  function Utf8Char(c: char): (e: seq<byte>)
    ensures |e| == 1 <==> c as int < 0x80
    ensures |e| == 2 <==> 0x80 <= c as int < 0x800
    ensures |e| == 3 <==> 0x800 <= c as int < 0x1_0000
    ensures |e| == 4 <==> 0x1_0000 <= c as int
    ensures |e| == 1 ==> e[0] == c as int
    ensures |e| == 2 ==> 0xC2 <= e[0] < 0xE0
    ensures |e| == 3 ==> 0xE0 <= e[0] < 0xF0
    ensures |e| == 4 ==> 0xF0 <= e[0] < 0xF5
    ensures forall k :: 1 <= k < |e| ==> 0x80 <= e[k] < 0xC0
  {
    var n := c as int;
    if n < 0x80 then [n]
    else if n < 0x800 then [0xC0 + n / 0x40, 0x80 + n % 0x40]
    else if n < 0x1_0000 then [0xE0 + n / 0x1000, 0x80 + n / 0x40 % 0x40, 0x80 + n % 0x40]
    else [0xF0 + n / 0x4_0000, 0x80 + n / 0x1000 % 0x40, 0x80 + n / 0x40 % 0x40, 0x80 + n % 0x40]
  }

  /** The scalar value a one- to four-byte UTF-8 sequence denotes: the
      payload bits of the lead byte followed by six bits per continuation
      byte. */
  function Utf8Scalar(e: seq<byte>): int
    requires 1 <= |e| <= 4
  {
    if |e| == 1 then e[0]
    else if |e| == 2 then (e[0] as int - 0xC0) * 0x40 + (e[1] as int - 0x80)
    else if |e| == 3 then (e[0] as int - 0xE0) * 0x1000 + (e[1] as int - 0x80) * 0x40 + (e[2] as int - 0x80)
    else (e[0] as int - 0xF0) * 0x4_0000 + (e[1] as int - 0x80) * 0x1000 + (e[2] as int - 0x80) * 0x40 + (e[3] as int - 0x80)
  }

  /** Six payload bits at a time: the quotients by 2^12 and 2^18 are
      repeated quotients by 2^6. */
  lemma SixBitGroups(n: nat)
    ensures n == n / 0x40 * 0x40 + n % 0x40
    ensures n / 0x1000 == n / 0x40 / 0x40
    ensures n / 0x4_0000 == n / 0x1000 / 0x40
  {
  }

  /** Decoding the encoding of a character gives the character back. */
  lemma Utf8CharRoundTrip(c: char)
    ensures Utf8Scalar(Utf8Char(c)) == c as int
  {
    var n := c as int;
    SixBitGroups(n);
    SixBitGroups(n / 0x40);
    SixBitGroups(n / 0x1000);
  }

  /** `data(using: .utf8)`: the UTF-8 encoding of a string, character by
      character. */
  function Utf8(s: string): (e: seq<byte>)
    ensures |e| >= |s|
    ensures |s| == 1 ==> e == Utf8Char(s[0])
  {
    if s == [] then [] else Utf8Char(s[0]) + Utf8(s[1..])
  }

  /** Encoding a concatenation concatenates the encodings. */
  lemma {:induction false} Utf8Append(a: string, b: string)
    ensures Utf8(a + b) == Utf8(a) + Utf8(b)
  {
    if a == [] {
      assert a + b == b;
    } else {
      assert (a + b)[0] == a[0] && (a + b)[1..] == a[1..] + b;
      Utf8Append(a[1..], b);
    }
  }

  /** On ASCII text UTF-8 is one byte per character, the character's code. */
  lemma {:induction false} Utf8OfAscii(s: string)
    requires forall i :: 0 <= i < |s| ==> s[i] as int < 0x80
    ensures |Utf8(s)| == |s|
    ensures forall i :: 0 <= i < |s| ==> Utf8(s)[i] == s[i] as int
  {
    if s != [] {
      Utf8OfAscii(s[1..]);
      assert Utf8(s) == [s[0] as int] + Utf8(s[1..]);
    }
  }

  /** `dataValue`: the UTF-8 bytes of the string with every ':' removed. */
  function DataValue(m: MACAddress): (d: seq<byte>)
    ensures |d| >= |RemoveColons(m.stringValue)|
  {
    Utf8(RemoveColons(m.stringValue))
  }

  /** The twelve hexadecimal digits of six bytes, without separators. */
  function HexDigits(data: seq<byte>): (s: string)
    requires |data| == 6
    ensures |s| == 12
    ensures forall i :: 0 <= i < 12 ==> IsUpperHexDigit(s[i])
  {
    Hex2(data[0]) + Hex2(data[1]) + Hex2(data[2]) + Hex2(data[3]) + Hex2(data[4]) + Hex2(data[5])
  }

  lemma RemoveColonsOfHexPair(p: string)
    requires IsHexPair(p)
    ensures RemoveColons(p) == p
  {
    assert p[1..][1..] == [];
  }

  /** Dropping the colons of six pairs joined by ':' leaves the pairs. */
  lemma RemoveColonsOfPairs(h0: string, h1: string, h2: string, h3: string, h4: string, h5: string)
    requires IsHexPair(h0) && IsHexPair(h1) && IsHexPair(h2)
    requires IsHexPair(h3) && IsHexPair(h4) && IsHexPair(h5)
    ensures RemoveColons(h0 + ":" + h1 + ":" + h2 + ":" + h3 + ":" + h4 + ":" + h5) == h0 + h1 + h2 + h3 + h4 + h5
  {
    RemoveColonsOfHexPair(h0);
    RemoveColonsOfHexPair(h1);
    RemoveColonsOfHexPair(h2);
    RemoveColonsOfHexPair(h3);
    RemoveColonsOfHexPair(h4);
    RemoveColonsOfHexPair(h5);
    assert RemoveColons(":") == "";
    var p1 := h0 + ":";
    RemoveColonsAppend(h0, ":");
    assert RemoveColons(p1) == h0;
    var p2 := p1 + h1;
    RemoveColonsAppend(p1, h1);
    var p3 := p2 + ":";
    RemoveColonsAppend(p2, ":");
    assert RemoveColons(p3) == h0 + h1;
    var p4 := p3 + h2;
    RemoveColonsAppend(p3, h2);
    var p5 := p4 + ":";
    RemoveColonsAppend(p4, ":");
    assert RemoveColons(p5) == h0 + h1 + h2;
    var p6 := p5 + h3;
    RemoveColonsAppend(p5, h3);
    var p7 := p6 + ":";
    RemoveColonsAppend(p6, ":");
    assert RemoveColons(p7) == h0 + h1 + h2 + h3;
    var p8 := p7 + h4;
    RemoveColonsAppend(p7, h4);
    var p9 := p8 + ":";
    RemoveColonsAppend(p8, ":");
    assert RemoveColons(p9) == h0 + h1 + h2 + h3 + h4;
    RemoveColonsAppend(p9, h5);
  }

  /** For an address built from six bytes, the string without its colons is
      the twelve hexadecimal digits. */
  lemma RemoveColonsOfFromData(data: seq<byte>)
    requires |data| == 6
    ensures RemoveColons(FromData(data).stringValue) == HexDigits(data)
  {
    var h0, h1, h2, h3, h4, h5 := Hex2(data[0]), Hex2(data[1]), Hex2(data[2]), Hex2(data[3]), Hex2(data[4]), Hex2(data[5]);
    assert FromData(data).stringValue == h0 + ":" + h1 + ":" + h2 + ":" + h3 + ":" + h4 + ":" + h5 by {
      UppercaseOfMACString(HexColon(data));
    }
    RemoveColonsOfPairs(h0, h1, h2, h3, h4, h5);
  }

  /** For an address built from six bytes, `dataValue` holds the ASCII codes
      of the twelve hexadecimal digits: twelve bytes, not the six raw ones. */
  lemma DataValueOfFromData(data: seq<byte>)
    requires |data| == 6
    ensures |DataValue(FromData(data))| == 12
    ensures forall i :: 0 <= i < 12 ==> DataValue(FromData(data))[i] == HexDigits(data)[i] as int
    ensures DataValue(FromData(data)) != data
  {
    var m := FromData(data);
    var h := HexDigits(data);
    RemoveColonsOfFromData(data);
    DataValueOfAscii(m, h);
  }

  /** When the string without colons is ASCII, `dataValue` is its character
      codes, one byte each. */
  lemma DataValueOfAscii(m: MACAddress, h: string)
    requires RemoveColons(m.stringValue) == h
    requires forall i :: 0 <= i < |h| ==> IsUpperHexDigit(h[i])
    ensures |DataValue(m)| == |h|
    ensures forall i :: 0 <= i < |h| ==> DataValue(m)[i] == h[i] as int
  {
    Utf8OfAscii(h);
  }
}
