/** The two `String(format:)` renderings the readers use: `%d` for the
    dotted-decimal IPv4 address and `%02X` joined by ':' for the MAC address,
    each with a parser that undoes it. */
module TextFormat {
  import opened DataExtension

  predicate IsDigit(c: char) {
    '0' <= c <= '9'
  }

  predicate IsUpperHexDigit(c: char) {
    '0' <= c <= '9' || 'A' <= c <= 'F'
  }

  /** The value of one decimal or upper-case hexadecimal digit. */
  function DigitValue(c: char): (d: int)
    ensures IsDigit(c) ==> 0 <= d < 10
    ensures IsUpperHexDigit(c) ==> 0 <= d < 16
  {
    if '0' <= c <= '9' then c as int - '0' as int else c as int - 'A' as int + 10
  }

  function DecimalDigit(d: nat): (c: char)
    requires d < 10
    ensures IsDigit(c) && DigitValue(c) == d
  {
    ('0' as int + d) as char
  }

  /** One upper-case hexadecimal digit, as `%X` writes it. */
  function HexDigit(d: nat): (c: char)
    requires d < 16
    ensures IsUpperHexDigit(c) && DigitValue(c) == d
  {
    if d < 10 then ('0' as int + d) as char else ('A' as int + d - 10) as char
  }

  /** `%d` of a non-negative number: its decimal digits, most significant
      first, with no leading zero. */
  function Decimal(n: nat): (s: string)
    ensures 1 <= |s|
    ensures forall i :: 0 <= i < |s| ==> IsDigit(s[i])
    ensures s[0] == '0' <==> n == 0
    ensures n < 10 ==> |s| == 1
    ensures n >= 10 ==> |s| >= 2
    ensures n < 100 ==> |s| <= 2
    ensures n < 1000 ==> |s| <= 3
  {
    if n < 10 then [DecimalDigit(n)] else Decimal(n / 10) + [DecimalDigit(n % 10)]
  }

  /** The number a string of decimal digits denotes. */
  function DecimalValue(s: string): int {
    if s == [] then 0 else 10 * DecimalValue(s[..|s| - 1]) + DigitValue(s[|s| - 1])
  }

  lemma {:induction false} DecimalRoundTrip(n: nat)
    ensures DecimalValue(Decimal(n)) == n
  {
    if n >= 10 {
      var s := Decimal(n);
      assert s[..|s| - 1] == Decimal(n / 10);
      DecimalRoundTrip(n / 10);
    }
  }

  /** `String(format: "%d.%d.%d.%d", a, b, c, d)`. */
  function DottedDecimal(a: byte, b: byte, c: byte, d: byte): (s: string)
    ensures 7 <= |s| <= 15
  {
    Decimal(a) + "." + Decimal(b) + "." + Decimal(c) + "." + Decimal(d)
  }

  /** The pieces of `s` between the occurrences of `sep`. */
  function Split(s: string, sep: char): (r: seq<string>)
    ensures |r| >= 1
  {
    if s == [] then [""]
    else
      var rest := Split(s[1..], sep);
      if s[0] == sep then [""] + rest else [[s[0]] + rest[0]] + rest[1..]
  }

  lemma {:induction false} SplitWithout(x: string, sep: char)
    requires sep !in x
    ensures Split(x, sep) == [x]
  {
    if x != [] {
      assert sep !in x[1..];
      SplitWithout(x[1..], sep);
      assert [x[0]] + x[1..] == x;
    }
  }

  lemma {:induction false} SplitAtFirst(x: string, sep: char, y: string)
    requires sep !in x
    ensures Split(x + [sep] + y, sep) == [x] + Split(y, sep)
  {
    var s := x + [sep] + y;
    if x == [] {
      assert s[0] == sep && s[1..] == y;
    } else {
      assert s[0] == x[0] && s[1..] == x[1..] + [sep] + y;
      assert sep !in x[1..];
      SplitAtFirst(x[1..], sep, y);
      assert [x[0]] + x[1..] == x;
    }
  }

  /** Reads a dotted-decimal string back into its numbers. */
  function ParseDottedDecimal(s: string): (r: seq<int>)
    ensures |r| == |Split(s, '.')|
  {
    var fields := Split(s, '.');
    seq(|fields|, i requires 0 <= i < |fields| => DecimalValue(fields[i]))
  }

  /** Four dot-free fields joined by '.' split back into those fields. */
  lemma SplitDotJoined(w: string, x: string, y: string, z: string)
    requires '.' !in w && '.' !in x && '.' !in y && '.' !in z
    ensures Split(w + "." + x + "." + y + "." + z, '.') == [w, x, y, z]
  {
    var t3 := y + ['.'] + z;
    var t2 := x + ['.'] + t3;
    var t1 := w + ['.'] + t2;
    assert w + "." + x + "." + y + "." + z == t1;
    SplitWithout(z, '.');
    SplitAtFirst(y, '.', z);
    SplitAtFirst(x, '.', t3);
    SplitAtFirst(w, '.', t2);
  }

  /** The dots of a dotted-decimal string are exactly its separators. */
  lemma DottedDecimalSplit(a: byte, b: byte, c: byte, d: byte)
    ensures Split(DottedDecimal(a, b, c, d), '.') == [Decimal(a), Decimal(b), Decimal(c), Decimal(d)]
  {
    NoDotInDecimal(a);
    NoDotInDecimal(b);
    NoDotInDecimal(c);
    NoDotInDecimal(d);
    SplitDotJoined(Decimal(a), Decimal(b), Decimal(c), Decimal(d));
  }

  lemma DottedDecimalRoundTrip(a: byte, b: byte, c: byte, d: byte)
    ensures ParseDottedDecimal(DottedDecimal(a, b, c, d)) == [a, b, c, d]
  {
    DottedDecimalSplit(a, b, c, d);
    DecimalRoundTrip(a);
    DecimalRoundTrip(b);
    DecimalRoundTrip(c);
    DecimalRoundTrip(d);
  }

  lemma NoDotInDecimal(n: nat)
    ensures '.' !in Decimal(n)
  {
  }

  /** `%02X` of one byte: exactly two upper-case hexadecimal digits. */
  function Hex2(b: byte): (s: string)
    ensures |s| == 2 && IsUpperHexDigit(s[0]) && IsUpperHexDigit(s[1])
    ensures 16 * DigitValue(s[0]) + DigitValue(s[1]) == b
  {
    [HexDigit(b / 16), HexDigit(b % 16)]
  }

  /** Two upper-case hexadecimal digits. */
  predicate IsHexPair(p: string) {
    |p| == 2 && IsUpperHexDigit(p[0]) && IsUpperHexDigit(p[1])
  }

  /** The byte two hexadecimal digits denote. */
  function HexPairValue(p: string): (b: byte)
    requires IsHexPair(p)
    ensures Hex2(b) == p
  {
    16 * DigitValue(p[0]) + DigitValue(p[1])
  }

  /** A MAC address in canonical form: six pairs of upper-case hexadecimal
      digits, separated by ':'. */
  predicate IsMACString(s: string) {
    |s| == 17 &&
    s[2] == ':' && s[5] == ':' && s[8] == ':' && s[11] == ':' && s[14] == ':' &&
    IsHexPair(s[0..2]) && IsHexPair(s[3..5]) && IsHexPair(s[6..8]) &&
    IsHexPair(s[9..11]) && IsHexPair(s[12..14]) && IsHexPair(s[15..17])
  }

  /** `String(format: "%02X:%02X:%02X:%02X:%02X:%02X", ...)` of six bytes. */
  function HexColon(v: seq<byte>): (s: string)
    requires |v| == 6
    ensures IsMACString(s)
    ensures s[0..2] == Hex2(v[0]) && s[3..5] == Hex2(v[1]) && s[6..8] == Hex2(v[2])
    ensures s[9..11] == Hex2(v[3]) && s[12..14] == Hex2(v[4]) && s[15..17] == Hex2(v[5])
  {
    Hex2(v[0]) + ":" + Hex2(v[1]) + ":" + Hex2(v[2]) + ":" + Hex2(v[3]) + ":" + Hex2(v[4]) + ":" + Hex2(v[5])
  }

  /** Two canonical MAC strings with the same six pairs are the same. */
  lemma SameMACString(s: string, t: string)
    requires IsMACString(s) && IsMACString(t)
    requires s[0..2] == t[0..2] && s[3..5] == t[3..5] && s[6..8] == t[6..8]
    requires s[9..11] == t[9..11] && s[12..14] == t[12..14] && s[15..17] == t[15..17]
    ensures s == t
  {
    forall i | 0 <= i < 17
      ensures s[i] == t[i]
    {
      if i < 2 { assert s[i] == s[0..2][i] && t[i] == t[0..2][i]; }
      else if i == 2 {}
      else if i < 5 { assert s[i] == s[3..5][i - 3] && t[i] == t[3..5][i - 3]; }
      else if i == 5 {}
      else if i < 8 { assert s[i] == s[6..8][i - 6] && t[i] == t[6..8][i - 6]; }
      else if i == 8 {}
      else if i < 11 { assert s[i] == s[9..11][i - 9] && t[i] == t[9..11][i - 9]; }
      else if i == 11 {}
      else if i < 14 { assert s[i] == s[12..14][i - 12] && t[i] == t[12..14][i - 12]; }
      else if i == 14 {}
      else { assert s[i] == s[15..17][i - 15] && t[i] == t[15..17][i - 15]; }
    }
  }

  /** Reads a canonical MAC string back into its six bytes. */
  function ParseHexColon(s: string): (v: seq<byte>)
    requires IsMACString(s)
    ensures |v| == 6
    ensures HexColon(v) == s
  {
    var v := [HexPairValue(s[0..2]), HexPairValue(s[3..5]), HexPairValue(s[6..8]),
              HexPairValue(s[9..11]), HexPairValue(s[12..14]), HexPairValue(s[15..17])];
    SameMACString(HexColon(v), s);
    v
  }

  lemma HexColonRoundTrip(v: seq<byte>)
    requires |v| == 6
    ensures ParseHexColon(HexColon(v)) == v
  {
  }
}
