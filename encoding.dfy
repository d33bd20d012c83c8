/**
 * Text and byte encodings the router macros rely on: decimal rendering of
 * integers (Swift's "\(n)" interpolation), `joined(separator:)`, the UTF-8
 * and UTF-16 views of a String, and `UInt8(String)` parsing.
 */
module Encoding {
  import opened Wrappers

  /** Swift `UInt8`. */
  type byte = x: int | 0 <= x < 0x100

  /** Swift `UInt16`. */
  type uint16 = x: int | 0 <= x < 0x1_0000

  function Min(a: int, b: int): int { if a < b then a else b }

  // ---------------------------------------------------------------------
  // Decimal numerals
  // ---------------------------------------------------------------------

  predicate IsDigit(c: char) { '0' <= c <= '9' }

  predicate AllDigits(s: string) { forall i | 0 <= i < |s| :: IsDigit(s[i]) }

  function DigitChar(d: nat): (c: char)
    requires d < 10
    ensures IsDigit(c)
  {
    ('0' as int + d) as char
  }

  function DigitValue(c: char): (d: nat)
    requires IsDigit(c)
    ensures d < 10
  {
    c as int - '0' as int
  }

  /** The text of `"\(n)"` for a non-negative integer: digits, no leading zero. */
  function Decimal(n: nat): (s: string)
    ensures s != [] && AllDigits(s)
    ensures s[0] == '0' ==> n == 0
    decreases n
  {
    if n < 10 then [DigitChar(n)] else Decimal(n / 10) + [DigitChar(n % 10)]
  }

  /** The value of a string of decimal digits (most significant first). */
  function ParseDecimal(s: string): nat
    requires AllDigits(s)
  {
    if s == [] then 0 else 10 * ParseDecimal(s[..|s| - 1]) + DigitValue(s[|s| - 1])
  }

  /** Reading back a rendered numeral gives the number. */
  lemma {:induction false} DecimalRoundTrip(n: nat)
    ensures ParseDecimal(Decimal(n)) == n
    decreases n
  {
    if n >= 10 {
      var s := Decimal(n);
      assert s[..|s| - 1] == Decimal(n / 10);
      DecimalRoundTrip(n / 10);
    }
  }

  /** `UInt8(text)`: a decimal numeral whose value fits in 0...255, or nil. */
  function ParseUInt8(text: string): (r: Option<byte>)
    ensures r.Some? ==> text != [] && AllDigits(text) && r.value == ParseDecimal(text)
    ensures text != [] && AllDigits(text) && ParseDecimal(text) < 0x100 ==> r.Some?
  {
    if text != [] && AllDigits(text) && ParseDecimal(text) < 0x100 then Some(ParseDecimal(text)) else None
  }

  /** Every byte's rendering parses back to that byte. */
  lemma ParseUInt8Decimal(b: byte)
    ensures ParseUInt8(Decimal(b)) == Some(b)
  {
    DecimalRoundTrip(b);
  }

  /** `k` zero digits. */
  function ZeroDigits(k: nat): (s: string)
    ensures |s| == k && AllDigits(s)
  {
    seq(k, _ => '0')
  }

  /** Every digit string is the rendering of its value after some leading zeros. */
  lemma {:induction false} LeadingZeros(s: string) returns (k: nat)
    requires s != [] && AllDigits(s)
    ensures k < |s| && s == ZeroDigits(k) + Decimal(ParseDecimal(s))
    decreases |s|
  {
    var init, d := s[..|s| - 1], s[|s| - 1];
    assert s == init + [d];
    var dv := DigitValue(d);
    assert DigitChar(dv) == d;
    if init == [] {
      k := 0;
      assert ParseDecimal(s) == dv;
    } else {
      var j := LeadingZeros(init);
      var v := ParseDecimal(init);
      assert ParseDecimal(s) == 10 * v + dv;
      if v == 0 {
        k := j + 1;
        assert init == ZeroDigits(j) + ['0'];
        assert init == ZeroDigits(j + 1);
      } else {
        k := j;
        assert (10 * v + dv) / 10 == v && (10 * v + dv) % 10 == dv;
        assert Decimal(10 * v + dv) == Decimal(v) + [d];
      }
    }
  }

  /** `UInt8(text)` accepts only the numeral of a byte, possibly after leading zeros. */
  lemma ParseUInt8Canonical(text: string) returns (k: nat)
    requires ParseUInt8(text).Some?
    ensures k < |text| && text == ZeroDigits(k) + Decimal(ParseUInt8(text).value)
  {
    k := LeadingZeros(text);
  }

  /** The renderings of a list of numbers, one numeral per element. */
  function Decimals(xs: seq<nat>): (ds: seq<string>)
    ensures |ds| == |xs|
    ensures forall i | 0 <= i < |xs| :: ds[i] == Decimal(xs[i])
  {
    seq(|xs|, i requires 0 <= i < |xs| => Decimal(xs[i]))
  }

  lemma DecimalsInjective(xs: seq<nat>, ys: seq<nat>)
    requires Decimals(xs) == Decimals(ys)
    ensures xs == ys
  {
    assert |xs| == |ys|;
    forall i | 0 <= i < |xs| ensures xs[i] == ys[i] {
      DecimalRoundTrip(xs[i]);
      DecimalRoundTrip(ys[i]);
    }
  }

  // ---------------------------------------------------------------------
  // joined(separator:)
  // ---------------------------------------------------------------------

  /** Swift's `parts.joined(separator: sep)`. */
  function Join(parts: seq<string>, sep: string): string
  {
    if parts == [] then "" else if |parts| == 1 then parts[0] else parts[0] + sep + Join(parts[1..], sep)
  }

  lemma {:induction false} JoinAppend(parts: seq<string>, last: string, sep: string)
    requires parts != []
    ensures Join(parts + [last], sep) == Join(parts, sep) + sep + last
  {
    if |parts| > 1 {
      assert (parts + [last])[1..] == parts[1..] + [last];
      JoinAppend(parts[1..], last, sep);
    }
  }

  /** Joining a non-empty list of non-empty parts gives a non-empty string. */
  lemma JoinNonEmpty(parts: seq<string>, sep: string)
    requires parts != [] && parts[0] != []
    ensures Join(parts, sep) != [] && Join(parts, sep)[0] == parts[0][0]
  {
  }

  /** Each part is a non-empty numeral. */
  predicate Numerals(parts: seq<string>)
  {
    forall i | 0 <= i < |parts| :: parts[i] != [] && AllDigits(parts[i])
  }

  /** A separator that cannot be mistaken for part of a numeral. */
  predicate Separator(sep: string) { sep != [] && !IsDigit(sep[0]) }

  /** In a join of numerals, the first part is exactly the leading run of digits. */
  lemma JoinHead(parts: seq<string>, sep: string)
    requires parts != [] && Numerals(parts) && Separator(sep)
    ensures |Join(parts, sep)| >= |parts[0]|
    ensures Join(parts, sep)[..|parts[0]|] == parts[0]
    ensures |parts| == 1 <==> |Join(parts, sep)| == |parts[0]|
    ensures |parts| > 1 ==> !IsDigit(Join(parts, sep)[|parts[0]|])
    ensures |parts| > 1 ==> Join(parts, sep)[|parts[0]| + |sep|..] == Join(parts[1..], sep)
  {
    if |parts| > 1 {
      var s := Join(parts, sep);
      assert s == parts[0] + sep + Join(parts[1..], sep);
      assert s[|parts[0]|] == sep[0];
    }
  }

  /** Joining numerals with a non-digit separator loses nothing: the parts can be recovered. */
  lemma {:induction false} JoinInjective(a: seq<string>, b: seq<string>, sep: string)
    requires Numerals(a) && Numerals(b) && Separator(sep)
    requires Join(a, sep) == Join(b, sep)
    ensures a == b
    decreases |a|
  {
    var s := Join(a, sep);
    if a == [] || b == [] {
      if a != [] { JoinNonEmpty(a, sep); }
      if b != [] { JoinNonEmpty(b, sep); }
    } else {
      var x, y := a[0], b[0];
      JoinHead(a, sep);
      JoinHead(b, sep);
      assert x == y;
      if |a| > 1 {
        JoinInjective(a[1..], b[1..], sep);
        assert a == [x] + a[1..] && b == [y] + b[1..];
      }
    }
  }

  // ---------------------------------------------------------------------
  // String.utf8 and String.utf16
  // ---------------------------------------------------------------------

  /** The UTF-8 encoding of one Unicode scalar value. */
  function Utf8Scalar(c: char): (bs: seq<byte>)
    ensures 1 <= |bs| <= 4
    ensures |bs| == 1 <==> c as int < 0x80
    ensures |bs| == 1 ==> bs[0] == c as int
    ensures bs[0] != 0 || c == 0 as char
  {
    var v := c as int;
    if v < 0x80 then [v]
    else if v < 0x800 then [0xC0 + v / 0x40, 0x80 + v % 0x40]
    else if v < 0x1_0000 then [0xE0 + v / 0x1000, 0x80 + (v / 0x40) % 0x40, 0x80 + v % 0x40]
    else [0xF0 + v / 0x4_0000, 0x80 + (v / 0x1000) % 0x40, 0x80 + (v / 0x40) % 0x40, 0x80 + v % 0x40]
  }

  /** `String.utf8`: the concatenated UTF-8 encodings of the characters. */
  function Utf8(s: string): (bs: seq<byte>)
    ensures |bs| >= |s|
  {
    if s == [] then [] else Utf8Scalar(s[0]) + Utf8(s[1..])
  }

  /** The UTF-8 view of a concatenation is the concatenation of the views. */
  lemma {:induction false} Utf8Concat(s: string, t: string)
    ensures Utf8(s + t) == Utf8(s) + Utf8(t)
  {
    if s != [] {
      assert (s + t)[0] == s[0] && (s + t)[1..] == s[1..] + t;
      Utf8Concat(s[1..], t);
    } else {
      assert s + t == t;
    }
  }

  predicate IsAscii(s: string) { forall i | 0 <= i < |s| :: s[i] as int < 0x80 }

  /** On ASCII text, UTF-8 is the identity on code points. */
  lemma {:induction false} Utf8Ascii(s: string)
    requires IsAscii(s)
    ensures |Utf8(s)| == |s|
    ensures forall i | 0 <= i < |s| :: Utf8(s)[i] == s[i] as int
  {
    if s != [] {
      Utf8Ascii(s[1..]);
      assert Utf8(s) == [s[0] as int] + Utf8(s[1..]);
    }
  }

  /** The UTF-16 encoding of one Unicode scalar value (a surrogate pair above U+FFFF). */
  function Utf16Scalar(c: char): (us: seq<uint16>)
    ensures |us| == (if c as int < 0x1_0000 then 1 else 2)
    ensures |us| == 1 ==> us[0] == c as int
  {
    var v := c as int;
    if v < 0x1_0000 then [v] else [0xD800 + (v - 0x1_0000) / 0x400, 0xDC00 + (v - 0x1_0000) % 0x400]
  }

  /** `String.utf16`. */
  function Utf16(s: string): seq<uint16>
  {
    if s == [] then [] else Utf16Scalar(s[0]) + Utf16(s[1..])
  }
}
