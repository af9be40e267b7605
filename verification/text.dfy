/**
  String helpers the source gets from JavaScript's runtime: decimal rendering
  of a jersey number (template literals), `Number()` of an all-digit token,
  `String.prototype.split` on one separator, `startsWith`, and base-16
  rendering and parsing (`toString(16)` / `parseInt(_, 16)`).
 */
module Text {

  /* ---------------- decimal ---------------- */

  predicate IsDigit(c: char) {
    '0' <= c <= '9'
  }

  predicate AllDigits(s: string) {
    forall i :: 0 <= i < |s| ==> IsDigit(s[i])
  }

  function DigitChar(d: nat): (c: char)
    requires d < 10
    ensures IsDigit(c) && (c as int) - ('0' as int) == d
  {
    (('0' as int) + d) as char
  }

  /** The shortest decimal rendering of `n`, as JavaScript prints an integer. */
  function Decimal(n: nat): (s: string)
    ensures |s| >= 1 && AllDigits(s)
    ensures s[0] == '0' <==> n == 0
    decreases n
  {
    if n < 10 then [DigitChar(n)] else Decimal(n / 10) + [DigitChar(n % 10)]
  }

  /** The value of a string of decimal digits; the empty string is 0, as `Number("")` is. */
  function DigitsValue(s: string): nat
    requires AllDigits(s)
    decreases |s|
  {
    if |s| == 0 then 0
    else DigitsValue(s[..|s| - 1]) * 10 + ((s[|s| - 1] as int) - ('0' as int))
  }

  /** Rendering a number in decimal and reading it back gives the number. */
  lemma {:induction false} DecimalRoundTrip(n: nat)
    ensures DigitsValue(Decimal(n)) == n
    decreases n
  {
    if n >= 10 {
      DecimalRoundTrip(n / 10);
      var s := Decimal(n);
      assert s[..|s| - 1] == Decimal(n / 10);
    }
  }

  /** Different numbers render differently. */
  lemma DecimalInjective(m: nat, n: nat)
    requires Decimal(m) == Decimal(n)
    ensures m == n
  {
    DecimalRoundTrip(m);
    DecimalRoundTrip(n);
  }

  /* ---------------- prefixes and splitting ---------------- */

  predicate StartsWith(s: string, prefix: string) {
    |prefix| <= |s| && s[..|prefix|] == prefix
  }

  /**
    `s.split(sep)` for a one-character separator: the maximal
    separator-free pieces, left to right; always at least one piece.
   */
  function Split(s: string, sep: char): (parts: seq<string>)
    ensures |parts| >= 1
    ensures Join(parts, sep) == s
    ensures forall k :: 0 <= k < |parts| ==> sep !in parts[k]
    decreases |s|
  {
    if |s| == 0 then [""]
    else
      var rest := Split(s[1..], sep);
      assert [s[0]] + s[1..] == s;
      if s[0] == sep then
        assert ([""] + rest)[1..] == rest;
        [""] + rest
      else
        JoinConsHead(s[0], rest, sep);
        [[s[0]] + rest[0]] + rest[1..]
  }

  /** The pieces glued back together with the separator between them: the inverse of `Split`. */
  function Join(parts: seq<string>, sep: char): string
    requires |parts| >= 1
    decreases |parts|
  {
    if |parts| == 1 then parts[0] else parts[0] + [sep] + Join(parts[1..], sep)
  }

  /** Prefixing the first piece with a character prefixes the joined string with it. */
  lemma JoinConsHead(c: char, parts: seq<string>, sep: char)
    requires |parts| >= 1
    ensures Join([[c] + parts[0]] + parts[1..], sep) == [c] + Join(parts, sep)
  {
    var q := [[c] + parts[0]] + parts[1..];
    if |parts| > 1 {
      assert q[1..] == parts[1..];
    }
  }

  /** A string with no separator splits into itself alone. */
  lemma {:induction false} SplitNoSeparator(s: string, sep: char)
    requires sep !in s
    ensures Split(s, sep) == [s]
    decreases |s|
  {
    if |s| > 0 {
      SplitNoSeparator(s[1..], sep);
      assert [s[0]] + s[1..] == s;
    }
  }

  /** The piece before the first separator is split off intact. */
  lemma {:induction false} SplitHead(a: string, sep: char, b: string)
    requires sep !in a
    ensures Split(a + [sep] + b, sep) == [a] + Split(b, sep)
    decreases |a|
  {
    if |a| == 0 {
      assert a + [sep] + b == [sep] + b;
      assert ([sep] + b)[1..] == b;
    } else {
      SplitHead(a[1..], sep, b);
      assert (a + [sep] + b)[1..] == a[1..] + [sep] + b;
      assert [a[0]] + a[1..] == a;
    }
  }

  /* ---------------- hexadecimal ---------------- */

  const HexDigits: string := "0123456789abcdef"

  /** A lower-case hexadecimal digit character. */
  predicate IsLowerHex(c: char) {
    c in HexDigits
  }

  predicate IsHexChar(c: char) {
    '0' <= c <= '9' || 'a' <= c <= 'f' || 'A' <= c <= 'F'
  }

  predicate AllHex(s: string) {
    forall i :: 0 <= i < |s| ==> IsHexChar(s[i])
  }

  function HexValue(c: char): (d: nat)
    requires IsHexChar(c)
    ensures d < 16
  {
    if '0' <= c <= '9' then (c as int) - ('0' as int)
    else if 'a' <= c <= 'f' then (c as int) - ('a' as int) + 10
    else (c as int) - ('A' as int) + 10
  }

  function HexChar(d: nat): (c: char)
    requires d < 16
    ensures IsLowerHex(c) && IsHexChar(c) && HexValue(c) == d
  {
    HexDigits[d]
  }

  /** `n.toString(16)`: the shortest lower-case base-16 rendering of `n`. */
  function ToHex(n: nat): (s: string)
    ensures |s| >= 1
    decreases n
  {
    if n < 16 then [HexChar(n)] else ToHex(n / 16) + [HexChar(n % 16)]
  }

  function Pow16(k: nat): (p: nat)
    ensures p >= 1
  {
    if k == 0 then 1 else 16 * Pow16(k - 1)
  }

  /** Exactly `k` lower-case base-16 digits of `v`, most significant first, zero-padded. */
  function FixedHex(v: nat, k: nat): (s: string)
    ensures |s| == k
    ensures forall i :: 0 <= i < |s| ==> IsLowerHex(s[i]) && IsHexChar(s[i])
  {
    if k == 0 then [] else FixedHex(v / 16, k - 1) + [HexChar(v % 16)]
  }

  /** The value of a string of base-16 digits of either case; the empty string is 0. */
  function ParseHex(s: string): nat
    requires AllHex(s)
    decreases |s|
  {
    if |s| == 0 then 0 else ParseHex(s[..|s| - 1]) * 16 + HexValue(s[|s| - 1])
  }

  /**
    The padding idiom `(16^k + v).toString(16).slice(1)`: rendering
    `16^k + v` yields a leading "1" followed by the k-digit rendering of v.
   */
  lemma {:induction false} ToHexOfOffset(v: nat, k: nat)
    requires v < Pow16(k)
    ensures ToHex(Pow16(k) + v) == ['1'] + FixedHex(v, k)
    decreases k
  {
    if k == 0 {
      assert v == 0;
    } else {
      var p := Pow16(k - 1);
      assert Pow16(k) == 16 * p;
      var n := 16 * p + v;
      DivModShift(p, v);
      assert v / 16 < p by { DivBound(v, p); }
      ToHexOfOffset(v / 16, k - 1);
      var head := ToHex(p + v / 16);
      assert head == ['1'] + FixedHex(v / 16, k - 1);
      assert n >= 16;
      assert ToHex(n) == head + [HexChar(v % 16)];
      assert FixedHex(v, k) == FixedHex(v / 16, k - 1) + [HexChar(v % 16)];
    }
  }

  lemma DivBound(v: nat, p: nat)
    requires v < 16 * p
    ensures v / 16 < p
  {
  }

  lemma DivModShift(a: nat, v: nat)
    ensures (16 * a + v) / 16 == a + v / 16
    ensures (16 * a + v) % 16 == v % 16
  {
    var q, r := v / 16, v % 16;
    assert v == 16 * q + r;
    assert 16 * a + v == 16 * (a + q) + r;
  }

  /** Reading back a k-digit rendering gives the value, when it fits in k digits. */
  lemma {:induction false} ParseFixedHex(v: nat, k: nat)
    requires v < Pow16(k)
    ensures ParseHex(FixedHex(v, k)) == v
    decreases k
  {
    if k > 0 {
      var s := FixedHex(v, k);
      assert s[..|s| - 1] == FixedHex(v / 16, k - 1);
      assert v / 16 < Pow16(k - 1);
      ParseFixedHex(v / 16, k - 1);
    }
  }
}
