/**
 * String helpers with the meaning the JavaScript built-ins give them:
 * the regular-expression character classes `\d`, `\w` and `\s`, ASCII case
 * mapping, `trim`, `split(/\s+/)`, `includes`, decimal rendering of numbers
 * and `parseInt`.
 */
module JsText {
  import opened Wrappers

  // ---------------------------------------------------------------------
  // Character classes

  /** `\d` */
  predicate IsDigit(c: char) { '0' <= c <= '9' }

  predicate IsUpperLetter(c: char) { 'A' <= c <= 'Z' }

  predicate IsLowerLetter(c: char) { 'a' <= c <= 'z' }

  /** `[a-zA-Z]` */
  predicate IsLetter(c: char) { IsUpperLetter(c) || IsLowerLetter(c) }

  /** `\w` */
  predicate IsWordChar(c: char) { IsLetter(c) || IsDigit(c) || c == '_' }

  /** `\s`: the ECMAScript white-space and line-terminator characters. */
  predicate IsSpace(c: char) {
    c == '\t' || c == '\n' || c == '\U{000B}' || c == '\U{000C}' || c == '\r' || c == ' '
    || c == '\U{00A0}' || c == '\U{1680}' || ('\U{2000}' <= c <= '\U{200A}')
    || c == '\U{2028}' || c == '\U{2029}' || c == '\U{202F}' || c == '\U{205F}'
    || c == '\U{3000}' || c == '\U{FEFF}'
  }

  predicate AllDigits(s: string) { forall i :: 0 <= i < |s| ==> IsDigit(s[i]) }

  // ---------------------------------------------------------------------
  // ASCII case mapping

  function UpperChar(c: char): (r: char)
    ensures !IsLowerLetter(r)
    ensures IsLetter(c) <==> IsLetter(r)
    ensures IsWordChar(c) <==> IsWordChar(r)
    ensures IsSpace(c) <==> IsSpace(r)
  {
    if IsLowerLetter(c) then (c as int - 32) as char else c
  }

  function LowerChar(c: char): (r: char)
    ensures !IsUpperLetter(r)
    ensures IsLetter(c) <==> IsLetter(r)
    ensures IsWordChar(c) <==> IsWordChar(r)
    ensures IsSpace(c) <==> IsSpace(r)
  {
    if IsUpperLetter(c) then (c as int + 32) as char else c
  }

  /** `toUpperCase`, ASCII letters only. */
  function Upper(s: string): (r: string)
    ensures |r| == |s|
    ensures forall i :: 0 <= i < |s| ==> r[i] == UpperChar(s[i])
  {
    seq(|s|, i requires 0 <= i < |s| => UpperChar(s[i]))
  }

  /** `toLowerCase`, ASCII letters only. */
  function Lower(s: string): (r: string)
    ensures |r| == |s|
    ensures forall i :: 0 <= i < |s| ==> r[i] == LowerChar(s[i])
  {
    seq(|s|, i requires 0 <= i < |s| => LowerChar(s[i]))
  }

  // ---------------------------------------------------------------------
  // Searching, trimming and splitting

  /** `s.includes(sub)` */
  predicate Contains(s: string, sub: string) {
    exists i :: 0 <= i <= |s| && StartsWith(s[i..], sub)
  }

  /** `s.startsWith(p)` */
  predicate StartsWith(s: string, p: string) { |p| <= |s| && s[..|p|] == p }

  function TrimStart(s: string): (r: string)
    ensures |r| <= |s| && r == s[|s| - |r|..]
    ensures r == [] || !IsSpace(r[0])
  {
    if s != [] && IsSpace(s[0]) then TrimStart(s[1..]) else s
  }

  function TrimEnd(s: string): (r: string)
    ensures |r| <= |s| && r == s[..|r|]
    ensures r == [] || !IsSpace(r[|r| - 1])
  {
    if s != [] && IsSpace(s[|s| - 1]) then TrimEnd(s[..|s| - 1]) else s
  }

  /** `s.trim()` */
  function Trim(s: string): (r: string)
    ensures |r| <= |s|
    ensures r == [] || (!IsSpace(r[0]) && !IsSpace(r[|r| - 1]))
  {
    var t := TrimStart(s);
    var r := TrimEnd(t);
    assert r != [] ==> r[0] == t[0];
    r
  }

  /** `s.slice(0, k)`: a negative `k` counts from the end. */
  function SliceTo(s: string, k: int): (r: string)
    ensures |r| == if k < 0 then (if |s| + k > 0 then |s| + k else 0) else (if k < |s| then k else |s|)
    ensures r == s[..|r|]
  {
    if k < 0 then (if |s| + k > 0 then s[..|s| + k] else [])
    else if k < |s| then s[..k] else s
  }

  /** The position of the first white-space character of `s`, or `|s|`. */
  function SpaceAt(s: string): (k: nat)
    ensures k <= |s|
    ensures forall i {:trigger IsSpace(s[i])} :: 0 <= i < k ==> !IsSpace(s[i])
    ensures k < |s| ==> IsSpace(s[k])
  {
    if s == [] || IsSpace(s[0]) then 0 else 1 + SpaceAt(s[1..])
  }

  /**
   * `s.split(/\s+/)` for a string that does not start with white space:
   * the maximal runs of non-space characters between white-space runs.
   * The empty string gives `[""]`, as in JavaScript.
   */
  function SplitSpaces(s: string): (parts: seq<string>)
    requires s == [] || !IsSpace(s[0])
    ensures |parts| >= 1
    ensures forall i :: 0 <= i < |parts| ==> forall j :: 0 <= j < |parts[i]| ==> !IsSpace(parts[i][j])
    ensures parts[0] == s[..SpaceAt(s)]
    decreases |s|
  {
    var k := SpaceAt(s);
    if k == |s| then [s]
    else
      var rest := TrimStart(s[k..]);
      [s[..k]] + SplitSpaces(rest)
  }

  /** Splitting a trimmed, non-empty string gives no empty part. */
  lemma {:induction false} SplitSpacesNonEmpty(s: string)
    requires s != [] && !IsSpace(s[0]) && !IsSpace(s[|s| - 1])
    ensures forall i :: 0 <= i < |SplitSpaces(s)| ==> SplitSpaces(s)[i] != []
    decreases |s|
  {
    var k := SpaceAt(s);
    if k < |s| {
      var rest := TrimStart(s[k..]);
      SplitRest(s);
      SplitSpacesNonEmpty(rest);
      var parts := SplitSpaces(s);
      var later := SplitSpaces(rest);
      assert parts == [s[..k]] + later;
      forall i | 0 <= i < |parts| ensures parts[i] != [] {
        if i > 0 {
          assert parts[i] == later[i - 1];
        }
      }
    }
  }

  /** What remains after a trimmed string's first word is again trimmed, non-empty and shorter. */
  lemma SplitRest(s: string)
    requires s != [] && !IsSpace(s[0]) && !IsSpace(s[|s| - 1]) && SpaceAt(s) < |s|
    ensures var rest := TrimStart(s[SpaceAt(s)..]);
      rest != [] && !IsSpace(rest[0]) && !IsSpace(rest[|rest| - 1]) && |rest| < |s|
  {
    var k := SpaceAt(s);
    var t := s[k..];
    assert t[|t| - 1] == s[|s| - 1];
    TrimStartLast(t);
    assert k > 0;
  }

  /** Trimming the start of a string that ends in a non-space character keeps that character. */
  lemma {:induction false} TrimStartLast(t: string)
    requires t != [] && !IsSpace(t[|t| - 1])
    ensures TrimStart(t) != [] && TrimStart(t)[|TrimStart(t)| - 1] == t[|t| - 1]
    decreases |t|
  {
    if IsSpace(t[0]) {
      assert t[1..][|t[1..]| - 1] == t[|t| - 1];
      TrimStartLast(t[1..]);
    }
  }

  /** A string without white space is one part. */
  lemma SplitOneWord(w: string)
    requires forall i :: 0 <= i < |w| ==> !IsSpace(w[i])
    ensures w == [] || !IsSpace(w[0])
    ensures SplitSpaces(w) == [w]
  {
    SpaceAtNone(w);
  }

  lemma {:induction false} SpaceAtNone(w: string)
    requires forall i :: 0 <= i < |w| ==> !IsSpace(w[i])
    ensures SpaceAt(w) == |w|
    decreases |w|
  {
    if w != [] {
      SpaceAtNone(w[1..]);
    }
  }

  // ---------------------------------------------------------------------
  // Decimal numbers

  function DigitChar(d: nat): (c: char)
    requires d < 10
    ensures IsDigit(c)
  {
    ('0' as int + d) as char
  }

  function DigitValue(c: char): (d: nat)
    requires IsDigit(c)
    ensures d < 10 && DigitChar(d) == c
  {
    (c as int - '0' as int)
  }

  /** Decimal rendering of a natural number, as `String(n)` gives it. */
  function NatToString(n: nat): (s: string)
    ensures s != [] && AllDigits(s)
    ensures s[0] == '0' ==> n == 0
  {
    if n < 10 then [DigitChar(n)] else NatToString(n / 10) + [DigitChar(n % 10)]
  }

  function IntToString(n: int): (s: string)
    ensures s != []
  {
    if n < 0 then "-" + NatToString(-n) else NatToString(n)
  }

  /** The value of a non-empty digit string. */
  function DigitsValue(s: string): (n: nat)
    requires AllDigits(s)
  {
    if s == [] then 0 else DigitsValue(s[..|s| - 1]) * 10 + DigitValue(s[|s| - 1])
  }

  /**
   * The array index a property key names: a canonical decimal string
   * (no sign, no leading zero except "0" itself).
   */
  function ParseIndex(key: string): (r: Option<nat>)
    ensures r.Some? ==> NatToString(r.value) == key
  {
    if key != [] && AllDigits(key) && (key[0] != '0' || |key| == 1) then
      CanonicalDigits(key);
      Some(DigitsValue(key))
    else None
  }

  lemma {:induction false} CanonicalDigits(s: string)
    requires s != [] && AllDigits(s) && (s[0] != '0' || |s| == 1)
    ensures NatToString(DigitsValue(s)) == s
    decreases |s|
  {
    if |s| == 1 {
    } else {
      var p := s[..|s| - 1];
      assert p[0] == s[0];
      CanonicalDigits(p);
      var d := DigitValue(s[|s| - 1]);
      assert DigitsValue(s) == DigitsValue(p) * 10 + d;
      LeadingDigitNonZero(p);
      assert (DigitsValue(p) * 10 + d) / 10 == DigitsValue(p);
      assert (DigitsValue(p) * 10 + d) % 10 == d;
    }
  }

  lemma {:induction false} LeadingDigitNonZero(s: string)
    requires s != [] && AllDigits(s) && s[0] != '0'
    ensures DigitsValue(s) > 0
    decreases |s|
  {
    if |s| > 1 {
      LeadingDigitNonZero(s[..|s| - 1]);
    }
  }

  /** Rendering then parsing an index gives the index back. */
  lemma {:induction false} ParseIndexOfNatToString(n: nat)
    ensures ParseIndex(NatToString(n)) == Some(n)
  {
    var s := NatToString(n);
    assert s[0] != '0' || |s| == 1 by {
      if s[0] == '0' && |s| > 1 {
        assert n == 0;
      }
    }
    NatToStringValue(n);
  }

  lemma {:induction false} NatToStringValue(n: nat)
    ensures DigitsValue(NatToString(n)) == n
  {
    if n >= 10 {
      NatToStringValue(n / 10);
      var s := NatToString(n);
      assert s[..|s| - 1] == NatToString(n / 10);
    }
  }

  lemma NatToStringInjective(a: nat, b: nat)
    requires NatToString(a) == NatToString(b)
    ensures a == b
  {
    ParseIndexOfNatToString(a);
    ParseIndexOfNatToString(b);
  }

  /**
   * `parseInt(s)` with its radix guess: leading white space, an optional
   * sign, a `0x`/`0X` prefix selecting base 16, then the longest run of
   * digits of the base. No digits give NaN, here `None`.
   */
  function ParseInt(s: string): (r: Option<int>)
  {
    var t := TrimStart(s);
    var neg := t != [] && t[0] == '-';
    var u := if t != [] && (t[0] == '-' || t[0] == '+') then t[1..] else t;
    var hex := |u| >= 2 && u[0] == '0' && (u[1] == 'x' || u[1] == 'X');
    var body := if hex then u[2..] else u;
    var base := if hex then 16 else 10;
    var k := DigitRun(body, base);
    if k == 0 then None
    else
      var v: int := RunValue(body[..k], base);
      var n: int := if neg then -v else v;
      Some(n)
  }

  function HexDigitValue(c: char): (d: int)
    ensures -1 <= d < 16
  {
    if IsDigit(c) then c as int - '0' as int
    else if 'a' <= c <= 'f' then c as int - 'a' as int + 10
    else if 'A' <= c <= 'F' then c as int - 'A' as int + 10
    else -1
  }

  predicate IsDigitIn(c: char, base: nat) { 0 <= HexDigitValue(c) < base }

  function DigitRun(s: string, base: nat): (k: nat)
    ensures k <= |s|
    ensures forall i :: 0 <= i < k ==> IsDigitIn(s[i], base)
    ensures k < |s| ==> !IsDigitIn(s[k], base)
  {
    if s != [] && IsDigitIn(s[0], base) then 1 + DigitRun(s[1..], base) else 0
  }

  function RunValue(s: string, base: nat): (n: nat)
    requires forall i :: 0 <= i < |s| ==> IsDigitIn(s[i], base)
  {
    if s == [] then 0
    else
      var last := s[|s| - 1];
      assert IsDigitIn(last, base);
      RunValue(s[..|s| - 1], base) * base + HexDigitValue(last)
  }

  lemma {:induction false} DigitsRunValue(s: string)
    requires AllDigits(s)
    ensures forall i :: 0 <= i < |s| ==> IsDigitIn(s[i], 10)
    ensures RunValue(s, 10) == DigitsValue(s)
    decreases |s|
  {
    if s != [] {
      DigitsRunValue(s[..|s| - 1]);
    }
  }

  /** `parseInt` reads back the decimal rendering of a natural number. */
  lemma ParseIntOfNatToString(n: nat)
    ensures ParseInt(NatToString(n)) == Some(n)
  {
    var s := NatToString(n);
    assert !IsSpace(s[0]);
    assert TrimStart(s) == s;
    assert !(s[0] == '-' || s[0] == '+');
    assert !(|s| >= 2 && s[0] == '0');
    DigitsRunValue(s);
    DigitRunAll(s, 10);
    assert s[..|s|] == s;
    NatToStringValue(n);
  }

  /** `parseInt` of a non-empty digit string is its decimal value, leading zeros and all. */
  lemma ParseIntDigits(s: string)
    requires s != [] && AllDigits(s)
    ensures ParseInt(s) == Some(DigitsValue(s))
  {
    assert !IsSpace(s[0]);
    assert TrimStart(s) == s;
    assert !(s[0] == '-' || s[0] == '+');
    assert !(|s| >= 2 && (s[1] == 'x' || s[1] == 'X'));
    DigitsRunValue(s);
    DigitRunAll(s, 10);
    assert s[..|s|] == s;
  }

  lemma {:induction false} DigitRunAll(s: string, base: nat)
    requires forall i :: 0 <= i < |s| ==> IsDigitIn(s[i], base)
    ensures DigitRun(s, base) == |s|
    decreases |s|
  {
    if s != [] {
      DigitRunAll(s[1..], base);
    }
  }

  /**
   * `String(n)` for a number: integral values exactly; a fractional part
   * is written out digit by digit, at most `FractionDigits` digits.
   */
  const FractionDigits: nat := 20

  function RealToString(x: real): (s: string)
    ensures s != []
  {
    if x < 0.0 then "-" + NonNegRealToString(-x) else NonNegRealToString(x)
  }

  function NonNegRealToString(x: real): (s: string)
    requires x >= 0.0
    ensures s != []
  {
    var whole := x.Floor;
    var frac := x - whole as real;
    NatToString(whole) + (if frac == 0.0 then "" else "." + FractionText(frac, FractionDigits))
  }

  function FractionText(f: real, fuel: nat): string
    requires 0.0 <= f < 1.0
    decreases fuel
  {
    if f == 0.0 || fuel == 0 then ""
    else
      var d := (f * 10.0).Floor;
      [DigitChar(d)] + FractionText(f * 10.0 - d as real, fuel - 1)
  }

  /** An integral number renders as its decimal digits. */
  lemma IntegralRealToString(n: nat)
    ensures RealToString(n as real) == NatToString(n)
  {
    assert (n as real).Floor == n;
  }
}
