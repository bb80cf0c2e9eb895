/**
 * The text rules of the input fields: case conversion, the character
 * filter of a data-type rule, and the key-press check that enforces the
 * same rule one key at a time.
 */
module FieldUtils {
  import opened Wrappers
  import opened JsText
  import opened Seqs

  // ---------------------------------------------------------------------
  // Case conversion

  /**
   * `text.replace(/\w\S*\/g, txt => txt.charAt(0).toUpperCase() + txt.substr(1).toLowerCase())`:
   * from left to right, each match starts at a word character and takes
   * every following non-space character; characters between matches are
   * kept.
   */
  function TitleCase(s: string): (r: string)
    ensures |r| == |s|
    decreases |s|
  {
    if s == [] then []
    else if IsWordChar(s[0]) then
      var n := 1 + SpaceAt(s[1..]);
      [UpperChar(s[0])] + Lower(s[1..n]) + TitleCase(s[n..])
    else [s[0]] + TitleCase(s[1..])
  }

  /** `applyCaseConversion(text, type)`; a missing type is `None`. */
  function ApplyCaseConversion(text: string, kind: Option<string>): (r: string)
    ensures |r| == |text|
    ensures text == "" || kind.None? || kind == Some("") ==> r == text
    ensures kind.Some? && kind.value !in {"UPPERCASE", "lowercase", "Title Case", "TitleCase"} ==> r == text
  {
    if text == "" || kind.None? || kind.value == "" then text
    else match kind.value
      case "UPPERCASE" => Upper(text)
      case "lowercase" => Lower(text)
      case "Title Case" => TitleCase(text)
      case "TitleCase" => TitleCase(text)
      case _ => text
  }

  /** UPPERCASE leaves no lower-case letter, lowercase no upper-case one; applying either twice is applying it once. */
  lemma CaseConversionSpec(text: string)
    ensures forall i :: 0 <= i < |text| ==> !IsLowerLetter(ApplyCaseConversion(text, Some("UPPERCASE"))[i])
    ensures forall i :: 0 <= i < |text| ==> !IsUpperLetter(ApplyCaseConversion(text, Some("lowercase"))[i])
    ensures ApplyCaseConversion(ApplyCaseConversion(text, Some("UPPERCASE")), Some("UPPERCASE"))
      == ApplyCaseConversion(text, Some("UPPERCASE"))
    ensures ApplyCaseConversion(ApplyCaseConversion(text, Some("lowercase")), Some("lowercase"))
      == ApplyCaseConversion(text, Some("lowercase"))
  {
    var u, l := Upper(text), Lower(text);
    assert forall i :: 0 <= i < |u| ==> UpperChar(u[i]) == u[i];
    assert Upper(u) == u;
    assert forall i :: 0 <= i < |l| ==> LowerChar(l[i]) == l[i];
    assert Lower(l) == l;
  }

  /**
   * Position `i` lies in a `\w\S*` match: some word character at or
   * before it starts a stretch without spaces that reaches it.
   */
  predicate InRun(s: string, i: int)
    requires 0 <= i < |s|
  {
    exists j :: 0 <= j <= i && IsWordChar(s[j]) && NoSpaceBetween(s, j, i)
  }

  predicate NoSpaceBetween(s: string, j: int, i: int)
    requires 0 <= j <= i < |s|
  {
    forall k :: j <= k <= i ==> !IsSpace(s[k])
  }

  /** Position `i` starts a match: a word character not continuing one. */
  predicate RunStart(s: string, i: int)
    requires 0 <= i < |s|
  {
    IsWordChar(s[i]) && !(i > 0 && InRun(s, i - 1))
  }

  /** What Title Case does to the character at `i`. */
  function TitleChar(s: string, i: int): char
    requires 0 <= i < |s|
  {
    if RunStart(s, i) then UpperChar(s[i]) else if InRun(s, i) then LowerChar(s[i]) else s[i]
  }

  lemma WordIsNotSpace(c: char)
    ensures IsWordChar(c) ==> !IsSpace(c)
  {
  }

  /**
   * After a cut at `m` where no match can cross (the character before it
   * is outside every match, or the character at it is a space), the
   * matches beyond the cut are those of the rest of the text.
   */
  lemma InRunFrom(s: string, m: int, i: int)
    requires 0 < m <= i < |s|
    requires !InRun(s, m - 1) || IsSpace(s[m])
    ensures InRun(s, i) <==> InRun(s[m..], i - m)
    ensures RunStart(s, i) <==> RunStart(s[m..], i - m)
  {
    var t := s[m..];
    if InRun(s, i) {
      var j :| 0 <= j <= i && IsWordChar(s[j]) && NoSpaceBetween(s, j, i);
      if j < m {
        assert false;
      }
      assert IsWordChar(t[j - m]) && NoSpaceBetween(t, j - m, i - m);
    }
    if InRun(t, i - m) {
      var j :| 0 <= j <= i - m && IsWordChar(t[j]) && NoSpaceBetween(t, j, i - m);
      assert IsWordChar(s[j + m]) && NoSpaceBetween(s, j + m, i);
    }
    if i > m {
      InRunFrom(s, m, i - 1);
    } else {
      WordIsNotSpace(s[m]);
    }
  }

  /**
   * Title Case, character by character: the first character of every
   * match is upper-cased, the other characters of a match are
   * lower-cased, and characters outside every match are kept.
   */
  lemma {:induction false} TitleCaseChars(s: string)
    ensures forall i :: 0 <= i < |s| ==> TitleCase(s)[i] == TitleChar(s, i)
    decreases |s|
  {
    if s != [] {
      if IsWordChar(s[0]) {
        var n := 1 + SpaceAt(s[1..]);
        TitleCaseChars(s[n..]);
        TitleCaseMatch(s);
      } else {
        TitleCaseChars(s[1..]);
        TitleCaseSkip(s);
      }
    }
  }

  /** The step of `TitleCaseChars` at a match. */
  lemma TitleCaseMatch(s: string)
    requires s != [] && IsWordChar(s[0])
    requires var n := 1 + SpaceAt(s[1..]);
      forall i :: 0 <= i < |s| - n ==> TitleCase(s[n..])[i] == TitleChar(s[n..], i)
    ensures forall i :: 0 <= i < |s| ==> TitleCase(s)[i] == TitleChar(s, i)
  {
    forall i | 0 <= i < |s|
      ensures TitleCase(s)[i] == TitleChar(s, i)
    {
      MatchAt(s, i);
    }
  }

  /** One position of the step at a match. */
  lemma MatchAt(s: string, i: int)
    requires 0 <= i < |s| && IsWordChar(s[0])
    requires var n := 1 + SpaceAt(s[1..]);
      i >= n ==> TitleCase(s[n..])[i - n] == TitleChar(s[n..], i - n)
    ensures TitleCase(s)[i] == TitleChar(s, i)
  {
    var n := 1 + SpaceAt(s[1..]);
    var c := TitleCase(s)[i];
    MatchShape(s, i);
    if i < n {
      assert c == if i == 0 then UpperChar(s[0]) else LowerChar(s[i]);
      MatchAtInside(s, n, i);
    } else {
      assert c == TitleCase(s[n..])[i - n];
      MatchAtBeyond(s, n, i);
    }
  }

  /** Inside the match: its first character upper-cased, the others lower-cased. */
  lemma MatchAtInside(s: string, n: int, i: int)
    requires s != [] && IsWordChar(s[0]) && n == 1 + SpaceAt(s[1..]) && 0 <= i < n
    ensures TitleChar(s, i) == if i == 0 then UpperChar(s[0]) else LowerChar(s[i])
  {
    WordIsNotSpace(s[0]);
    assert forall q :: 1 <= q < n ==> s[q] == s[1..][q - 1];
    InsideMatch(s, n, i);
  }

  /** Beyond the match: as in the remainder. */
  lemma MatchAtBeyond(s: string, n: int, i: int)
    requires 0 < n <= i < |s| && n == 1 + SpaceAt(s[1..])
    ensures TitleChar(s, i) == TitleChar(s[n..], i - n)
  {
    BeyondMatch(s, n, i);
    assert s[n..][i - n] == s[i];
  }

  /** Past a match the text is converted as if it started there. */
  lemma BeyondMatch(s: string, n: int, i: int)
    requires 0 < n <= i < |s| && n == 1 + SpaceAt(s[1..])
    ensures InRun(s, i) <==> InRun(s[n..], i - n)
    ensures RunStart(s, i) <==> RunStart(s[n..], i - n)
  {
    assert s[n] == s[1..][n - 1];
    InRunFrom(s, n, i);
  }

  /** Title Case at a match: the match's first character upper-cased, the rest of it lower-cased, then the remainder. */
  lemma MatchShape(s: string, i: int)
    requires 0 <= i < |s| && IsWordChar(s[0])
    ensures var n := 1 + SpaceAt(s[1..]);
      TitleCase(s)[i] == if i == 0 then UpperChar(s[0]) else if i < n then LowerChar(s[i]) else TitleCase(s[n..])[i - n]
  {
    var n := 1 + SpaceAt(s[1..]);
    var low := Lower(s[1..n]);
    var rest := TitleCase(s[n..]);
    var r := TitleCase(s);
    MatchUnfold(s);
    assert |low| == n - 1;
    if i == 0 {
      assert r[0] == UpperChar(s[0]);
    } else if i < n {
      assert r[i] == low[i - 1];
      assert low[i - 1] == LowerChar(s[1..n][i - 1]);
    } else {
      assert r[i] == rest[i - n];
    }
  }

  /** Title Case of a text that starts with a word character, one step unfolded. */
  lemma MatchUnfold(s: string)
    requires s != [] && IsWordChar(s[0])
    ensures var n := 1 + SpaceAt(s[1..]);
      TitleCase(s) == [UpperChar(s[0])] + Lower(s[1..n]) + TitleCase(s[n..])
  {
  }

  /** Inside a match, only its first position starts one. */
  lemma InsideMatch(s: string, n: int, i: int)
    requires 0 <= i < n <= |s| && IsWordChar(s[0])
    requires forall q :: 0 <= q < n ==> !IsSpace(s[q])
    ensures InRun(s, i)
    ensures RunStart(s, i) <==> i == 0
  {
    assert NoSpaceBetween(s, 0, i);
    if i > 0 {
      assert NoSpaceBetween(s, 0, i - 1);
      assert InRun(s, i - 1);
    }
  }

  /** The step of `TitleCaseChars` at a character that starts no match. */
  lemma TitleCaseSkip(s: string)
    requires s != [] && !IsWordChar(s[0])
    requires forall i :: 0 <= i < |s| - 1 ==> TitleCase(s[1..])[i] == TitleChar(s[1..], i)
    ensures forall i :: 0 <= i < |s| ==> TitleCase(s)[i] == TitleChar(s, i)
  {
    assert TitleCase(s) == [s[0]] + TitleCase(s[1..]);
    forall i | 0 <= i < |s|
      ensures TitleCase(s)[i] == TitleChar(s, i)
    {
      if i > 0 {
        assert !InRun(s, 0);
        InRunFrom(s, 1, i);
      }
    }
  }

  /** Case changes keep word characters and spaces where they are, so the matches of the result are those of the input. */
  lemma TitleCaseKeepsRuns(s: string, r: string, i: int)
    requires |r| == |s| && 0 <= i < |s|
    requires forall k :: 0 <= k < |s| ==> (IsWordChar(r[k]) <==> IsWordChar(s[k])) && (IsSpace(r[k]) <==> IsSpace(s[k]))
    ensures InRun(r, i) <==> InRun(s, i)
    ensures RunStart(r, i) <==> RunStart(s, i)
  {
    if InRun(s, i) {
      var j :| 0 <= j <= i && IsWordChar(s[j]) && NoSpaceBetween(s, j, i);
      assert NoSpaceBetween(r, j, i);
    }
    if InRun(r, i) {
      var j :| 0 <= j <= i && IsWordChar(r[j]) && NoSpaceBetween(r, j, i);
      assert NoSpaceBetween(s, j, i);
    }
    if i > 0 {
      TitleCaseKeepsRuns(s, r, i - 1);
    }
  }

  /** Title Case applied twice is Title Case applied once. */
  lemma TitleCaseIdempotent(s: string)
    ensures TitleCase(TitleCase(s)) == TitleCase(s)
  {
    var r := TitleCase(s);
    TitleCaseChars(s);
    TitleCaseChars(r);
    forall i | 0 <= i < |s|
      ensures TitleCase(r)[i] == r[i]
    {
      forall k | 0 <= k < |s|
        ensures (IsWordChar(r[k]) <==> IsWordChar(s[k])) && (IsSpace(r[k]) <==> IsSpace(s[k]))
      {
        assert r[k] == TitleChar(s, k);
      }
      TitleCaseKeepsRuns(s, r, i);
    }
  }

  // ---------------------------------------------------------------------
  // Data-type rules

  /** The character classes of the data-type rules. */
  datatype CharRule = NumberRule | AlphabetRule | AlphanumericRule

  /** The rule a `type` names: `NUMBER`/`Number`, `ALPHABET`/`Alphabet`, `ALPHANUMERIC`/`Alphanumeric`. */
  function RuleOf(kind: string): Option<CharRule> {
    match kind
    case "NUMBER" => Some(NumberRule)
    case "Number" => Some(NumberRule)
    case "ALPHABET" => Some(AlphabetRule)
    case "Alphabet" => Some(AlphabetRule)
    case "ALPHANUMERIC" => Some(AlphanumericRule)
    case "Alphanumeric" => Some(AlphanumericRule)
    case _ => None
  }

  /** `[0-9.-]`, `[a-zA-Z\s]` and `[a-zA-Z0-9\s]`. */
  predicate Allowed(rule: CharRule, c: char) {
    match rule
    case NumberRule => IsDigit(c) || c == '.' || c == '-'
    case AlphabetRule => IsLetter(c) || IsSpace(c)
    case AlphanumericRule => IsLetter(c) || IsDigit(c) || IsSpace(c)
  }

  /** `value.replace(/[^...]/g, '')`: the allowed characters, in order. */
  function Keep(s: string, rule: CharRule): (r: string)
    ensures forall i :: 0 <= i < |r| ==> Allowed(rule, r[i])
    decreases |s|
  {
    if s == [] then []
    else
      var c := s[|s| - 1];
      Keep(s[..|s| - 1], rule) + (if Allowed(rule, c) then [c] else [])
  }

  /** `validateDataType(value, type)` on a string value; a missing type is `None`. */
  function ValidateDataType(value: string, kind: Option<string>): string {
    if value == "" || kind.None? || kind.value == "" then value
    else match RuleOf(kind.value)
      case Some(rule) => Keep(value, rule)
      case None => value
  }

  /** The filter's result is a subsequence of the input: characters are only removed, and the rest keep their order. */
  lemma {:induction false} KeepSubseq(s: string, rule: CharRule)
    ensures Subseq(Keep(s, rule), s)
    decreases |s|
  {
    if s == [] {
      SubseqRefl(s);
    } else {
      var n := |s| - 1;
      var c := s[n];
      KeepSubseq(s[..n], rule);
      assert s == s[..n] + [c];
      if Allowed(rule, c) {
        assert Keep(s, rule) == Keep(s[..n], rule) + [c];
        SubseqSnocBoth(Keep(s[..n], rule), s[..n], c);
      } else {
        assert Keep(s, rule) == Keep(s[..n], rule);
        SubseqSnoc(Keep(s[..n], rule), s[..n], c);
      }
    }
  }

  /** The filter keeps every occurrence of an allowed character and none of any other. */
  lemma {:induction false} KeepCounts(s: string, rule: CharRule, c: char)
    ensures multiset(Keep(s, rule))[c] == if Allowed(rule, c) then multiset(s)[c] else 0
    decreases |s|
  {
    if s != [] {
      var n := |s| - 1;
      var last := if Allowed(rule, s[n]) then [s[n]] else [];
      KeepCounts(s[..n], rule, c);
      assert s == s[..n] + [s[n]];
      assert Keep(s, rule) == Keep(s[..n], rule) + last;
      assert multiset(Keep(s, rule)) == multiset(Keep(s[..n], rule)) + multiset(last);
      assert multiset(s) == multiset(s[..n]) + multiset([s[n]]);
    }
  }

  /** A text of allowed characters passes the filter unchanged. */
  lemma {:induction false} KeepFixed(s: string, rule: CharRule)
    requires forall i :: 0 <= i < |s| ==> Allowed(rule, s[i])
    ensures Keep(s, rule) == s
    decreases |s|
  {
    if s != [] {
      var n := |s| - 1;
      KeepFixed(s[..n], rule);
      assert s == s[..n] + [s[n]];
    }
  }

  /** Filtering twice is filtering once. */
  lemma ValidateDataTypeIdempotent(value: string, kind: Option<string>)
    ensures ValidateDataType(ValidateDataType(value, kind), kind) == ValidateDataType(value, kind)
  {
    if value != "" && kind.Some? && kind.value != "" && RuleOf(kind.value).Some? {
      var r := Keep(value, RuleOf(kind.value).value);
      KeepFixed(r, RuleOf(kind.value).value);
    }
  }

  /** Case conversion changes letters only, so a text the filter accepts is still accepted after it. */
  lemma ConversionKeepsAllowed(text: string, kind: Option<string>, rule: CharRule)
    requires forall i :: 0 <= i < |text| ==> Allowed(rule, text[i])
    ensures forall i :: 0 <= i < |text| ==> Allowed(rule, ApplyCaseConversion(text, kind)[i])
  {
    var r := ApplyCaseConversion(text, kind);
    if text != "" && kind.Some? && kind.value in {"Title Case", "TitleCase"} {
      TitleCaseChars(text);
    }
    forall i | 0 <= i < |text|
      ensures Allowed(rule, r[i])
    {
      var c := text[i];
      assert r[i] == c || r[i] == UpperChar(c) || r[i] == LowerChar(c);
    }
  }

  /** Applying a case conversion twice is applying it once, for every type. */
  lemma ConversionIdempotent(text: string, kind: Option<string>)
    ensures ApplyCaseConversion(ApplyCaseConversion(text, kind), kind) == ApplyCaseConversion(text, kind)
  {
    if text != "" && kind.Some? && kind.value != "" {
      CaseConversionSpec(text);
      TitleCaseIdempotent(text);
    }
  }

  // ---------------------------------------------------------------------
  // Key presses

  /** The data-type rule of an attribute: `isEnabled` truthiness and `type`. */
  datatype DataTypeRule = DataTypeRule(isEnabled: bool, kind: Option<string>)

  /**
   * `validateKeyPress(e, dataTypeRule)`: whether it calls
   * `e.preventDefault()` for the key name `key`.
   */
  predicate PreventsKey(key: string, rule: Option<DataTypeRule>) {
    if rule.None? || !rule.value.isEnabled || rule.value.kind.None? || rule.value.kind.value == "" then false
    else if |key| > 1 then false
    else match RuleOf(rule.value.kind.value)
      case Some(r) => !(|key| == 1 && Allowed(r, key[0]))
      case None => false
  }

  /**
   * The key check and the filter agree: a key naming one character is
   * blocked iff the filter would remove that character. Named keys
   * (`Backspace`, `Tab`, ...) are never blocked, nor is any key when the
   * rule is off or has no type.
   */
  lemma KeyPressMatchesFilter(key: string, rule: Option<DataTypeRule>)
    ensures |key| > 1 ==> !PreventsKey(key, rule)
    ensures rule.None? || !rule.value.isEnabled || rule.value.kind.None? ==> !PreventsKey(key, rule)
    ensures |key| == 1 && rule.Some? && rule.value.isEnabled ==>
      (PreventsKey(key, rule) <==> ValidateDataType(key, rule.value.kind) != key)
  {
    if |key| == 1 && rule.Some? && rule.value.isEnabled && rule.value.kind.Some? && rule.value.kind.value != "" {
      match RuleOf(rule.value.kind.value) {
        case Some(r) =>
          assert key[..0] == [];
          assert Keep(key, r) == (if Allowed(r, key[0]) then [key[0]] else []);
        case None =>
      }
    }
  }
}
