/**
 * The phone input: it stores digits only, and shows up to ten of them in
 * the pattern `(abc) def-ghij`.
 */
module PhoneField {
  import opened JsText
  import opened Seqs

  /** Whether `c` survives `replace(/\D/g, '')`. */
  function KeepDigit(): char -> bool {
    c => IsDigit(c)
  }

  /** `s.replace(/\D/g, '')` */
  function Digits(s: string): (r: string)
    ensures AllDigits(r)
  {
    Select(s, KeepDigit())
  }

  /** `handleChange(e)`: the value passed to `onChange`. */
  function HandleChange(input: string): string {
    Digits(input)
  }

  /**
   * A change emits the digits of the input and nothing else: in their
   * order, each as often as it was typed, every other character dropped.
   */
  lemma ChangeKeepsDigits(input: string, c: char)
    ensures AllDigits(HandleChange(input))
    ensures Subseq(HandleChange(input), input)
    ensures multiset(HandleChange(input))[c] == if IsDigit(c) then multiset(input)[c] else 0
  {
    SelectSubseq(input, KeepDigit());
    SelectCounts(input, KeepDigit(), c);
  }

  /** `formatPhone(phone)` */
  function FormatPhone(phone: string): (r: string)
    ensures phone == "" ==> r == ""
    ensures |Digits(phone)| <= 3 ==> r == Digits(phone)
  {
    if phone == "" then ""
    else
      var cleaned := Digits(phone);
      var n := |cleaned|;
      if n <= 3 then cleaned
      else if n <= 6 then "(" + cleaned[..3] + ") " + cleaned[3..]
      else "(" + cleaned[..3] + ") " + cleaned[3..6] + "-" + cleaned[6..if n < 10 then n else 10]
  }

  /** A text of digits is its own digits. */
  lemma DigitsFixed(s: string)
    requires AllDigits(s)
    ensures Digits(s) == s
  {
    SelectAll(s, KeepDigit());
  }

  /** The punctuation of the pattern holds no digits. */
  lemma PunctuationHasNoDigits()
    ensures Digits("(") == "" && Digits(") ") == "" && Digits("-") == ""
  {
    assert "("[..0] == "";
    assert ") "[..1] == ")";
    assert ")"[..0] == "";
    assert "-"[..0] == "";
  }

  /** Digits of a concatenation. */
  lemma DigitsAppend(x: string, y: string)
    ensures Digits(x + y) == Digits(x) + Digits(y)
  {
    SelectAppend(x, y, KeepDigit());
  }

  /** The digits of `(abc) def` are `abcdef`. */
  lemma ShortPatternDigits(a: string, b: string)
    requires AllDigits(a) && AllDigits(b)
    ensures Digits("(" + a + ") " + b) == a + b
  {
    PunctuationHasNoDigits();
    DigitsFixed(a);
    DigitsFixed(b);
    var x1 := "(" + a;
    DigitsAppend("(", a);
    assert Digits(x1) == a;
    var x2 := x1 + ") ";
    DigitsAppend(x1, ") ");
    assert Digits(x2) == a;
    DigitsAppend(x2, b);
  }

  /** The digits of `(abc) def-ghij` are `abcdefghij`. */
  lemma LongPatternDigits(a: string, b: string, c: string)
    requires AllDigits(a) && AllDigits(b) && AllDigits(c)
    ensures Digits("(" + a + ") " + b + "-" + c) == a + b + c
  {
    PunctuationHasNoDigits();
    DigitsFixed(c);
    ShortPatternDigits(a, b);
    var x := "(" + a + ") " + b;
    DigitsAppend(x, "-");
    assert Digits(x + "-") == a + b;
    DigitsAppend(x + "-", c);
  }

  /** The digits of `formatPhone(x)` are the first ten digits of `x`. */
  lemma FormatPhoneDigits(phone: string)
    ensures var d := Digits(phone);
      Digits(FormatPhone(phone)) == d[..if |d| < 10 then |d| else 10]
  {
    var d := Digits(phone);
    var n := |d|;
    if phone != "" && n > 3 {
      if n <= 6 {
        ShortBranchDigits(phone);
      } else {
        LongBranchDigits(phone);
      }
    } else if phone != "" {
      DigitsFixed(d);
    }
  }

  /** `FormatPhoneDigits` for four to six digits. */
  lemma ShortBranchDigits(phone: string)
    requires phone != "" && 3 < |Digits(phone)| <= 6
    ensures Digits(FormatPhone(phone)) == Digits(phone)
  {
    var d := Digits(phone);
    assert FormatPhone(phone) == "(" + d[..3] + ") " + d[3..];
    ShortPatternDigits(d[..3], d[3..]);
    assert d[..3] + d[3..] == d;
  }

  /** `FormatPhoneDigits` for seven digits or more. */
  lemma LongBranchDigits(phone: string)
    requires phone != "" && 6 < |Digits(phone)|
    ensures var d := Digits(phone);
      Digits(FormatPhone(phone)) == d[..if |d| < 10 then |d| else 10]
  {
    var d := Digits(phone);
    var m := if |d| < 10 then |d| else 10;
    assert FormatPhone(phone) == "(" + d[..3] + ") " + d[3..6] + "-" + d[6..m];
    LongPatternDigits(d[..3], d[3..6], d[6..m]);
    assert d[..3] + d[3..6] + d[6..m] == d[..m];
  }

  /** Formatting a formatted number changes nothing. */
  lemma FormatPhoneIdempotent(phone: string)
    ensures FormatPhone(FormatPhone(phone)) == FormatPhone(phone)
  {
    var d := Digits(phone);
    var f := FormatPhone(phone);
    FormatPhoneDigits(phone);
    var m := if |d| < 10 then |d| else 10;
    var e := d[..m];
    assert Digits(f) == e;
    if phone != "" && |d| > 3 {
      assert f != "";
      assert e[..3] == d[..3];
      if |d| <= 6 {
        assert e == d;
      } else {
        assert e[3..6] == d[3..6];
        assert e[6..|e|] == d[6..m];
      }
    }
  }
}
