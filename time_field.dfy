/**
 * The time input: view mode shows an `HH:MM` value on the 12-hour clock,
 * edit mode shows the first five characters of a string value.
 */
module TimeField {
  import opened Wrappers
  import opened JsValues
  import opened JsText

  /** The position of the first `:` of `s`, or `|s|`. */
  function ColonAt(s: string): (k: nat)
    ensures k <= |s|
    ensures forall i :: 0 <= i < k ==> s[i] != ':'
    ensures k < |s| ==> s[k] == ':'
  {
    if s == [] || s[0] == ':' then 0 else 1 + ColonAt(s[1..])
  }

  /** JavaScript's `a % b` for `b > 0`: the remainder takes the sign of `a`. */
  function Rem(a: int, b: int): (r: int)
    requires b > 0
    ensures a >= 0 ==> r == a % b
    ensures -b < r < b
  {
    if a >= 0 then a % b else -((-a) % b)
  }

  /** `parseInt(hours) % 12 || 12`; NaN (`None`) and a remainder of 0 give 12. */
  function Hour12(h: Option<int>): int {
    match h
    case None => 12
    case Some(x) => if Rem(x, 12) == 0 then 12 else Rem(x, 12)
  }

  /** `parseInt(hours) >= 12 ? 'PM' : 'AM'`; NaN compares false. */
  function Meridiem(h: Option<int>): string {
    if h.Some? && h.value >= 12 then "PM" else "AM"
  }

  /** `formatTime(timeValue)` */
  function FormatTime(timeValue: Value): (r: Value)
    ensures !Truthy(timeValue) ==> r == Null
    ensures Truthy(timeValue) && !(timeValue.Str? && ':' in timeValue.s) ==> r == timeValue
  {
    if !Truthy(timeValue) then Null
    else if timeValue.Str? && ':' in timeValue.s then Str(TwelveHour(timeValue.s))
    else timeValue
  }

  /** The `h:MM AM` rendering of a string holding `:`. */
  function TwelveHour(s: string): string {
    var k := ColonAt(s);
    var rest := if k < |s| then s[k + 1..] else "";
    var h := ParseInt(s[..k]);
    IntToString(Hour12(h)) + ":" + rest[..ColonAt(rest)] + " " + Meridiem(h)
  }

  /**
   * `HH:MM`, optionally followed by `:SS`, shows as `h:MM AM` or `h:MM PM`:
   * `h` is the hour modulo 12 with 0 shown as 12, PM exactly from hour 12
   * on, and the minutes are carried over as written (seconds dropped).
   */
  lemma FormatTimeSpec(hh: string, mm: string, tail: string)
    requires hh != "" && AllDigits(hh) && ':' !in mm
    requires tail == "" || tail[0] == ':'
    ensures var h := DigitsValue(hh);
      FormatTime(Str(hh + ":" + mm + tail))
        == Str(NatToString(if h % 12 == 0 then 12 else h % 12) + ":" + mm + " " + (if h < 12 then "AM" else "PM"))
  {
    TimeParts(hh, mm, tail);
    TwelveHourOf(hh, mm, tail);
  }

  /** The string branch of `FormatTimeSpec`. */
  lemma TwelveHourOf(hh: string, mm: string, tail: string)
    requires hh != "" && AllDigits(hh) && ':' !in mm
    requires tail == "" || tail[0] == ':'
    ensures var h := DigitsValue(hh);
      TwelveHour(hh + ":" + mm + tail)
        == NatToString(if h % 12 == 0 then 12 else h % 12) + ":" + mm + " " + (if h < 12 then "AM" else "PM")
  {
    var s := hh + ":" + mm + tail;
    TimeParts(hh, mm, tail);
    var k := ColonAt(s);
    var rest := s[k + 1..];
    assert s[..k] == hh && rest[..ColonAt(rest)] == mm;
    ParseIntDigits(hh);
    var h: Option<int> := Some(DigitsValue(hh));
    assert ParseInt(s[..k]) == h;
    HourOf(DigitsValue(hh));
    assert TwelveHour(s) == IntToString(Hour12(h)) + ":" + mm + " " + Meridiem(h);
  }

  /** The hour and meridiem shown for a read hour `h`. */
  lemma HourOf(h: nat)
    ensures var twelve := if h % 12 == 0 then 12 else h % 12;
      IntToString(Hour12(Some(h))) == NatToString(twelve)
      && Meridiem(Some(h)) == if h < 12 then "AM" else "PM"
  {
  }

  /** How `split(':')` cuts `HH:MM` and `HH:MM:SS`: the hours, then the minutes. */
  lemma TimeParts(hh: string, mm: string, tail: string)
    requires hh != "" && AllDigits(hh) && ':' !in mm
    requires tail == "" || tail[0] == ':'
    ensures var s := hh + ":" + mm + tail;
      ':' in s && ColonAt(s) == |hh| && s[..|hh|] == hh
      && var rest := s[|hh| + 1..]; rest[..ColonAt(rest)] == mm
  {
    var s := hh + ":" + mm + tail;
    assert s[|hh|] == ':';
    assert s[..|hh|] == hh;
    assert ColonAt(s) == |hh| by {
      assert forall i :: 0 <= i < |hh| ==> s[i] == hh[i] && IsDigit(hh[i]);
      ColonAtIs(s, |hh|);
    }
    var rest := s[|hh| + 1..];
    assert rest == mm + tail;
    assert ColonAt(rest) == |mm| by {
      assert forall i :: 0 <= i < |mm| ==> rest[i] == mm[i];
      ColonAtIs(rest, |mm|);
    }
    assert rest[..|mm|] == mm;
  }

  /** The first `:` is at `k` when none comes before it and one is there, or none at all. */
  lemma ColonAtIs(s: string, k: nat)
    requires k <= |s|
    requires forall i :: 0 <= i < k ==> s[i] != ':'
    requires k == |s| || s[k] == ':'
    ensures ColonAt(s) == k
  {
  }

  /**
   * The displayed hour lies between 1 and 12 for every hour read, the
   * meridiem is PM exactly from 12 on, and an unreadable hour shows as
   * `12 AM`.
   */
  lemma HourRange(h: Option<int>)
    ensures h.Some? && h.value >= 0 ==> 1 <= Hour12(h) <= 12
    ensures h.Some? && h.value >= 0 ==> (Meridiem(h) == "PM" <==> h.value >= 12)
    ensures h.None? ==> Hour12(h) == 12 && Meridiem(h) == "AM"
  {
  }

  /**
   * Edit mode's box text: `''` for a falsy value, the first five
   * characters of a string holding `:`; `None` for the other values,
   * which go through a date conversion.
   */
  function InputValue(value: Value): (r: Option<string>)
    ensures !Truthy(value) ==> r == Some("")
    ensures value.Str? && ':' in value.s ==>
      r == Some(value.s[..if |value.s| < 5 then |value.s| else 5])
  {
    if !Truthy(value) then Some("")
    else if value.Str? && ':' in value.s then Some(SliceTo(value.s, 5))
    else None
  }
}
