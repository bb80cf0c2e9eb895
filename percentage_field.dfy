/**
 * The percentage input: the numeric input with its bounds fixed to 0 and
 * 100, and a `%` sign after the value in view mode.
 */
module PercentageField {
  import opened Wrappers
  import opened JsValues
  import NumberField

  /** `handleChange(e)`: `null` for an emptied box, else the parsed number clamped to `[0, 100]`. */
  function HandleChange(input: string, parseFloat: string -> Option<real>): (r: NumberField.Emitted)
    ensures r.Number? ==> 0.0 <= r.n <= 100.0
    ensures r.Cleared? <==> input == ""
  {
    if input == "" then NumberField.Cleared
    else match parseFloat(input)
      case None => NumberField.NotANumber
      case Some(x) =>
        var y := if x < 0.0 then 0.0 else x;
        NumberField.Number(if y > 100.0 then 100.0 else y)
  }

  /** The percentage handler is the numeric one with `min` 0 and `max` 100. */
  lemma SameAsNumberField(input: string, parseFloat: string -> Option<real>)
    ensures HandleChange(input, parseFloat) == NumberField.HandleChange(input, Some(0.0), Some(100.0), parseFloat)
  {
  }

  /** View mode: the value followed by `%`, or `None` for the dash shown when the display value is `''`. */
  function ViewText(value: Value): (r: Option<string>)
    ensures IsNullish(value) || value == Str("") ==> r.None?
    ensures !IsNullish(value) && value != Str("") ==> r == Some(ToText(value) + "%")
  {
    var shown := NumberField.DisplayValue(value);
    if shown != Str("") then Some(ToText(shown) + "%") else None
  }
}
