/**
 * The numeric input: an emptied box emits `null`, otherwise the parsed
 * number, clamped to the `min` and `max` props (not the attribute's own
 * bounds). `parseFloat` is a parameter; its `None` is `NaN`.
 */
module NumberField {
  import opened Wrappers
  import opened JsValues

  /** What `handleChange` passes to `onChange`: `null`, `NaN` or a number. */
  datatype Emitted = Cleared | NotANumber | Number(n: real)

  /** `if (min !== undefined && x < min) x = min; if (max !== undefined && x > max) x = max;` */
  function Clamp(x: real, min: Option<real>, max: Option<real>): (r: real)
    ensures min.Some? && max.Some? && min.value <= max.value ==> min.value <= r <= max.value
    ensures (min.None? || min.value <= x) && (max.None? || x <= max.value) ==> r == x
    ensures max.Some? ==> r <= max.value
    ensures min.Some? && max.Some? && max.value < min.value && x < min.value ==> r == max.value
  {
    var y := if min.Some? && x < min.value then min.value else x;
    if max.Some? && y > max.value then max.value else y
  }

  /** `handleChange(e)` for the box text `input`. */
  function HandleChange(input: string, min: Option<real>, max: Option<real>, parseFloat: string -> Option<real>): (r: Emitted)
    ensures r.Cleared? <==> input == ""
    ensures r.NotANumber? <==> input != "" && parseFloat(input).None?
  {
    if input == "" then Cleared
    else match parseFloat(input)
      case None => NotANumber
      case Some(x) => Number(Clamp(x, min, max))
  }

  /**
   * Empty input emits `null`, never `0`; with `min <= max` every number
   * emitted lies between them, and a parsed number already between them is
   * emitted as it is.
   */
  lemma ChangeInRange(input: string, min: real, max: real, parseFloat: string -> Option<real>)
    requires min <= max
    ensures var r := HandleChange(input, Some(min), Some(max), parseFloat);
      (input == "" ==> r == Cleared)
      && (r.Number? ==> min <= r.n <= max)
      && (input != "" && parseFloat(input).Some? && min <= parseFloat(input).value <= max ==>
            r == Number(parseFloat(input).value))
  {
  }

  /** `value !== null && value !== undefined ? value : ''` */
  function DisplayValue(value: Value): (r: Value)
    ensures IsNullish(value) ==> r == Str("")
    ensures !IsNullish(value) ==> r == value
  {
    if !IsNullish(value) then value else Str("")
  }
}
