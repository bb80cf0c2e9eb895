/**
 * The checkbox input: with an option list it edits a list of checked
 * option values, without one it edits a single boolean; view mode lists
 * the options whose value is checked.
 */
module CheckboxField {
  import opened JsValues
  import opened Seqs

  /** `Array.isArray(value) ? value : []` */
  function CurrentValues(value: Value): seq<Value> {
    if value.Arr? then value.items else []
  }

  /** `v !== optionValue`, as the filter of an uncheck. */
  function Other(optionValue: Value): Value -> bool {
    v => v != optionValue
  }

  /** `handleChange(optionValue, checked)`: the value passed to `onChange`. */
  function HandleChange(options: seq<Value>, value: Value, optionValue: Value, checked: bool): (r: Value)
    ensures |options| == 0 ==> r == Bool(checked)
    ensures |options| > 0 ==> r.Arr?
  {
    if |options| > 0 then
      var current := CurrentValues(value);
      if checked then Arr(current + [optionValue]) else Arr(Select(current, Other(optionValue)))
    else Bool(checked)
  }

  /**
   * Checking appends the option's value to the current list (a non-array
   * counting as empty), one more occurrence even when it is already there.
   */
  lemma CheckAppends(options: seq<Value>, value: Value, optionValue: Value)
    requires |options| > 0
    ensures var r := HandleChange(options, value, optionValue, true).items;
      r[..|r| - 1] == CurrentValues(value) && r[|r| - 1] == optionValue
      && multiset(r)[optionValue] == multiset(CurrentValues(value))[optionValue] + 1
  {
    var current := CurrentValues(value);
    var r := current + [optionValue];
    assert r[..|r| - 1] == current;
    assert multiset(r) == multiset(current) + multiset{optionValue};
  }

  /**
   * Unchecking removes every occurrence of the option's value and keeps
   * every other entry, in order and as often as it occurred.
   */
  lemma UncheckRemovesAll(options: seq<Value>, value: Value, optionValue: Value, x: Value)
    requires |options| > 0
    ensures var r := HandleChange(options, value, optionValue, false).items;
      Subseq(r, CurrentValues(value))
      && optionValue !in r
      && (x != optionValue ==> multiset(r)[x] == multiset(CurrentValues(value))[x])
  {
    SelectSubseq(CurrentValues(value), Other(optionValue));
    SelectCounts(CurrentValues(value), Other(optionValue), x);
  }

  /** Unchecking an option just checked restores a list that did not hold it. */
  lemma CheckThenUncheck(options: seq<Value>, items: seq<Value>, optionValue: Value)
    requires |options| > 0 && optionValue !in items
    ensures HandleChange(options, HandleChange(options, Arr(items), optionValue, true), optionValue, false) == Arr(items)
  {
    var keep := Other(optionValue);
    forall i | 0 <= i < |items|
      ensures keep(items[i])
    {
      assert items[i] in items;
    }
    SelectAll(items, keep);
    var all := items + [optionValue];
    assert all[..|items|] == items;
    assert Select(all, keep) == Select(items, keep);
  }

  /** `option.value || option.id` */
  function OptionValue(option: Value): Value {
    Or(Prop(option, "value"), Prop(option, "id"))
  }

  /** Whether view mode shows `option` as selected. */
  function Checked(value: Value): Value -> bool {
    option => value.Arr? && OptionValue(option) in value.items
  }

  /** `selectedOptions` of view mode. */
  function SelectedOptions(options: seq<Value>, value: Value): (r: seq<Value>)
    ensures value.Arr? ==> forall i :: 0 <= i < |r| ==> OptionValue(r[i]) in value.items
  {
    Select(options, Checked(value))
  }

  /**
   * View mode shows exactly the options whose value is in the array
   * value, in option order, each as often as it is listed.
   */
  lemma SelectedOptionsSpec(options: seq<Value>, value: Value, x: Value)
    ensures Subseq(SelectedOptions(options, value), options)
    ensures multiset(SelectedOptions(options, value))[x]
      == if value.Arr? && OptionValue(x) in value.items then multiset(options)[x] else 0
  {
    SelectSubseq(options, Checked(value));
    SelectCounts(options, Checked(value), x);
  }
}
