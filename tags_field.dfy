/**
 * The tag list input: the selected values are normalised to primitive
 * ids, a tag is added at the end unless it is already selected, removed
 * wherever it occurs, committed from the text box with Enter, and the
 * option list offered is filtered by the typed text.
 */
module TagsField {
  import opened Wrappers
  import opened JsValues
  import opened JsText
  import opened Layout
  import opened Seqs

  /** `attribute?.valueField || 'id'` */
  function ValueField(attribute: Option<Attribute>): string {
    if attribute.Some? && Present(attribute.value.valueField) then attribute.value.valueField.value else "id"
  }

  /** `attribute?.displayField || 'name'` */
  function DisplayField(attribute: Option<Attribute>): string {
    if attribute.Some? && Present(attribute.value.displayField) then attribute.value.displayField.value else "name"
  }

  /** `typeof v === 'object'` for a value other than `null`. */
  predicate IsObject(v: Value) { v.Arr? || v.Obj? }

  /** A primitive that is neither `null` nor `undefined`: what normalising leaves alone. */
  predicate IsPlain(v: Value) { !IsNullish(v) && !IsObject(v) }

  /**
   * `normalizeValue(val)`: nullish values become `null`, an object its
   * first truthy `id`, `value`, `labelId` or value-field property (else
   * `null`), and any other value stays as it is.
   */
  function NormalizeValue(val: Value, attribute: Option<Attribute>): (r: Value)
    ensures !r.Undefined?
    ensures IsNullish(val) ==> r == Null
    ensures IsObject(val) ==> r == Null || Truthy(r)
    ensures IsPlain(val) ==> r == val
  {
    if IsNullish(val) then Null
    else if IsObject(val) then
      Or(Or(Or(Or(Prop(val, "id"), Prop(val, "value")), Prop(val, "labelId")), Prop(val, ValueField(attribute))), Null)
    else val
  }

  /** `vals.map(normalizeValue)` */
  function NormalizeEach(vals: seq<Value>, attribute: Option<Attribute>): (r: seq<Value>)
    ensures |r| == |vals|
    ensures forall i :: 0 <= i < |vals| ==> r[i] == NormalizeValue(vals[i], attribute)
  {
    seq(|vals|, i requires 0 <= i < |vals| => NormalizeValue(vals[i], attribute))
  }

  /** `v !== null` */
  predicate NotNull(v: Value) { v != Null }

  /** `normalizeValues(vals)`: `[]` for a falsy value, a non-array as a list of one. */
  function NormalizeValues(vals: Value, attribute: Option<Attribute>): (r: seq<Value>)
    ensures forall i :: 0 <= i < |r| ==> !IsNullish(r[i])
    ensures !Truthy(vals) ==> r == []
  {
    if !Truthy(vals) then []
    else
      var arr := if vals.Arr? then vals.items else [vals];
      var each := NormalizeEach(arr, attribute);
      assert forall v :: v in each ==> !v.Undefined?;
      Select(each, NotNull)
  }

  /**
   * The selected values are the normalised entries in their order, nulls
   * dropped; a list of plain values is its own normalisation, so what an
   * edit emits reads back as the same selection.
   */
  lemma NormalizeValuesOrder(vals: seq<Value>, attribute: Option<Attribute>)
    ensures Subseq(NormalizeValues(Arr(vals), attribute), NormalizeEach(vals, attribute))
    ensures (forall i :: 0 <= i < |vals| ==> IsPlain(vals[i])) ==> NormalizeValues(Arr(vals), attribute) == vals
  {
    SelectSubseq(NormalizeEach(vals, attribute), NotNull);
    if forall i :: 0 <= i < |vals| ==> IsPlain(vals[i]) {
      PlainUnchanged(vals, attribute);
    }
  }

  /** Plain values survive normalising, each in its place. */
  lemma PlainUnchanged(vals: seq<Value>, attribute: Option<Attribute>)
    requires forall i :: 0 <= i < |vals| ==> IsPlain(vals[i])
    ensures NormalizeValues(Arr(vals), attribute) == vals
  {
    var each := NormalizeEach(vals, attribute);
    forall i | 0 <= i < |vals| ensures each[i] == vals[i] {
      assert IsPlain(vals[i]);
    }
    assert each == vals;
    forall i | 0 <= i < |vals| ensures NotNull(vals[i]) {
      assert IsPlain(vals[i]);
    }
    SelectAll(vals, NotNull);
  }

  /** `handleAddTag(optionValue)`: the list passed to `onChange`, or `None` when nothing is emitted. */
  function HandleAddTag(value: Value, optionValue: Value, attribute: Option<Attribute>): (r: Option<seq<Value>>)
    ensures var n := NormalizeValue(optionValue, attribute);
      r.Some? <==> n != Null && n !in NormalizeValues(value, attribute)
  {
    var selected := NormalizeValues(value, attribute);
    var n := NormalizeValue(optionValue, attribute);
    if n == Null || n in selected then None else Some(selected + [n])
  }

  /** No value occurs twice. */
  predicate Distinct(s: seq<Value>) {
    forall i, j :: 0 <= i < j < |s| ==> s[i] != s[j]
  }

  /**
   * Adding emits the selection with the new tag at the end, so a selection
   * without repeats stays without repeats; adding a tag already selected
   * emits nothing.
   */
  lemma AddTagAppends(value: Value, optionValue: Value, attribute: Option<Attribute>)
    ensures var selected := NormalizeValues(value, attribute);
      var r := HandleAddTag(value, optionValue, attribute);
      (r.Some? ==> r.value == selected + [NormalizeValue(optionValue, attribute)])
      && (NormalizeValue(optionValue, attribute) in selected ==> r.None?)
      && (r.Some? && Distinct(selected) ==> Distinct(r.value))
  {
  }

  /** The comparison `handleRemoveTag` keeps an entry by. */
  function KeepsApart(tag: Value, attribute: Option<Attribute>): Value -> bool {
    v => NormalizeValue(v, attribute) != tag
  }

  /** `handleRemoveTag(tagToRemove)`: the list passed to `onChange`. */
  function HandleRemoveTag(value: Value, tagToRemove: Value, attribute: Option<Attribute>): (r: seq<Value>)
    ensures forall i :: 0 <= i < |r| ==> NormalizeValue(r[i], attribute) != NormalizeValue(tagToRemove, attribute)
  {
    Select(NormalizeValues(value, attribute), KeepsApart(NormalizeValue(tagToRemove, attribute), attribute))
  }

  /**
   * Removing keeps the other entries in their order and drops every entry
   * that normalises to the removed tag, each kept entry as often as it was
   * selected.
   */
  lemma RemoveTagDropsAll(value: Value, tagToRemove: Value, attribute: Option<Attribute>, x: Value)
    ensures var selected := NormalizeValues(value, attribute);
      var r := HandleRemoveTag(value, tagToRemove, attribute);
      Subseq(r, selected)
      && multiset(r)[x] == if NormalizeValue(x, attribute) != NormalizeValue(tagToRemove, attribute)
                           then multiset(selected)[x] else 0
  {
    var keep := KeepsApart(NormalizeValue(tagToRemove, attribute), attribute);
    SelectSubseq(NormalizeValues(value, attribute), keep);
    SelectCounts(NormalizeValues(value, attribute), keep, x);
  }

  /** Removing a tag just added to a list of plain values gives the list back. */
  lemma AddThenRemove(tags: seq<Value>, tag: Value, attribute: Option<Attribute>)
    requires forall i :: 0 <= i < |tags| ==> IsPlain(tags[i])
    requires IsPlain(tag) && tag !in tags
    ensures HandleAddTag(Arr(tags), tag, attribute) == Some(tags + [tag])
    ensures HandleRemoveTag(Arr(tags + [tag]), tag, attribute) == tags
  {
    NormalizeValuesOrder(tags, attribute);
    RemoveJustAdded(tags, tag, attribute);
  }

  /** The removal half of `AddThenRemove`. */
  lemma RemoveJustAdded(tags: seq<Value>, tag: Value, attribute: Option<Attribute>)
    requires forall i :: 0 <= i < |tags| ==> IsPlain(tags[i])
    requires IsPlain(tag) && tag !in tags
    ensures HandleRemoveTag(Arr(tags + [tag]), tag, attribute) == tags
  {
    var all := tags + [tag];
    assert forall i :: 0 <= i < |all| ==> IsPlain(all[i]);
    NormalizeValuesOrder(all, attribute);
    var keep := KeepsApart(tag, attribute);
    forall i | 0 <= i < |tags|
      ensures keep(tags[i])
    {
      assert tags[i] in tags;
    }
    SelectAll(tags, keep);
    assert all[..|tags|] == tags;
    assert Select(all, keep) == Select(tags, keep);
  }

  /** `handleKeyDown`: Enter with a non-blank input adds the trimmed text as a tag. */
  function HandleKeyDown(key: string, inputValue: string, value: Value, attribute: Option<Attribute>): Option<seq<Value>> {
    if key == "Enter" && Trim(inputValue) != "" then HandleAddTag(value, Str(Trim(inputValue)), attribute) else None
  }

  /**
   * Only Enter over non-blank text emits, and then exactly when the
   * trimmed text is not yet selected, appending it as a literal tag.
   */
  lemma EnterAddsTrimmed(key: string, inputValue: string, value: Value, attribute: Option<Attribute>)
    ensures var r := HandleKeyDown(key, inputValue, value, attribute);
      var selected := NormalizeValues(value, attribute);
      (r.Some? <==> key == "Enter" && Trim(inputValue) != "" && Str(Trim(inputValue)) !in selected)
      && (r.Some? ==> r.value == selected + [Str(Trim(inputValue))])
  {
    if key == "Enter" && Trim(inputValue) != "" {
      var t := Str(Trim(inputValue));
      assert IsPlain(t);
      assert NormalizeValue(t, attribute) == t;
      assert HandleKeyDown(key, inputValue, value, attribute) == HandleAddTag(value, t, attribute);
    }
  }

  /** `options.length > 0 ? options : attribute?.options || []` */
  function FieldOptions(options: seq<Value>, attribute: Option<Attribute>): seq<Value> {
    if |options| > 0 then options
    else if attribute.Some? && attribute.value.options.Some? then attribute.value.options.value
    else []
  }

  /**
   * The label `filteredOptions` matches an option by, as a string; `None`
   * when computing it throws (a nullish option, or a `null` label).
   */
  function OptionLabel(opt: Value, attribute: Option<Attribute>): (r: Option<string>)
    ensures r.None? <==> IsNullish(opt) || Or(Or(Or(Prop(opt, "labelName"), Prop(opt, "name")), Prop(opt, "label")), Prop(opt, DisplayField(attribute))).Null?
  {
    if IsNullish(opt) then None
    else
      var l := Or(Or(Or(Prop(opt, "labelName"), Prop(opt, "name")), Prop(opt, "label")), Prop(opt, DisplayField(attribute)));
      if l.Null? then None
      else if IsObject(l) then Some(ToText(Or(Or(Prop(l, "id"), Prop(l, "value")), Str(""))))
      else Some(ToText(Or(l, Str(""))))
  }

  /** Whether `filteredOptions` keeps `opt`, given that its label can be computed. */
  predicate Shown(opt: Value, attribute: Option<Attribute>, inputValue: string, selected: seq<Value>) {
    match OptionLabel(opt, attribute)
    case None => false
    case Some(text) => Contains(Lower(text), Lower(inputValue)) && NormalizeValue(opt, attribute) !in selected
  }

  function ShownBy(attribute: Option<Attribute>, inputValue: string, selected: seq<Value>): Value -> bool {
    opt => Shown(opt, attribute, inputValue, selected)
  }

  /** Some option's label cannot be computed, so the filter throws. */
  predicate LabelThrows(opts: seq<Value>, attribute: Option<Attribute>) {
    exists i :: 0 <= i < |opts| && OptionLabel(opts[i], attribute).None?
  }

  /** `filteredOptions`; `None` when it throws. */
  function FilteredOptions(options: seq<Value>, attribute: Option<Attribute>, inputValue: string, value: Value): (r: Option<seq<Value>>)
    ensures r.None? <==> LabelThrows(FieldOptions(options, attribute), attribute)
  {
    var opts := FieldOptions(options, attribute);
    if LabelThrows(opts, attribute) then None
    else Some(Select(opts, ShownBy(attribute, inputValue, NormalizeValues(value, attribute))))
  }

  /**
   * The options offered are those of the field, in their order, whose
   * label contains the typed text case-insensitively and whose value is
   * not selected; every such option is offered, as often as it occurs.
   */
  lemma FilteredOptionsSpec(options: seq<Value>, attribute: Option<Attribute>, inputValue: string, value: Value, x: Value)
    requires !LabelThrows(FieldOptions(options, attribute), attribute)
    ensures var opts := FieldOptions(options, attribute);
      var selected := NormalizeValues(value, attribute);
      var r := FilteredOptions(options, attribute, inputValue, value).value;
      Subseq(r, opts)
      && (forall i :: 0 <= i < |r| ==>
            Contains(Lower(OptionLabel(r[i], attribute).value), Lower(inputValue))
            && NormalizeValue(r[i], attribute) !in selected)
      && multiset(r)[x] == if Shown(x, attribute, inputValue, selected) then multiset(opts)[x] else 0
  {
    var opts := FieldOptions(options, attribute);
    var keep := ShownBy(attribute, inputValue, NormalizeValues(value, attribute));
    SelectSubseq(opts, keep);
    SelectCounts(opts, keep, x);
  }
}
