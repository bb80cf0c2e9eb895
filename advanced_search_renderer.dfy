/**
 * The search form: the criteria a search sends are built from the form
 * data, one per filled-in key that names a top-level attribute; reset
 * empties the form.
 */
module AdvancedSearchRenderer {
  import opened Wrappers
  import opened JsValues
  import opened Layout
  import opened Seqs

  /** `{ attributeId, operator, value }` */
  datatype Criterion = Criterion(attributeId: string, operator: string, value: Value)

  /** `sections.flatMap(s => s.attributes || [])`: the top-level sections' own attributes, in order. */
  function FlatAttributes(sections: seq<Section>): (r: seq<Attribute>)
    ensures forall a :: a in r <==> exists s :: s in sections && a in s.attributes
    decreases |sections|
  {
    if sections == [] then []
    else
      var n := |sections| - 1;
      var r := FlatAttributes(sections[..n]) + sections[n].attributes;
      assert forall s :: s in sections <==> s in sections[..n] || s == sections[n];
      r
  }

  /** `attr.tagName === key || attr.right?.[0]?.tagName === key` */
  predicate Tagged(a: Attribute, key: string) {
    a.tagName == Some(key) || FirstRightTagName(a) == Some(key)
  }

  /** `attrs.find(attr => Tagged(attr, key))` */
  function FindTagged(attrs: seq<Attribute>, key: string): (r: Option<Attribute>)
    ensures r.None? <==> forall i :: 0 <= i < |attrs| ==> !Tagged(attrs[i], key)
    ensures r.Some? ==> exists i :: (0 <= i < |attrs| && attrs[i] == r.value && Tagged(r.value, key)
      && forall j :: 0 <= j < i ==> !Tagged(attrs[j], key))
    decreases |attrs|
  {
    if attrs == [] then None
    else if Tagged(attrs[0], key) then Some(attrs[0])
    else
      var r := FindTagged(attrs[1..], key);
      assert forall j :: 1 <= j < |attrs| ==> attrs[j] == attrs[1..][j - 1];
      r
  }

  /** The criterion pushed for `key` with value `value`, if any. */
  function CriterionFor(key: string, value: Value, layout: WebLayout): Option<Criterion> {
    if !Filled(value) || layout.sections.None? then None
    else match FindTagged(FlatAttributes(layout.sections.value), key)
      case None => None
      case Some(a) => Some(Criterion(OrStr(a.attributeId, Some(key)).value, "equals", value))
  }

  /** The criterion the loop body pushes for a key of `formData`, if any. */
  function CriterionOf(formData: map<string, Value>, layout: WebLayout): string -> Option<Criterion> {
    key => CriterionFor(key, Prop(Obj(formData), key), layout)
  }

  /** `buildSearchCriteria(formData, uiOptions)` over the keys `keys`, in their order. */
  function Criteria(keys: seq<string>, formData: map<string, Value>, layout: WebLayout): seq<Criterion> {
    Collect(keys, CriterionOf(formData, layout))
  }

  /** `buildSearchCriteria(formData, uiOptions)`; `keys` is `Object.keys(formData)`. */
  method BuildSearchCriteria(formData: map<string, Value>, keys: seq<string>, layout: WebLayout) returns (criteria: seq<Criterion>)
    requires KeyOrder(keys, formData)
    ensures criteria == Criteria(keys, formData, layout)
  {
    criteria := [];
    var i := 0;
    while i < |keys|
      invariant 0 <= i <= |keys|
      invariant criteria == Criteria(keys[..i], formData, layout)
    {
      var key := keys[i];
      assert key in keys;
      var value := formData[key];
      CriteriaStep(keys, i, formData, layout);
      if Filled(value) && layout.sections.Some? {
        var attribute := FindTagged(FlatAttributes(layout.sections.value), key);
        if attribute.Some? {
          criteria := criteria + [Criterion(if Present(attribute.value.attributeId) then attribute.value.attributeId.value else key, "equals", value)];
        }
      }
      i := i + 1;
    }
    assert keys[..|keys|] == keys;
  }

  /** One key more: its criterion, if any, comes after those of the keys before it. */
  lemma CriteriaStep(keys: seq<string>, i: nat, formData: map<string, Value>, layout: WebLayout)
    requires i < |keys| && keys[i] in formData
    ensures var c := CriterionFor(keys[i], formData[keys[i]], layout);
      Criteria(keys[..i + 1], formData, layout) == Criteria(keys[..i], formData, layout) + (if c.Some? then [c.value] else [])
  {
    CollectStep(keys, i, CriterionOf(formData, layout));
  }

  /**
   * A key gives a criterion iff its value is filled in (not `undefined`,
   * `null` or `''`) and some top-level attribute carries it as its tag
   * name or its `right[0]` tag name; the first such attribute supplies the
   * id (the key itself when it has none), the operator is `equals` and
   * the value is the form's.
   */
  lemma CriterionForSpec(key: string, value: Value, layout: WebLayout)
    ensures var c := CriterionFor(key, value, layout);
      (c.Some? <==> Filled(value) && layout.sections.Some?
                    && exists i :: 0 <= i < |FlatAttributes(layout.sections.value)|
                         && Tagged(FlatAttributes(layout.sections.value)[i], key))
      && (c.Some? ==>
            var a := FindTagged(FlatAttributes(layout.sections.value), key).value;
            c.value == Criterion(if Present(a.attributeId) then a.attributeId.value else key, "equals", value))
  {
    if Filled(value) && layout.sections.Some? {
      var attrs := FlatAttributes(layout.sections.value);
      var r := FindTagged(attrs, key);
      if r.Some? {
        var a := r.value;
        var i :| 0 <= i < |attrs| && attrs[i] == a && Tagged(a, key)
                 && forall j :: 0 <= j < i ==> !Tagged(attrs[j], key);
        assert Tagged(attrs[i], key);
        assert exists j :: 0 <= j < |FlatAttributes(layout.sections.value)|
                           && Tagged(FlatAttributes(layout.sections.value)[j], key);
        assert CriterionFor(key, value, layout) == Some(Criterion(OrStr(a.attributeId, Some(key)).value, "equals", value));
        assert OrStr(a.attributeId, Some(key)).value == if Present(a.attributeId) then a.attributeId.value else key;
      } else {
        assert CriterionFor(key, value, layout).None?;
        assert forall i :: 0 <= i < |attrs| ==> !Tagged(attrs[i], key);
      }
    }
  }

  /**
   * The criteria follow the key order, there are never more than keys,
   * each is an `equals` test, and each comes from a key, every key that
   * gives one contributing it.
   */
  lemma CriteriaSpec(keys1: seq<string>, keys2: seq<string>, formData: map<string, Value>, layout: WebLayout, c: Criterion)
    ensures Criteria(keys1 + keys2, formData, layout) == Criteria(keys1, formData, layout) + Criteria(keys2, formData, layout)
    ensures |Criteria(keys1, formData, layout)| <= |keys1|
    ensures c in Criteria(keys1, formData, layout) ==> c.operator == "equals"
    ensures c in Criteria(keys1, formData, layout) <==>
      exists i :: 0 <= i < |keys1| && CriterionFor(keys1[i], Prop(Obj(formData), keys1[i]), layout) == Some(c)
  {
    var f := CriterionOf(formData, layout);
    CollectAppend(keys1, keys2, f);
    CollectMembers(keys1, f, c);
  }

  /** `handleReset()`: the form data it sets and passes on. */
  function HandleReset(): map<string, Value> {
    map[]
  }

  /** After a reset no key gives a criterion, so a search sends none. */
  lemma ResetSearchesNothing(key: string, layout: WebLayout)
    ensures CriterionOf(HandleReset(), layout)(key).None?
    ensures Criteria([key], HandleReset(), layout) == []
  {
    assert [key][..0] == [];
  }
}
