/**
 * Materialisation of custom-attribute entries. Every Custom attribute of a
 * form section is looked up in the record's `customAttributes` list, by
 * attribute id or by tag name; a missing entry is created with an empty
 * value and appended, and an entry that was found gets its tag name filled
 * in. Table sections get their row list, and the rows of Standard tables
 * have their own custom lists treated the same way.
 */
module CustomAttributes {
  import opened Wrappers
  import opened JsValues
  import opened Layout

  // ---------------------------------------------------------------------
  // The attribute side

  predicate IsCustom(a: Attribute) { a.kind == Some("Custom") }

  /** In a Custom section an attribute with no type (or the type "undefined") becomes Custom. */
  function MarkCustom(s: Section, a: Attribute): (r: Attribute)
    ensures r.(kind := a.kind) == a
    ensures IsCustom(r) <==> IsCustom(a) || (s.kind == Some("Custom") && (!Present(a.kind) || a.kind == Some("undefined")))
    ensures !IsCustom(r) ==> r == a
  {
    if s.kind == Some("Custom") && (!Present(a.kind) || a.kind == Some("undefined")) then a.(kind := Some("Custom"))
    else a
  }

  /** The section's attributes after marking. */
  function MarkAll(s: Section): (r: seq<Attribute>)
    ensures |r| == |s.attributes|
    ensures forall j :: 0 <= j < |r| ==> r[j] == MarkCustom(s, s.attributes[j])
  {
    seq(|s.attributes|, j requires 0 <= j < |s.attributes| => MarkCustom(s, s.attributes[j]))
  }

  /** The section with its attributes marked. */
  function Marked(s: Section): Section { s.(attributes := MarkAll(s)) }

  lemma MarkIdempotent(s: Section)
    ensures MarkAll(Marked(s)) == MarkAll(s)
    ensures Marked(Marked(s)) == Marked(s)
  {
    var m := MarkAll(s);
    assert forall j :: 0 <= j < |m| ==> MarkCustom(s, m[j]) == m[j];
  }

  /** The tag name the lookup uses: `right[0].tagName`, then `tagName`, then null. */
  function InitTagName(a: Attribute): (r: Value)
    ensures r.Null? || r.Str?
    ensures Present(FirstRightTagName(a)) ==> r == Str(a.right[0].tagName.value)
    ensures !Present(FirstRightTagName(a)) && Present(a.tagName) ==> r == Str(a.tagName.value)
    ensures r.Null? <==> !Present(FirstRightTagName(a)) && !Present(a.tagName)
  {
    if |a.right| > 0 && Present(a.right[0].tagName) then Str(a.right[0].tagName.value)
    else if Present(a.tagName) then Str(a.tagName.value)
    else Null
  }

  /** `right[0].tagName || attribute.tagName` */
  function RightTagName(a: Attribute): (r: Value)
    requires |a.right| > 0
    ensures Truthy(r) <==> Present(a.right[0].tagName) || Present(a.tagName)
  {
    Or(OptStr(a.right[0].tagName), OptStr(a.tagName))
  }

  // ---------------------------------------------------------------------
  // Entries

  function EntryId(e: Value): Value { Prop(e, "customAttributeId") }

  /** `custAttr.customAttributeId === attribute.attributeId || custAttr.customAttributeId === tagName` */
  predicate Matches(e: Value, a: Attribute) {
    EntryId(e) == OptStr(a.attributeId) || EntryId(e) == InitTagName(a)
  }

  /** The position of the first entry matching the attribute. */
  function FirstMatch(entries: seq<Value>, a: Attribute): (r: Option<nat>)
    ensures r.Some? ==> r.value < |entries| && Matches(entries[r.value], a)
    ensures r.Some? ==> forall k :: 0 <= k < r.value ==> !Matches(entries[k], a)
    ensures r.None? ==> forall k :: 0 <= k < |entries| ==> !Matches(entries[k], a)
    decreases |entries|
  {
    if entries == [] then None
    else if Matches(entries[0], a) then Some(0)
    else match FirstMatch(entries[1..], a)
      case None => None
      case Some(k) => Some(k + 1)
  }

  /** `findCustomAttributeIdx(attribute, customAttributeIndexes)`, giving the position of the entry. */
  method FindCustomAttributeIdx(a: Attribute, customIdx: Value) returns (r: Option<nat>)
    ensures r == if customIdx.Arr? then FirstMatch(customIdx.items, a) else None
  {
    if !customIdx.Arr? {
      return None;
    }
    var entries := customIdx.items;
    var tagName := InitTagName(a);
    var i := 0;
    while i < |entries|
      invariant 0 <= i <= |entries|
      invariant forall k :: 0 <= k < i ==> !Matches(entries[k], a)
    {
      var id := Prop(entries[i], "customAttributeId");
      if id == OptStr(a.attributeId) || id == tagName {
        FirstMatchIs(entries, a, i);
        return Some(i);
      }
      i := i + 1;
    }
    FirstMatchNone(entries, a);
    return None;
  }

  lemma FirstMatchIs(entries: seq<Value>, a: Attribute, i: nat)
    requires i < |entries| && Matches(entries[i], a)
    requires forall k :: 0 <= k < i ==> !Matches(entries[k], a)
    ensures FirstMatch(entries, a) == Some(i)
  {
  }

  lemma FirstMatchNone(entries: seq<Value>, a: Attribute)
    requires forall k :: 0 <= k < |entries| ==> !Matches(entries[k], a)
    ensures FirstMatch(entries, a) == None
  {
  }

  /** `createCustomAttributeIdx(attribute)`: a new entry with an empty value, when the attribute has a `right[0]`. */
  function CreateEntry(a: Attribute): (r: Option<Value>)
    ensures r.Some? <==> |a.right| > 0
    ensures r.Some? ==> r.value.Obj? && Matches(r.value, a)
    ensures r.Some? ==> EntryId(r.value) == OptStr(a.attributeId)
    ensures r.Some? ==> Prop(r.value, "customAttributeValue") == Str("")
    ensures r.Some? ==> Prop(r.value, "customAttributeType") == OptStr(a.right[0].tag)
    ensures r.Some? ==> Prop(r.value, "customAttributeTagName") == RightTagName(a)
    ensures r.Some? ==> Prop(r.value, "customAttributeName") == RightTagName(a)
    ensures r.Some? ==> Prop(r.value, "isNew") == Undefined
  {
    if |a.right| == 0 then None
    else
      var name := RightTagName(a);
      Some(Obj(map[
        "customAttributeId" := OptStr(a.attributeId),
        "customAttributeType" := OptStr(a.right[0].tag),
        "customAttributeTagName" := name,
        "customAttributeName" := name,
        "customAttributeValue" := Str("")]))
  }

  /**
   * Setting `customAttributeTagName` and `customAttributeName` on an entry.
   * The model leaves a non-object entry as it is; in strict mode the source
   * throws on a primitive entry.
   */
  function FillTagNames(e: Value, name: Value): (r: Value)
    ensures EntryId(r) == EntryId(e) && Truthy(r) == Truthy(e)
    ensures Prop(r, "isNew") == Prop(e, "isNew")
    ensures e.Obj? ==> r.Obj? && Prop(r, "customAttributeTagName") == name && Prop(r, "customAttributeName") == name
    ensures !e.Obj? ==> r == e
  {
    if e.Obj? then Obj(e.fields["customAttributeTagName" := name]["customAttributeName" := name]) else e
  }

  /** `delete custIndex.isNew` */
  function DropIsNew(e: Value): (r: Value)
    ensures EntryId(r) == EntryId(e) && Truthy(r) == Truthy(e)
    ensures Prop(r, "isNew") == Undefined
    ensures e.Obj? ==> r.Obj? && forall k :: k != "isNew" ==> Prop(r, k) == Prop(e, k)
  {
    if e.Obj? then Obj(e.fields - {"isNew"}) else e
  }

  /** The entry after a lookup that found it: tag names filled when missing. */
  function FoundEntry(a: Attribute, e: Value): (r: Value)
    ensures EntryId(r) == EntryId(e) && Truthy(r) == Truthy(e) && Prop(r, "isNew") == Prop(e, "isNew")
  {
    if !Truthy(Prop(e, "customAttributeTagName")) && |a.right| > 0 then FillTagNames(e, RightTagName(a)) else e
  }

  /**
   * What one (already marked) attribute does to the entry list: a truthy
   * entry found is updated in place, and pushed once more when it carries a
   * truthy `isNew`; otherwise a created entry is pushed.
   */
  function Step(a: Attribute, entries: seq<Value>): (r: seq<Value>)
    ensures |entries| <= |r| <= |entries| + 1
    ensures forall k :: 0 <= k < |entries| ==> EntryId(r[k]) == EntryId(entries[k]) && Truthy(r[k]) == Truthy(entries[k])
    ensures forall k :: 0 <= k < |entries| ==> r[k] == entries[k] || !Truthy(Prop(r[k], "isNew"))
    ensures forall k :: |entries| <= k < |r| ==> Truthy(r[k]) && !Truthy(Prop(r[k], "isNew"))
    ensures !IsCustom(a) ==> r == entries
    ensures IsCustom(a) && |a.right| > 0 && FirstMatch(entries, a).None? ==> r == entries + [CreateEntry(a).value]
    ensures IsCustom(a) && |a.right| == 0 && FirstMatch(entries, a).None? ==> r == entries
  {
    if !IsCustom(a) then entries
    else
      var found := FirstMatch(entries, a);
      if found.Some? && Truthy(entries[found.value]) then
        var k := found.value;
        var e := FoundEntry(a, entries[k]);
        if Truthy(Prop(e, "isNew")) then
          var e' := DropIsNew(e);
          entries[k := e'] + [e']
        else entries[k := e]
      else
        match CreateEntry(a)
        case Some(c) => entries + [c]
        case None => entries
  }

  /** The entry list after the attributes, in order. */
  function Fold(attrs: seq<Attribute>, entries: seq<Value>): (r: seq<Value>)
    decreases |attrs|
  {
    if attrs == [] then entries
    else Step(attrs[|attrs| - 1], Fold(attrs[..|attrs| - 1], entries))
  }

  /**
   * `formatCustomIdxValues(section, customIdx)`: the section with its
   * attributes marked and the new list; anything but an array is left as
   * it is, and the section then too.
   */
  function FormatCustom(s: Section, customIdx: Value): (Section, Value) {
    if customIdx.Arr? then (Marked(s), Arr(Fold(MarkAll(s), customIdx.items)))
    else (s, customIdx)
  }

  /**
   * `getFormattedCustomAttributeValue` followed by the push in
   * `formatCustomIdxValues`, for one attribute and an entry list.
   */
  method GetFormattedCustomAttributeValue(s: Section, attribute: Attribute, entries: seq<Value>)
    returns (marked: Attribute, entries': seq<Value>)
    ensures marked == MarkCustom(s, attribute)
    ensures entries' == Step(marked, entries)
  {
    marked := attribute;
    if s.kind == Some("Custom") && (!Present(attribute.kind) || attribute.kind == Some("undefined")) {
      marked := attribute.(kind := Some("Custom"));
    }
    entries' := entries;
    if marked.kind == Some("Custom") {
      var found := FindCustomAttributeIdx(marked, Arr(entries));
      if found.Some? && Truthy(entries[found.value]) {
        var k := found.value;
        var custIndex := UpdateFoundEntry(marked, entries[k]);
        if Truthy(Prop(custIndex, "isNew")) {
          custIndex := DropIsNew(custIndex);
          entries' := entries[k := custIndex] + [custIndex];
        } else {
          entries' := entries[k := custIndex];
        }
      } else {
        var created := CreateEntry(marked);
        if created.Some? {
          entries' := entries + [created.value];
        }
      }
    }
  }

  /** The tag-name fill on a found entry. */
  method UpdateFoundEntry(a: Attribute, e: Value) returns (r: Value)
    ensures r == FoundEntry(a, e)
  {
    r := e;
    if !Truthy(Prop(e, "customAttributeTagName")) && |a.right| > 0 {
      r := FillTagNames(e, RightTagName(a));
    }
  }

  /** `formatCustomIdxValues(section, customIdx, mode)` */
  method FormatCustomIdxValues(s: Section, customIdx: Value) returns (s': Section, customIdx': Value)
    ensures (s', customIdx') == FormatCustom(s, customIdx)
  {
    if !customIdx.Arr? {
      return s, customIdx;
    }
    var attributes := s.attributes;
    var entries := customIdx.items;
    var j := 0;
    while j < |attributes|
      invariant 0 <= j <= |attributes| == |s.attributes|
      invariant forall k :: 0 <= k < j ==> attributes[k] == MarkCustom(s, s.attributes[k])
      invariant forall k :: j <= k < |attributes| ==> attributes[k] == s.attributes[k]
      invariant entries == Fold(attributes[..j], customIdx.items)
    {
      var marked;
      marked, entries := GetFormattedCustomAttributeValue(s, attributes[j], entries);
      ghost var prev := attributes;
      attributes := attributes[j := marked];
      assert attributes[..j] == prev[..j];
      assert attributes[..j + 1][..j] == attributes[..j];
      j := j + 1;
    }
    assert attributes == MarkAll(s);
    assert attributes[..j] == attributes;
    return Marked(s), Arr(entries);
  }

  // ---------------------------------------------------------------------
  // What the list keeps

  /** The lookup result only depends on the ids of the entries before it. */
  lemma FirstMatchGrow(l: seq<Value>, r: seq<Value>, a: Attribute)
    requires |l| <= |r|
    requires forall k :: 0 <= k < |l| ==> EntryId(r[k]) == EntryId(l[k])
    ensures FirstMatch(l, a).Some? ==> FirstMatch(r, a) == FirstMatch(l, a)
    ensures FirstMatch(l, a).None? ==> FirstMatch(r, a).None? || FirstMatch(r, a).value >= |l|
  {
    assert forall k :: 0 <= k < |l| ==> (Matches(r[k], a) <==> Matches(l[k], a));
    var fl := FirstMatch(l, a);
    if fl.Some? {
      FirstMatchIs(r, a, fl.value);
    }
  }

  /** The folded list keeps every old entry's id and truthiness, and only grows. */
  lemma {:induction false} FoldKeepsEntries(attrs: seq<Attribute>, entries: seq<Value>)
    ensures |entries| <= |Fold(attrs, entries)|
    ensures forall k :: 0 <= k < |entries| ==>
      EntryId(Fold(attrs, entries)[k]) == EntryId(entries[k]) && Truthy(Fold(attrs, entries)[k]) == Truthy(entries[k])
    decreases |attrs|
  {
    if attrs != [] {
      FoldKeepsEntries(attrs[..|attrs| - 1], entries);
    }
  }

  predicate AllTruthy(entries: seq<Value>) {
    forall k :: 0 <= k < |entries| ==> Truthy(entries[k])
  }

  /**
   * A Custom attribute is resolved in a list when its first matching entry
   * is truthy and not flagged new, or, for an attribute without `right[0]`,
   * when nothing matches at all: then treating it changes no length.
   */
  predicate Resolved(entries: seq<Value>, a: Attribute) {
    !IsCustom(a) ||
    match FirstMatch(entries, a)
    case Some(k) => Truthy(entries[k]) && !Truthy(Prop(entries[k], "isNew"))
    case None => |a.right| == 0
  }

  /** A resolved attribute adds nothing. */
  lemma ResolvedStepKeepsLength(a: Attribute, entries: seq<Value>)
    requires Resolved(entries, a)
    ensures |Step(a, entries)| == |entries|
  {
  }

  /** A found entry that is truthy and not flagged new is updated in place and nothing is pushed. */
  lemma StepFound(a: Attribute, entries: seq<Value>, k: nat)
    requires IsCustom(a) && FirstMatch(entries, a) == Some(k)
    requires Truthy(entries[k]) && !Truthy(Prop(entries[k], "isNew"))
    ensures Step(a, entries) == entries[k := FoundEntry(a, entries[k])]
  {
  }

  /** One step resolves its own attribute. */
  lemma StepResolvesOwn(a: Attribute, entries: seq<Value>)
    requires AllTruthy(entries)
    ensures AllTruthy(Step(a, entries))
    ensures Resolved(Step(a, entries), a)
  {
    var r := Step(a, entries);
    FirstMatchGrow(entries, r, a);
    if IsCustom(a) {
      var f := FirstMatch(entries, a);
      if f.Some? {
        assert Truthy(r[f.value]);
      } else if |a.right| > 0 {
        assert r == entries + [CreateEntry(a).value];
        FirstMatchIs(r, a, |entries|);
      }
    }
  }

  /** One step keeps every other resolved attribute resolved. */
  lemma StepKeepsResolved(a: Attribute, b: Attribute, entries: seq<Value>)
    requires AllTruthy(entries)
    requires Resolved(entries, b)
    ensures Resolved(Step(a, entries), b)
  {
    var r := Step(a, entries);
    FirstMatchGrow(entries, r, b);
  }

  /** Treating more attributes keeps a resolved attribute resolved. */
  lemma {:induction false} FoldKeepsResolved(attrs: seq<Attribute>, entries: seq<Value>, b: Attribute)
    requires AllTruthy(entries)
    requires Resolved(entries, b)
    ensures AllTruthy(Fold(attrs, entries))
    ensures Resolved(Fold(attrs, entries), b)
    decreases |attrs|
  {
    if attrs != [] {
      var n := |attrs| - 1;
      FoldKeepsResolved(attrs[..n], entries, b);
      StepKeepsResolved(attrs[n], b, Fold(attrs[..n], entries));
      StepResolvesOwn(attrs[n], Fold(attrs[..n], entries));
    }
  }

  /** After treating the attributes of a list whose entries are all truthy, each of them is resolved. */
  lemma {:induction false} FoldResolves(attrs: seq<Attribute>, entries: seq<Value>)
    requires AllTruthy(entries)
    ensures AllTruthy(Fold(attrs, entries))
    ensures forall j :: 0 <= j < |attrs| ==> Resolved(Fold(attrs, entries), attrs[j])
    decreases |attrs|
  {
    if attrs != [] {
      var n := |attrs| - 1;
      var front := attrs[..n];
      FoldResolves(front, entries);
      var l := Fold(front, entries);
      var r := Step(attrs[n], l);
      assert Fold(attrs, entries) == r;
      StepResolvesOwn(attrs[n], l);
      forall j | 0 <= j < n
        ensures Resolved(r, attrs[j])
      {
        assert attrs[j] == front[j];
        StepKeepsResolved(attrs[n], attrs[j], l);
      }
    }
  }

  /** Treating attributes that are all resolved adds no entry. */
  lemma {:induction false} FoldResolvedKeepsLength(attrs: seq<Attribute>, entries: seq<Value>)
    requires AllTruthy(entries)
    requires forall j :: 0 <= j < |attrs| ==> Resolved(entries, attrs[j])
    ensures |Fold(attrs, entries)| == |entries|
    decreases |attrs|
  {
    if attrs != [] {
      var n := |attrs| - 1;
      var front := attrs[..n];
      assert forall j :: 0 <= j < n ==> front[j] == attrs[j];
      FoldResolvedKeepsLength(front, entries);
      FoldKeepsResolved(front, entries, attrs[n]);
      ResolvedStepKeepsLength(attrs[n], Fold(front, entries));
    }
  }

  /**
   * Formatting a list whose entries are all truthy a second time, with the
   * section the first pass returned, adds no entry and changes no attribute.
   */
  lemma SecondPassAddsNothing(s: Section, entries: seq<Value>)
    requires AllTruthy(entries)
    ensures var (s1, c1) := FormatCustom(s, Arr(entries));
      var (s2, c2) := FormatCustom(s1, c1);
      s2 == s1 && c2.Arr? && |c2.items| == |c1.items|
  {
    var m := MarkAll(s);
    MarkIdempotent(s);
    FoldResolves(m, entries);
    FoldResolvedKeepsLength(m, Fold(m, entries));
  }

  /**
   * After formatting, every Custom attribute with a `right[0]` has a
   * matching entry, and the entries that were there keep their ids.
   */
  lemma FormatCovers(s: Section, entries: seq<Value>)
    requires AllTruthy(entries)
    ensures var (s1, c1) := FormatCustom(s, Arr(entries));
      c1.Arr? && |entries| <= |c1.items|
      && (forall k :: 0 <= k < |entries| ==> EntryId(c1.items[k]) == EntryId(entries[k]))
      && forall j :: 0 <= j < |s1.attributes| && IsCustom(s1.attributes[j]) && |s1.attributes[j].right| > 0 ==>
        exists k :: 0 <= k < |c1.items| && Matches(c1.items[k], s1.attributes[j])
  {
    var m := MarkAll(s);
    var l := Fold(m, entries);
    FoldResolves(m, entries);
    FoldKeepsEntries(m, entries);
    forall j | 0 <= j < |m| && IsCustom(m[j]) && |m[j].right| > 0
      ensures exists k :: 0 <= k < |l| && Matches(l[k], m[j])
    {
      assert Resolved(l, m[j]);
      var k := FirstMatch(l, m[j]).value;
      assert Matches(l[k], m[j]);
    }
  }

  // ---------------------------------------------------------------------
  // The record

  /** `objectIdx[k]` */
  function Get(idx: map<string, Value>, k: string): Value { if k in idx then idx[k] else Undefined }

  predicate IsRelatedObject(s: Section) { s.kind == Some("RelatedObject") }
  predicate IsStandard(s: Section) { s.kind == Some("Standard") }
  predicate IsTableSection(s: Section) { s.sectionType == Some("table") }

  /** The record key of a table's rows, `section.lineType || section.id` used as a property name. */
  function TableKey(s: Section): string {
    match OrStr(s.lineType, s.id)
    case Some(k) => k
    case None => "undefined"
  }

  /** `initTableIndex`: a falsy row list becomes `[]`. */
  function InitTableIndex(idx: map<string, Value>, s: Section): (r: map<string, Value>)
    ensures Truthy(Get(idx, TableKey(s))) ==> r == idx
    ensures !Truthy(Get(idx, TableKey(s))) ==> Get(r, TableKey(s)) == Arr([])
    ensures forall k :: k != TableKey(s) ==> Get(r, k) == Get(idx, k)
  {
    if Truthy(Get(idx, TableKey(s))) then idx else idx[TableKey(s) := Arr([])]
  }

  /** A row whose custom list is a non-empty array has that list formatted. */
  predicate RowFormatted(row: Value) {
    row.Obj? && Prop(row, "customAttributes").Arr? && |Prop(row, "customAttributes").items| > 0
  }

  /**
   * The rows of a Standard table after formatting their custom lists,
   * with the section as the formatting leaves it. A row whose list is a
   * non-array with a positive `length` reaches `formatCustomIdxValues`,
   * which leaves non-arrays alone, so only arrays are visited here.
   */
  function FormatRows(s: Section, rows: seq<Value>): (r: (Section, seq<Value>))
    ensures |r.1| == |rows|
    ensures r.0 == s || r.0 == Marked(s)
    ensures forall t :: 0 <= t < |rows| && !RowFormatted(rows[t]) ==> r.1[t] == rows[t]
    decreases |rows|
  {
    if rows == [] then (s, [])
    else
      var n := |rows| - 1;
      var (s1, front) := FormatRows(s, rows[..n]);
      var row := rows[n];
      if RowFormatted(row) then
        var (s2, list) := FormatCustom(s1, Prop(row, "customAttributes"));
        MarkIdempotent(s);
        (s2, front + [Obj(row.fields["customAttributes" := list])])
      else (s1, front + [row])
  }

  /** A record value that is an array or falsy. */
  predicate ArrOrFalsy(v: Value) { v.Arr? || !Truthy(v) }

  /**
   * What the pass may do to the record: arrays stay arrays, truthy values
   * stay truthy, other truthy values are untouched, and a falsy value
   * becomes an array or stays falsy.
   */
  ghost predicate KeepsRecord(idx: map<string, Value>, idx': map<string, Value>) {
    forall k ::
      (Get(idx, k).Arr? ==> Get(idx', k).Arr?) &&
      (Truthy(Get(idx, k)) ==> Truthy(Get(idx', k))) &&
      (Truthy(Get(idx, k)) && !Get(idx, k).Arr? ==> Get(idx', k) == Get(idx, k)) &&
      (ArrOrFalsy(Get(idx, k)) ==> ArrOrFalsy(Get(idx', k)))
  }

  lemma KeepsRecordTrans(a: map<string, Value>, b: map<string, Value>, c: map<string, Value>)
    requires KeepsRecord(a, b) && KeepsRecord(b, c)
    ensures KeepsRecord(a, c)
  {
  }

  /** One top-level section of `updateCustomAttributeValues`. */
  function UpdateSection(s: Section, idx: map<string, Value>): (r: (Section, map<string, Value>))
    ensures r.0 == s || r.0 == Marked(s)
    ensures IsRelatedObject(s) ==> r == (s, idx)
  {
    if IsRelatedObject(s) then (s, idx)
    else if !IsTableSection(s) then
      var list := Get(idx, "customAttributes");
      if list.Arr? then
        var (s1, list1) := FormatCustom(s, list);
        (s1, idx["customAttributes" := list1])
      else (s, idx)
    else
      var key := TableKey(s);
      var idx1 := InitTableIndex(idx, s);
      var rows := Get(idx1, key);
      if IsStandard(s) && rows.Arr? then
        var (s1, rows1) := FormatRows(s, rows.items);
        (s1, idx1[key := Arr(rows1)])
      else (s, idx1)
  }

  /** Writing an array over an array or a falsy value keeps the record. */
  lemma KeepsArrayWrite(idx: map<string, Value>, k: string, v: Value)
    requires v.Arr? && ArrOrFalsy(Get(idx, k))
    ensures KeepsRecord(idx, idx[k := v])
  {
    forall k' ensures Get(idx[k := v], k') == if k' == k then v else Get(idx, k') {
    }
  }

  /**
   * One section's pass keeps the record (see `KeepsRecord`) and leaves a
   * table ready (see `TableReady`).
   */
  lemma UpdateSectionRecord(s: Section, idx: map<string, Value>)
    ensures KeepsRecord(idx, UpdateSection(s, idx).1)
    ensures TableReady(idx, UpdateSection(s, idx).1, s)
  {
    if IsRelatedObject(s) {
    } else if !IsTableSection(s) {
      var list := Get(idx, "customAttributes");
      if list.Arr? {
        var (s1, list1) := FormatCustom(s, list);
        assert UpdateSection(s, idx).1 == idx["customAttributes" := list1];
        KeepsArrayWrite(idx, "customAttributes", list1);
      }
    } else {
      TableSectionRecord(s, idx);
    }
  }

  /** The table branch of `UpdateSectionRecord`. */
  lemma TableSectionRecord(s: Section, idx: map<string, Value>)
    requires IsTableSection(s) && !IsRelatedObject(s)
    ensures KeepsRecord(idx, UpdateSection(s, idx).1)
    ensures TableReady(idx, UpdateSection(s, idx).1, s)
  {
    var key := TableKey(s);
    var idx1 := InitTableIndex(idx, s);
    if Truthy(Get(idx, key)) {
      assert idx1 == idx;
    } else {
      KeepsArrayWrite(idx, key, Arr([]));
    }
    var rows := Get(idx1, key);
    if IsStandard(s) && rows.Arr? {
      var (s1, rows1) := FormatRows(s, rows.items);
      assert UpdateSection(s, idx).1 == idx1[key := Arr(rows1)];
      KeepsArrayWrite(idx1, key, Arr(rows1));
      KeepsRecordTrans(idx, idx1, idx1[key := Arr(rows1)]);
    } else {
      assert UpdateSection(s, idx).1 == idx1;
    }
  }

  /**
   * The top-level sections in order, threading the record: they keep their
   * number and order, each one left as it was or with its attributes
   * marked, related-object sections untouched.
   */
  function UpdateSections(ss: seq<Section>, idx: map<string, Value>): (r: (seq<Section>, map<string, Value>))
    ensures |r.0| == |ss|
    ensures forall i :: 0 <= i < |ss| ==> r.0[i] == ss[i] || r.0[i] == Marked(ss[i])
    ensures forall i :: 0 <= i < |ss| && IsRelatedObject(ss[i]) ==> r.0[i] == ss[i]
    decreases |ss|
  {
    if ss == [] then ([], idx)
    else
      var n := |ss| - 1;
      var (front, idx1) := UpdateSections(ss[..n], idx);
      var (s, idx2) := UpdateSection(ss[n], idx1);
      (front + [s], idx2)
  }

  /** `updateCustomAttributeValues(webLayout, objectIdx, ...)` on the layout and the record. */
  function UpdateCustom(webLayout: Option<WebLayout>, idx: map<string, Value>): (Option<WebLayout>, map<string, Value>) {
    var idx0 := if Truthy(Get(idx, "customAttributes")) then idx else idx["customAttributes" := Arr([])];
    if webLayout.None? || webLayout.value.sections.None? then (webLayout, idx0)
    else
      var (ss, idx1) := UpdateSections(webLayout.value.sections.value, idx0);
      (Some(webLayout.value.(sections := Some(ss))), idx1)
  }

  /** The rows loop of `updateCustomAttributeValues` for a Standard table. */
  method FormatTableRows(s: Section, rows: seq<Value>) returns (s': Section, rows': seq<Value>)
    ensures (s', rows') == FormatRows(s, rows)
  {
    s', rows' := s, [];
    var t := 0;
    while t < |rows|
      invariant 0 <= t <= |rows|
      invariant (s', rows') == FormatRows(s, rows[..t])
    {
      var row := rows[t];
      assert rows[..t + 1][..t] == rows[..t];
      if row.Obj? && Prop(row, "customAttributes").Arr? && |Prop(row, "customAttributes").items| > 0 {
        var list;
        s', list := FormatCustomIdxValues(s', Prop(row, "customAttributes"));
        row := Obj(row.fields["customAttributes" := list]);
      }
      rows' := rows' + [row];
      t := t + 1;
    }
    assert rows[..t] == rows;
  }

  lemma UpdateSectionsSnoc(ss: seq<Section>, i: nat, idx: map<string, Value>)
    requires i < |ss|
    ensures UpdateSections(ss[..i + 1], idx) ==
      (var (front, idx1) := UpdateSections(ss[..i], idx);
       var (s, idx2) := UpdateSection(ss[i], idx1);
       (front + [s], idx2))
  {
    assert ss[..i + 1][..i] == ss[..i];
  }

  /** The body of the sections loop of `updateCustomAttributeValues`. */
  method UpdateOneSection(section: Section, objectIdx: map<string, Value>)
    returns (section': Section, objectIdx': map<string, Value>)
    ensures (section', objectIdx') == UpdateSection(section, objectIdx)
  {
    section', objectIdx' := section, objectIdx;
    if section.kind == Some("RelatedObject") {
      return;
    }
    if section.sectionType != Some("table") {
      var list := Get(objectIdx, "customAttributes");
      if list.Arr? {
        section', list := FormatCustomIdxValues(section, list);
        objectIdx' := objectIdx["customAttributes" := list];
      }
    } else {
      objectIdx' := InitTableIndex(objectIdx, section);
      if section.kind == Some("Standard") {
        var key := TableKey(section);
        var tableRows := Get(objectIdx', key);
        if tableRows.Arr? {
          var rows;
          section', rows := FormatTableRows(section, tableRows.items);
          objectIdx' := objectIdx'[key := Arr(rows)];
        }
      }
    }
  }

  /**
   * `updateCustomAttributeValues(webLayout, objectIdx, mode, uiOptions)`:
   * the layout's sections and the record are returned updated.
   */
  method UpdateCustomAttributeValues(webLayout: Option<WebLayout>, objectIdx: map<string, Value>)
    returns (webLayout': Option<WebLayout>, objectIdx': map<string, Value>)
    ensures (webLayout', objectIdx') == UpdateCustom(webLayout, objectIdx)
  {
    webLayout', objectIdx' := webLayout, objectIdx;
    if !Truthy(Get(objectIdx', "customAttributes")) {
      objectIdx' := objectIdx'["customAttributes" := Arr([])];
    }
    if webLayout.None? || webLayout.value.sections.None? {
      return;
    }
    var sections := webLayout.value.sections.value;
    var updated := [];
    ghost var idx0 := objectIdx';
    var i := 0;
    while i < |sections|
      invariant 0 <= i <= |sections|
      invariant (updated, objectIdx') == UpdateSections(sections[..i], idx0)
    {
      UpdateSectionsSnoc(sections, i, idx0);
      var section;
      section, objectIdx' := UpdateOneSection(sections[i], objectIdx');
      updated := updated + [section];
      i := i + 1;
    }
    assert sections[..i] == sections;
    webLayout' := Some(webLayout.value.(sections := Some(updated)));
  }

  /**
   * After a pass that took the record from `idx` to `idx'`, the row list of
   * table section `s`, unless it is a related-object section, is truthy,
   * and an array unless it was a truthy non-array before.
   */
  ghost predicate TableReady(idx: map<string, Value>, idx': map<string, Value>, s: Section) {
    IsTableSection(s) && !IsRelatedObject(s) ==>
      Truthy(Get(idx', TableKey(s))) && (ArrOrFalsy(Get(idx, TableKey(s))) ==> Get(idx', TableKey(s)).Arr?)
  }

  /** A later pass that keeps the record keeps a table ready. */
  lemma ReadyKept(idx: map<string, Value>, idx1: map<string, Value>, idx2: map<string, Value>, s: Section)
    requires TableReady(idx, idx1, s) && KeepsRecord(idx1, idx2)
    ensures TableReady(idx, idx2, s)
  {
    var k := TableKey(s);
    assert Get(idx1, k).Arr? ==> Get(idx2, k).Arr?;
    assert Truthy(Get(idx1, k)) ==> Truthy(Get(idx2, k));
  }

  /**
   * What the pass does to the record: see `KeepsRecord`; in addition every
   * top-level table section is ready (see `TableReady`).
   */
  lemma {:induction false} UpdateSectionsRecord(ss: seq<Section>, idx: map<string, Value>)
    ensures KeepsRecord(idx, UpdateSections(ss, idx).1)
    ensures forall i :: 0 <= i < |ss| ==> TableReady(idx, UpdateSections(ss, idx).1, ss[i])
    decreases |ss|
  {
    if ss != [] {
      var n := |ss| - 1;
      UpdateSectionsRecord(ss[..n], idx);
      var idx1 := UpdateSections(ss[..n], idx).1;
      var idx2 := UpdateSection(ss[n], idx1).1;
      UpdateSectionRecord(ss[n], idx1);
      KeepsRecordTrans(idx, idx1, idx2);
      SectionsRecordStep(ss, idx);
      forall i | 0 <= i < |ss|
        ensures TableReady(idx, idx2, ss[i])
      {
        if i < n {
          assert ss[..n][i] == ss[i];
          ReadyKept(idx, idx1, idx2, ss[i]);
        } else {
          assert KeepsRecord(idx, idx1);
        }
      }
    }
  }

  /** The record after the sections is the last section's pass over the record after those before it. */
  lemma SectionsRecordStep(ss: seq<Section>, idx: map<string, Value>)
    requires ss != []
    ensures var n := |ss| - 1;
      UpdateSections(ss, idx).1 == UpdateSection(ss[n], UpdateSections(ss[..n], idx).1).1
  {
  }

  /** The record's `customAttributes` is an array after the pass, unless it was a truthy non-array. */
  lemma CustomListIsArray(webLayout: Option<WebLayout>, idx: map<string, Value>)
    ensures ArrOrFalsy(Get(idx, "customAttributes")) ==> Get(UpdateCustom(webLayout, idx).1, "customAttributes").Arr?
    ensures !ArrOrFalsy(Get(idx, "customAttributes")) ==> Get(UpdateCustom(webLayout, idx).1, "customAttributes") == Get(idx, "customAttributes")
  {
    var idx0 := if Truthy(Get(idx, "customAttributes")) then idx else idx["customAttributes" := Arr([])];
    if webLayout.Some? && webLayout.value.sections.Some? {
      UpdateSectionsRecord(webLayout.value.sections.value, idx0);
    }
  }
}
