/**
 * The section filter of the renderer initialisation: disabled and hidden
 * sections are dropped, inner sections are filtered the same way, and a
 * section left without inner sections, attributes or columns is dropped.
 * The address flags of the record are reset on the way.
 */
module SectionFilter {
  import opened Wrappers
  import opened JsValues
  import opened Layout
  import opened Seqs

  /** `flag === false || flag === 'false'` */
  predicate Off(v: Value) { v == Bool(false) || v == Str("false") }

  /** Inner sections, attributes or columns remain. */
  predicate HasContent(s: Section) { s.sections != [] || s.attributes != [] || s.columns != [] }

  /** The section with its inner sections filtered. */
  function Prune(s: Section): Section
    decreases s, 1
  {
    s.(sections := FilterSections(s.sections))
  }

  /** The section survives: enabled, visible, and not empty once its inner sections are filtered. */
  predicate Keeps(s: Section)
    decreases s, 2
  {
    !Off(s.isEnabled) && !Off(s.isVisible) && HasContent(Prune(s))
  }

  /** What `validateSections` returns for a section list. */
  function FilterSections(ss: seq<Section>): seq<Section>
    decreases ss, 0
  {
    if ss == [] then []
    else
      var s := ss[|ss| - 1];
      FilterSections(ss[..|ss| - 1]) + (if Keeps(s) then [Prune(s)] else [])
  }

  /**
   * `validateSections(uiOptions, mode, objectIdx, sections, objectId)`
   * on the section list; the per-type checks it calls accept every section.
   */
  method ValidateSections(sections: seq<Section>) returns (valid: seq<Section>)
    ensures valid == FilterSections(sections)
    decreases sections
  {
    valid := [];
    var i := 0;
    while i < |sections|
      invariant 0 <= i <= |sections|
      invariant valid == FilterSections(sections[..i])
    {
      var section := sections[i];
      assert sections[..i + 1][..i] == sections[..i];
      assert FilterSections(sections[..i + 1])
        == FilterSections(sections[..i]) + (if Keeps(sections[i]) then [Prune(sections[i])] else []);
      if !Off(section.isEnabled) && !Off(section.isVisible) {
        var inner := ValidateSections(section.sections);
        section := section.(sections := inner);
        assert section == Prune(sections[i]);
        if HasContent(section) && !Off(section.isVisible) {
          valid := valid + [section];
        }
      }
      i := i + 1;
    }
    assert sections[..i] == sections;
  }

  /** Every section, at every depth, is enabled, visible and not empty. */
  predicate Clean(ss: seq<Section>)
    decreases ss, 1
  {
    forall i :: 0 <= i < |ss| ==> CleanSection(ss[i])
  }

  predicate CleanSection(s: Section)
    decreases s, 0
  {
    !Off(s.isEnabled) && !Off(s.isVisible) && HasContent(s) && Clean(s.sections)
  }

  /** Filtering leaves only clean sections. */
  lemma {:induction false} FilterIsClean(ss: seq<Section>)
    ensures Clean(FilterSections(ss))
    decreases ss
  {
    if ss != [] {
      var n := |ss| - 1;
      var s := ss[n];
      FilterIsClean(ss[..n]);
      if Keeps(s) {
        FilterIsClean(s.sections);
        assert CleanSection(Prune(s));
        var r := FilterSections(ss[..n]);
        assert forall i :: 0 <= i < |r| ==> (r + [Prune(s)])[i] == r[i];
      }
    }
  }

  /** A clean list passes the filter unchanged. */
  lemma {:induction false} CleanIsFixed(ss: seq<Section>)
    requires Clean(ss)
    ensures FilterSections(ss) == ss
    decreases ss
  {
    if ss != [] {
      var n := |ss| - 1;
      var s := ss[n];
      assert CleanSection(ss[n]);
      assert Clean(ss[..n]) by {
        assert forall i :: 0 <= i < n ==> ss[..n][i] == ss[i];
      }
      CleanIsFixed(ss[..n]);
      CleanIsFixed(s.sections);
      assert Prune(s) == s;
      assert ss == ss[..n] + [s];
    }
  }

  /** Filtering twice is filtering once. */
  lemma FilterIdempotent(ss: seq<Section>)
    ensures FilterSections(FilterSections(ss)) == FilterSections(ss)
  {
    FilterIsClean(ss);
    CleanIsFixed(FilterSections(ss));
  }

  /** A section is in the result iff it is the pruned form of a surviving input section. */
  lemma {:induction false} FilterMember(ss: seq<Section>, t: Section)
    ensures t in FilterSections(ss) <==> exists s :: s in ss && Keeps(s) && t == Prune(s)
    decreases |ss|
  {
    if ss != [] {
      var n := |ss| - 1;
      FilterMember(ss[..n], t);
      assert ss == ss[..n] + [ss[n]];
      if t in FilterSections(ss) {
        if t !in FilterSections(ss[..n]) {
          assert Keeps(ss[n]) && t == Prune(ss[n]);
        }
      }
      if exists s :: s in ss && Keeps(s) && t == Prune(s) {
        var s :| s in ss && Keeps(s) && t == Prune(s);
        if s != ss[n] {
          assert s in ss[..n];
        }
      }
    }
  }

  /** Every input section, pruned. */
  function PruneAll(ss: seq<Section>): (r: seq<Section>)
    ensures |r| == |ss|
    ensures forall i :: 0 <= i < |ss| ==> r[i] == Prune(ss[i])
  {
    seq(|ss|, i requires 0 <= i < |ss| => Prune(ss[i]))
  }

  /** The survivors keep their input order. */
  lemma {:induction false} FilterKeepsOrder(ss: seq<Section>)
    ensures Subseq(FilterSections(ss), PruneAll(ss))
    decreases |ss|
  {
    if ss != [] {
      var n := |ss| - 1;
      var front, all := FilterSections(ss[..n]), PruneAll(ss[..n]);
      FilterKeepsOrder(ss[..n]);
      assert PruneAll(ss) == all + [Prune(ss[n])];
      if Keeps(ss[n]) {
        assert FilterSections(ss) == front + [Prune(ss[n])];
        SubseqSnocBoth(front, all, Prune(ss[n]));
      } else {
        assert FilterSections(ss) == front;
        SubseqSnoc(front, all, Prune(ss[n]));
      }
    }
  }

  // ---------------------------------------------------------------------
  // Address flags

  /** `address.isAdded = false` on every address object. */
  function ResetAddress(v: Value): (r: Value)
    ensures r.Obj? <==> v.Obj?
    ensures v.Obj? ==> Prop(r, "isAdded") == Bool(false)
    ensures v.Obj? ==> forall k :: k != "isAdded" ==> Prop(r, k) == Prop(v, k)
  {
    if v.Obj? then Obj(v.fields["isAdded" := Bool(false)]) else v
  }

  /**
   * The loop over `objectIdx.addresses`: when it is an array every address
   * object gets `isAdded` false; anything else is left as it is.
   */
  method ResetAddresses(addresses: Value) returns (r: Value)
    ensures r == ResetAll(addresses)
  {
    r := addresses;
    if addresses.Arr? {
      var items := addresses.items;
      var i := 0;
      while i < |items|
        invariant 0 <= i <= |items|
        invariant |items| == |addresses.items|
        invariant forall k :: 0 <= k < i ==> items[k] == ResetAddress(addresses.items[k])
        invariant forall k :: i <= k < |items| ==> items[k] == addresses.items[k]
      {
        items := items[i := ResetAddress(items[i])];
        i := i + 1;
      }
      r := Arr(items);
    }
  }

  /** What the reset does to the `addresses` value. */
  function ResetAll(addresses: Value): Value {
    if addresses.Arr? then Arr(seq(|addresses.items|, k requires 0 <= k < |addresses.items| => ResetAddress(addresses.items[k])))
    else addresses
  }

  /**
   * After the reset every address object has `isAdded` false and keeps its
   * other properties, the list keeps its length, and a second reset
   * changes nothing.
   */
  lemma ResetAllSpec(addresses: Value)
    ensures addresses.Arr? ==> ResetAll(addresses).Arr? && |ResetAll(addresses).items| == |addresses.items|
    ensures addresses.Arr? ==>
      forall k :: 0 <= k < |addresses.items| && addresses.items[k].Obj? ==> Prop(ResetAll(addresses).items[k], "isAdded") == Bool(false)
    ensures ResetAll(ResetAll(addresses)) == ResetAll(addresses)
  {
    if addresses.Arr? {
      var r := ResetAll(addresses);
      forall k | 0 <= k < |r.items|
        ensures ResetAddress(r.items[k]) == r.items[k]
      {
        var v := addresses.items[k];
        if v.Obj? {
          assert v.fields["isAdded" := Bool(false)]["isAdded" := Bool(false)] == v.fields["isAdded" := Bool(false)];
        }
      }
    }
  }
}
