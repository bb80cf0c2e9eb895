/**
 * The converter from the configuration payload to the renderer options:
 * the layout text is parsed, the reference lists receive their defaults,
 * and three lookup tables are built over the section tree (attributes by
 * `attributeId`, sections by `id || sectionId` with their position stamped
 * on them, and the owning section of each attribute). Also the option list
 * of a choice attribute.
 */
module ConfigDataConverter {
  import opened Wrappers
  import opened JsValues
  import opened JsText
  import opened Layout
  import opened KeyedFolds
  import InitIndexes

  /** `section.id || section.sectionId`: the section key of this converter. */
  function SectionKey(s: Section): Option<string> { OrStr(s.id, s.sectionId) }

  // ---------------------------------------------------------------------
  // The walk shared by the attribute tables

  /** An attribute with a truthy `attributeId` met by the walk, with the key of the section holding it. */
  datatype Held = Held(id: string, owner: Option<string>, attribute: Attribute)

  /** The attributes of one list that carry a truthy `attributeId`, in order. */
  function OwnHeld(owner: Option<string>, attrs: seq<Attribute>): seq<Held>
    decreases |attrs|
  {
    if attrs == [] then []
    else
      var a := attrs[|attrs| - 1];
      OwnHeld(owner, attrs[..|attrs| - 1])
      + (if Present(a.attributeId) then [Held(a.attributeId.value, owner, a)] else [])
  }

  /**
   * The walk of `processSection` over a section list: for each section its
   * own attributes, then those of its inner sections. Table columns are not
   * visited.
   */
  function Walk(ss: seq<Section>): seq<Held>
    decreases ss, 1
  {
    if ss == [] then []
    else Walk(ss[..|ss| - 1]) + WalkSection(ss[|ss| - 1])
  }

  function WalkSection(s: Section): seq<Held>
    decreases s, 0
  {
    OwnHeld(SectionKey(s), s.attributes) + Walk(s.sections)
  }

  /** The assignments `map[attr.attributeId] = f(...)` of a walk. */
  function Pairs<V>(hs: seq<Held>, f: Held -> V): (ps: seq<(string, V)>)
    ensures |ps| == |hs|
    ensures forall i :: 0 <= i < |hs| ==> ps[i] == (hs[i].id, f(hs[i]))
  {
    seq(|hs|, i requires 0 <= i < |hs| => (hs[i].id, f(hs[i])))
  }

  function HeldAttribute(h: Held): Attribute { h.attribute }

  function HeldOwner(h: Held): Option<string> { h.owner }

  /** What `buildAttributesMap` returns. */
  function AttributesMapOf(ss: seq<Section>): map<string, Attribute> {
    Put(map[], Pairs(Walk(ss), HeldAttribute))
  }

  /** What `buildAttributeSectionsMap` returns; an owner without a key is stored as `undefined`. */
  function AttributeSectionsMapOf(ss: seq<Section>): map<string, Option<string>> {
    Put(map[], Pairs(Walk(ss), HeldOwner))
  }

  lemma PairsAppend<V>(a: seq<Held>, b: seq<Held>, f: Held -> V)
    ensures Pairs(a + b, f) == Pairs(a, f) + Pairs(b, f)
  {
  }

  /** The walk of a list grows by the walk of its next section. */
  lemma WalkStep(ss: seq<Section>, i: nat)
    requires i < |ss|
    ensures Walk(ss[..i + 1]) == Walk(ss[..i]) + WalkSection(ss[i])
  {
    assert ss[..i + 1][..i] == ss[..i];
  }

  /** One more attribute of a section's own list. */
  lemma OwnHeldStep(owner: Option<string>, attrs: seq<Attribute>, j: nat)
    requires j < |attrs|
    ensures OwnHeld(owner, attrs[..j + 1]) == OwnHeld(owner, attrs[..j])
      + (if Present(attrs[j].attributeId) then [Held(attrs[j].attributeId.value, owner, attrs[j])] else [])
  {
    assert attrs[..j + 1][..j] == attrs[..j];
  }

  /** The assignment of one more attribute of a section's own list. */
  lemma OwnPutStep<V>(m: map<string, V>, owner: Option<string>, attrs: seq<Attribute>, j: nat, f: Held -> V)
    requires j < |attrs|
    ensures Put(m, Pairs(OwnHeld(owner, attrs[..j + 1]), f)) ==
      if Present(attrs[j].attributeId)
      then Put(m, Pairs(OwnHeld(owner, attrs[..j]), f))[attrs[j].attributeId.value := f(Held(attrs[j].attributeId.value, owner, attrs[j]))]
      else Put(m, Pairs(OwnHeld(owner, attrs[..j]), f))
  {
    OwnHeldStep(owner, attrs, j);
    var before := OwnHeld(owner, attrs[..j]);
    if Present(attrs[j].attributeId) {
      var h := Held(attrs[j].attributeId.value, owner, attrs[j]);
      PairsAppend(before, [h], f);
      PutSnoc(m, Pairs(before, f), h.id, f(h));
    } else {
      assert OwnHeld(owner, attrs[..j + 1]) == before;
    }
  }

  /**
   * `processSection` of `buildAttributesMap` and of
   * `buildAttributeSectionsMap`: every attribute of the section with a
   * truthy `attributeId` is assigned `f` of it, then the inner sections are
   * processed. `f` picks what is stored: the attribute or the section key.
   */
  method PutSection<V>(s: Section, m: map<string, V>, f: Held -> V) returns (r: map<string, V>)
    ensures r == Put(m, Pairs(WalkSection(s), f))
    decreases s, 0
  {
    r := m;
    var owner := SectionKey(s);
    var j := 0;
    while j < |s.attributes|
      invariant 0 <= j <= |s.attributes|
      invariant r == Put(m, Pairs(OwnHeld(owner, s.attributes[..j]), f))
    {
      var a := s.attributes[j];
      OwnPutStep(m, owner, s.attributes, j, f);
      if Present(a.attributeId) {
        r := r[a.attributeId.value := f(Held(a.attributeId.value, owner, a))];
      }
      j := j + 1;
    }
    assert s.attributes[..j] == s.attributes;
    r := PutSections(s.sections, r, f);
    PairsAppend(OwnHeld(owner, s.attributes), Walk(s.sections), f);
    PutAppend(m, Pairs(OwnHeld(owner, s.attributes), f), Pairs(Walk(s.sections), f));
  }

  /** `sections.forEach(processSection)` */
  method PutSections<V>(ss: seq<Section>, m: map<string, V>, f: Held -> V) returns (r: map<string, V>)
    ensures r == Put(m, Pairs(Walk(ss), f))
    decreases ss, 1
  {
    r := m;
    var i := 0;
    while i < |ss|
      invariant 0 <= i <= |ss|
      invariant r == Put(m, Pairs(Walk(ss[..i]), f))
    {
      r := PutSection(ss[i], r, f);
      WalkStep(ss, i);
      PairsAppend(Walk(ss[..i]), WalkSection(ss[i]), f);
      PutAppend(m, Pairs(Walk(ss[..i]), f), Pairs(WalkSection(ss[i]), f));
      i := i + 1;
    }
    assert ss[..i] == ss;
  }

  /** `buildAttributesMap(sections)` */
  method BuildAttributesMap(sections: seq<Section>) returns (m: map<string, Attribute>)
    ensures m == AttributesMapOf(sections)
  {
    m := PutSections(sections, map[], HeldAttribute);
  }

  /** `buildAttributeSectionsMap(sections)` */
  method BuildAttributeSectionsMap(sections: seq<Section>) returns (m: map<string, Option<string>>)
    ensures m == AttributeSectionsMapOf(sections)
  {
    m := PutSections(sections, map[], HeldOwner);
  }

  // ---------------------------------------------------------------------
  // Where an attribute sits, independently of the walk

  /** `h` records an attribute of section `t` with a truthy `attributeId`, and `t`'s key as owner. */
  predicate Holding(t: Section, h: Held) {
    h.attribute in t.attributes && h.owner == SectionKey(t)
    && h.attribute.attributeId == Some(h.id) && h.id != ""
  }

  lemma {:induction false} OwnHeldMember(owner: Option<string>, attrs: seq<Attribute>, h: Held)
    ensures h in OwnHeld(owner, attrs) <==>
      h.attribute in attrs && h.owner == owner && h.attribute.attributeId == Some(h.id) && h.id != ""
    decreases |attrs|
  {
    if attrs != [] {
      var n := |attrs| - 1;
      OwnHeldMember(owner, attrs[..n], h);
      assert attrs == attrs[..n] + [attrs[n]];
    }
  }

  /** The walk meets exactly the attributes with a truthy `attributeId` of every section of the tree, each with its section's key. */
  lemma {:induction false} WalkMember(ss: seq<Section>, h: Held)
    ensures h in Walk(ss) <==> exists t :: InitIndexes.SectionInTree(ss, t) && Holding(t, h)
    decreases ss, 1
  {
    if ss != [] {
      var n := |ss| - 1;
      var s := ss[n];
      WalkMember(ss[..n], h);
      WalkSectionMember(s, h);
      forall t
        ensures InitIndexes.SectionInTree(ss, t) <==> InitIndexes.SectionInTree(ss[..n], t) || InitIndexes.SectionAt(s, t)
      {
        InitIndexes.SectionInTreeSnoc(ss, t);
      }
    }
  }

  lemma {:induction false} WalkSectionMember(s: Section, h: Held)
    ensures h in WalkSection(s) <==> exists t :: InitIndexes.SectionAt(s, t) && Holding(t, h)
    decreases s, 0
  {
    OwnHeldMember(SectionKey(s), s.attributes, h);
    WalkMember(s.sections, h);
    if Holding(s, h) {
      assert InitIndexes.SectionAt(s, s);
    }
  }

  // ---------------------------------------------------------------------
  // Last occurrence wins

  /** The position of the last walk entry with id `k`. */
  function LastHeld(hs: seq<Held>, k: string): (i: nat)
    requires exists i :: 0 <= i < |hs| && hs[i].id == k
    ensures i < |hs| && hs[i].id == k
    ensures forall j :: i < j < |hs| ==> hs[j].id != k
    decreases |hs|
  {
    var n := |hs| - 1;
    if hs[n].id == k then n
    else
      var i :| 0 <= i < |hs| && hs[i].id == k;
      assert hs[..n][i] == hs[i];
      LastHeld(hs[..n], k)
  }

  /** After assigning a walk's pairs, a key is present iff some entry has it, and holds `f` of the last such entry. */
  lemma {:induction false} PutPairsLast<V>(m: map<string, V>, hs: seq<Held>, f: Held -> V, k: string)
    ensures k in Put(m, Pairs(hs, f)) <==> k in m || exists i :: 0 <= i < |hs| && hs[i].id == k
    ensures (exists i :: 0 <= i < |hs| && hs[i].id == k) ==> Put(m, Pairs(hs, f))[k] == f(hs[LastHeld(hs, k)])
    decreases |hs|
  {
    if hs != [] {
      var n := |hs| - 1;
      PutPairsLast(m, hs[..n], f, k);
      assert Pairs(hs, f)[..n] == Pairs(hs[..n], f);
      forall i | 0 <= i < n
        ensures hs[..n][i] == hs[i]
      {
      }
      if hs[n].id != k && exists i :: 0 <= i < |hs| && hs[i].id == k {
        var i :| 0 <= i < |hs| && hs[i].id == k;
        assert i < n;
        assert hs[..n][i].id == k;
        assert LastHeld(hs, k) == LastHeld(hs[..n], k);
      }
    }
  }

  /** Some entry of the walk has id `k`. */
  predicate Named(ss: seq<Section>, k: string) {
    exists i :: 0 <= i < |Walk(ss)| && Walk(ss)[i].id == k
  }

  /** Every entry of the walk carries its own `attributeId`. */
  lemma WalkEntry(ss: seq<Section>, h: Held)
    requires h in Walk(ss)
    ensures h.attribute.attributeId == Some(h.id) && h.id != ""
  {
    WalkMember(ss, h);
  }

  /**
   * The attribute table and the owner table have the same keys: the ids
   * met by the walk.
   */
  lemma AttributeTableKeys(ss: seq<Section>, k: string)
    ensures k in AttributesMapOf(ss) <==> Named(ss, k)
    ensures k in AttributeSectionsMapOf(ss) <==> Named(ss, k)
  {
    PutPairsLast(map[], Walk(ss), HeldAttribute, k);
    PutPairsLast(map[], Walk(ss), HeldOwner, k);
  }

  /** The walk meets an id iff some attribute of some section of the tree, at any depth, has it. */
  lemma NamedInTree(ss: seq<Section>, k: string)
    ensures Named(ss, k) <==>
      k != "" && exists t, a :: InitIndexes.SectionInTree(ss, t) && a in t.attributes && a.attributeId == Some(k)
  {
    var hs := Walk(ss);
    if Named(ss, k) {
      var i :| 0 <= i < |hs| && hs[i].id == k;
      assert hs[i] in hs;
      WalkMember(ss, hs[i]);
      var t :| InitIndexes.SectionInTree(ss, t) && Holding(t, hs[i]);
      assert hs[i].attribute in t.attributes;
    }
    if k != "" && exists t, a :: InitIndexes.SectionInTree(ss, t) && a in t.attributes && a.attributeId == Some(k) {
      var t, a :| InitIndexes.SectionInTree(ss, t) && a in t.attributes && a.attributeId == Some(k);
      var h := Held(k, SectionKey(t), a);
      assert Holding(t, h);
      WalkMember(ss, h);
      var i :| 0 <= i < |hs| && hs[i] == h;
      assert hs[i].id == k;
    }
  }

  /**
   * Last occurrence wins, in both tables at once: under an id the
   * attribute table holds the last attribute with that id in walk order,
   * and the owner table the key of the section holding that same
   * attribute.
   */
  lemma AttributeTablesLast(ss: seq<Section>, k: string)
    requires Named(ss, k)
    ensures var hs := Walk(ss);
      var i := LastHeld(hs, k);
      k in AttributesMapOf(ss) && k in AttributeSectionsMapOf(ss)
      && AttributesMapOf(ss)[k] == hs[i].attribute && AttributeSectionsMapOf(ss)[k] == hs[i].owner
      && AttributesMapOf(ss)[k].attributeId == Some(k)
      && (forall j :: i < j < |hs| ==> hs[j].attribute.attributeId != Some(k))
  {
    var hs := Walk(ss);
    var l := LastHeld(hs, k);
    PutPairsLast(map[], hs, HeldAttribute, k);
    PutPairsLast(map[], hs, HeldOwner, k);
    assert AttributesMapOf(ss)[k] == hs[l].attribute;
    WalkEntry(ss, hs[l]);
    LaterEntriesOther(ss, k);
  }

  /** No walk entry after the last one with id `k` carries `k` as its `attributeId`. */
  lemma LaterEntriesOther(ss: seq<Section>, k: string)
    requires Named(ss, k)
    ensures var hs := Walk(ss);
      forall j :: LastHeld(hs, k) < j < |hs| ==> hs[j].attribute.attributeId != Some(k)
  {
    var hs := Walk(ss);
    forall j | LastHeld(hs, k) < j < |hs|
      ensures hs[j].attribute.attributeId != Some(k)
    {
      WalkEntry(ss, hs[j]);
    }
  }

  // ---------------------------------------------------------------------
  // The sections table

  /** Section `t` sits at position `n` of its parent list somewhere in the tree. */
  predicate PlacedIn(ss: seq<Section>, t: Section, n: nat)
    decreases ss, 1
  {
    exists i :: 0 <= i < |ss| && PlacedAt(ss[i], i, t, n)
  }

  predicate PlacedAt(s: Section, i: nat, t: Section, n: nat)
    decreases s, 0
  {
    (t == s && n == i) || PlacedIn(s.sections, t, n)
  }

  /** The section at position `i` of its list after the stamping: `index` is `i` when it has a key. */
  function StampAt(s: Section, i: nat): Section
    decreases s, 0
  {
    s.(index := if Present(SectionKey(s)) then Some(i) else s.index,
       sections := Stamped(s.sections))
  }

  /**
   * The section list after `buildSectionsMap`: every section with a truthy
   * key, at every depth, carries its position in its parent list; nothing
   * else changes.
   */
  function Stamped(ss: seq<Section>): (r: seq<Section>)
    ensures |r| == |ss|
    ensures forall i :: 0 <= i < |ss| ==> r[i] == StampAt(ss[i], i)
    decreases ss, 1
  {
    seq(|ss|, i requires 0 <= i < |ss| => StampAt(ss[i], i))
  }

  /** Every keyed section of the tree carries its own position. */
  predicate StampedTree(ss: seq<Section>)
    decreases ss, 1
  {
    forall i :: 0 <= i < |ss| ==> StampedAt(ss[i], i)
  }

  predicate StampedAt(s: Section, i: nat)
    decreases s, 0
  {
    (Present(SectionKey(s)) ==> s.index == Some(i)) && StampedTree(s.sections)
  }

  lemma {:induction false} StampedIsStamped(ss: seq<Section>)
    ensures StampedTree(Stamped(ss))
    decreases ss
  {
    forall i | 0 <= i < |ss|
      ensures StampedAt(Stamped(ss)[i], i)
    {
      StampedIsStamped(ss[i].sections);
    }
  }

  lemma {:induction false} StampedTreeFixed(ss: seq<Section>)
    requires StampedTree(ss)
    ensures Stamped(ss) == ss
    decreases ss
  {
    forall i | 0 <= i < |ss|
      ensures StampAt(ss[i], i) == ss[i]
    {
      assert StampedAt(ss[i], i);
      StampedTreeFixed(ss[i].sections);
    }
  }

  /** Stamping twice is stamping once: a second conversion of the same list gives the same sections. */
  lemma StampIdempotent(ss: seq<Section>)
    ensures Stamped(Stamped(ss)) == Stamped(ss)
  {
    StampedIsStamped(ss);
    StampedTreeFixed(Stamped(ss));
  }

  /** The assignments `map[sectionId] = section` in walk order: a section under its key, then its inner sections. */
  function SectionPairs(ss: seq<Section>): seq<(string, Section)>
    decreases ss, 1
  {
    if ss == [] then []
    else SectionPairs(ss[..|ss| - 1]) + SectionPairsAt(ss[|ss| - 1])
  }

  function SectionPairsAt(s: Section): seq<(string, Section)>
    decreases s, 0
  {
    (if Present(SectionKey(s)) then [(SectionKey(s).value, s)] else []) + SectionPairs(s.sections)
  }

  /**
   * What `buildSectionsMap` returns. The table holds the section objects
   * themselves, which are stamped in the course of the walk; by the end
   * every one of them carries its stamp, so the table is the assignments
   * over the stamped tree.
   */
  function SectionsMapOf(ss: seq<Section>): map<string, Section> {
    Put(map[], SectionPairs(Stamped(ss)))
  }

  lemma SectionPairsStep(ss: seq<Section>, i: nat)
    requires i < |ss|
    ensures SectionPairs(ss[..i + 1]) == SectionPairs(ss[..i]) + SectionPairsAt(ss[i])
  {
    assert ss[..i + 1][..i] == ss[..i];
  }

  /** The `section.index = index` writes of `buildSectionsMap`, over the section list. */
  method StampSections(ss: seq<Section>) returns (r: seq<Section>)
    ensures r == Stamped(ss)
    decreases ss
  {
    r := ss;
    var i := 0;
    while i < |ss|
      invariant 0 <= i <= |ss| == |r|
      invariant forall k :: 0 <= k < i ==> r[k] == StampAt(ss[k], k)
      invariant forall k :: i <= k < |ss| ==> r[k] == ss[k]
    {
      var section := ss[i];
      if Present(OrStr(section.id, section.sectionId)) {
        section := section.(index := Some(i));
      }
      var inner := StampSections(section.sections);
      r := r[i := section.(sections := inner)];
      i := i + 1;
    }
  }

  /** The `map[sectionId] = section` writes of `buildSectionsMap`, over an already stamped list. */
  method PutSectionsByKey(ss: seq<Section>, m: map<string, Section>) returns (r: map<string, Section>)
    ensures r == Put(m, SectionPairs(ss))
    decreases ss
  {
    r := m;
    var i := 0;
    while i < |ss|
      invariant 0 <= i <= |ss|
      invariant r == Put(m, SectionPairs(ss[..i]))
    {
      var section := ss[i];
      var before := r;
      var key := OrStr(section.id, section.sectionId);
      if Present(key) {
        r := r[key.value := section];
      }
      r := PutSectionsByKey(section.sections, r);
      SectionPairsStep(ss, i);
      PutAppend(m, SectionPairs(ss[..i]), SectionPairsAt(section));
      if Present(key) {
        PutAppend(before, [(key.value, section)], SectionPairs(section.sections));
      } else {
        assert SectionPairsAt(section) == SectionPairs(section.sections);
      }
      i := i + 1;
    }
    assert ss[..i] == ss;
  }

  /**
   * `buildSectionsMap(sections)`: returns the table and the section list as
   * the walk leaves it (the source stamps the list in place).
   */
  method BuildSectionsMap(sections: seq<Section>) returns (stamped: seq<Section>, m: map<string, Section>)
    ensures stamped == Stamped(sections)
    ensures m == SectionsMapOf(sections)
  {
    stamped := StampSections(sections);
    m := PutSectionsByKey(stamped, map[]);
  }

  /** A section is assigned under a key iff it is a section of the tree with that key. */
  lemma {:induction false} SectionPairsMember(ss: seq<Section>, k: string, t: Section)
    ensures (k, t) in SectionPairs(ss) <==> InitIndexes.SectionInTree(ss, t) && SectionKey(t) == Some(k) && k != ""
    decreases ss, 1
  {
    if ss != [] {
      var n := |ss| - 1;
      var s := ss[n];
      SectionPairsMember(ss[..n], k, t);
      SectionPairsMember(s.sections, k, t);
      InitIndexes.SectionInTreeSnoc(ss, t);
    }
  }

  /** Every section of a stamped tree sits at the position its `index` names. */
  lemma {:induction false} StampedPlaced(ss: seq<Section>, t: Section)
    requires StampedTree(ss)
    requires InitIndexes.SectionInTree(ss, t) && Present(SectionKey(t))
    ensures t.index.Some? && PlacedIn(ss, t, t.index.value)
    decreases ss, 1
  {
    var i :| 0 <= i < |ss| && InitIndexes.SectionAt(ss[i], t);
    assert StampedAt(ss[i], i);
    if t == ss[i] {
      assert PlacedAt(ss[i], i, t, i);
    } else {
      StampedPlaced(ss[i].sections, t);
      assert PlacedAt(ss[i], i, t, t.index.value);
    }
  }

  /** A key of the stamped tree is a key of the input tree. */
  lemma {:induction false} StampedKeysBack(ss: seq<Section>, k: string, t: Section)
    requires InitIndexes.SectionInTree(Stamped(ss), t) && SectionKey(t) == Some(k)
    ensures exists u :: InitIndexes.SectionInTree(ss, u) && SectionKey(u) == Some(k)
    decreases ss, 1
  {
    var r := Stamped(ss);
    var i :| 0 <= i < |r| && InitIndexes.SectionAt(r[i], t);
    if t == r[i] {
      assert InitIndexes.SectionAt(ss[i], ss[i]);
      assert InitIndexes.SectionInTree(ss, ss[i]) && SectionKey(ss[i]) == Some(k);
    } else {
      StampedKeysBack(ss[i].sections, k, t);
      var u :| InitIndexes.SectionInTree(ss[i].sections, u) && SectionKey(u) == Some(k);
      assert InitIndexes.SectionAt(ss[i], u);
    }
  }

  /** A key of the input tree is a key of the stamped tree. */
  lemma {:induction false} StampedKeysForth(ss: seq<Section>, k: string, t: Section)
    requires InitIndexes.SectionInTree(ss, t) && SectionKey(t) == Some(k)
    ensures exists u :: InitIndexes.SectionInTree(Stamped(ss), u) && SectionKey(u) == Some(k)
    decreases ss, 1
  {
    var r := Stamped(ss);
    var i :| 0 <= i < |ss| && InitIndexes.SectionAt(ss[i], t);
    if t == ss[i] {
      assert InitIndexes.SectionAt(r[i], r[i]);
      assert InitIndexes.SectionInTree(r, r[i]) && SectionKey(r[i]) == Some(k);
    } else {
      StampedKeysForth(ss[i].sections, k, t);
      var u :| InitIndexes.SectionInTree(r[i].sections, u) && SectionKey(u) == Some(k);
      assert InitIndexes.SectionAt(r[i], u);
    }
  }

  /**
   * The sections table holds a key iff some section of the input tree has
   * it as `id || sectionId`; the section stored under it has that key, is a
   * section of the returned tree, and its `index` is its position in its
   * parent list.
   */
  lemma SectionsTable(ss: seq<Section>, k: string)
    ensures k in SectionsMapOf(ss) <==> k != "" && exists t :: InitIndexes.SectionInTree(ss, t) && SectionKey(t) == Some(k)
    ensures k in SectionsMapOf(ss) ==>
      var t := SectionsMapOf(ss)[k];
      SectionKey(t) == Some(k) && InitIndexes.SectionInTree(Stamped(ss), t)
      && t.index.Some? && PlacedIn(Stamped(ss), t, t.index.value)
  {
    var r := Stamped(ss);
    PutFromEmpty(SectionPairs(r), k);
    if exists t :: InitIndexes.SectionInTree(r, t) && SectionKey(t) == Some(k) {
      var t :| InitIndexes.SectionInTree(r, t) && SectionKey(t) == Some(k);
      StampedKeysBack(ss, k, t);
    }
    if exists t :: InitIndexes.SectionInTree(ss, t) && SectionKey(t) == Some(k) {
      var t :| InitIndexes.SectionInTree(ss, t) && SectionKey(t) == Some(k);
      StampedKeysForth(ss, k, t);
    }
    if k in SectionsMapOf(ss) {
      var t := SectionsMapOf(ss)[k];
      SectionPairsMember(r, k, t);
      StampedIsStamped(ss);
      StampedPlaced(r, t);
    }
    if k != "" && exists t :: InitIndexes.SectionInTree(r, t) && SectionKey(t) == Some(k) {
      var t :| InitIndexes.SectionInTree(r, t) && SectionKey(t) == Some(k);
      SectionPairsMember(r, k, t);
    }
    if exists v :: (k, v) in SectionPairs(r) {
      var v :| (k, v) in SectionPairs(r);
      SectionPairsMember(r, k, v);
    }
  }

  // ---------------------------------------------------------------------
  // The conversion

  /** The layout object once parsed: `sections` is `None` when falsy. */
  datatype RawLayout = RawLayout(sections: Option<seq<Section>>, objectId: Value, objectName: Value)

  /** `configData.webLayout`: text to parse, or a value; `Given(None)` is a value with no layout object. */
  datatype LayoutField = Text(text: string) | Given(layout: Option<RawLayout>)

  datatype ConfigData = ConfigData(
    webLayout: LayoutField,
    objectIdx: Value,
    phoneTypes: Value,
    emailTypes: Value,
    addressTypes: Value,
    statuses: Value,
    priorities: Value,
    types: Value)

  /** `WEB_LAYOUT` of the options. */
  datatype ConvertedLayout = ConvertedLayout(sections: seq<Section>, objectId: Value, objectName: Value)

  datatype UiOptions = UiOptions(
    webLayout: ConvertedLayout,
    objectIdx: Value,
    configData: ConfigData,
    phoneTypes: Value,
    emailTypes: Value,
    addressTypes: Value,
    statuses: Value,
    priorities: Value,
    types: Value,
    attributesMap: map<string, Attribute>,
    sectionsMap: map<string, Section>,
    attributeSectionsMap: map<string, Option<string>>)

  /**
   * The layout the conversion works on: the parsed text, or the given
   * value. `parse` stands for `JSON.parse` and yields `None` when the text
   * does not parse or does not denote an object.
   */
  function LayoutOf(c: ConfigData, parse: string -> Option<RawLayout>): Option<RawLayout> {
    match c.webLayout
    case Text(text) => parse(text)
    case Given(layout) => layout
  }

  /** The conversion yields options. */
  predicate Converts(configData: Option<ConfigData>, parse: string -> Option<RawLayout>) {
    configData.Some? && LayoutOf(configData.value, parse).Some? && LayoutOf(configData.value, parse).value.sections.Some?
  }

  /** `value || []` */
  function ListOr(v: Value): (r: Value)
    ensures Truthy(r)
    ensures !Truthy(v) ==> r == Arr([])
    ensures Truthy(v) ==> r == v
  {
    Or(v, Arr([]))
  }

  /**
   * `convertConfigDataToUiOptions(configData)`: `None` stands for the
   * `null` it returns for a missing payload, a layout text that does not
   * parse, or a layout without sections.
   */
  method ConvertConfigDataToUiOptions(configData: Option<ConfigData>, parse: string -> Option<RawLayout>)
    returns (r: Option<UiOptions>)
    ensures r.Some? <==> Converts(configData, parse)
    ensures r.Some? ==>
      var c, l := configData.value, LayoutOf(configData.value, parse).value;
      var o := r.value;
      o.webLayout == ConvertedLayout(Stamped(l.sections.value), l.objectId, l.objectName)
      && o.objectIdx == Or(c.objectIdx, Obj(map[])) && Truthy(o.objectIdx)
      && o.configData == c
      && o.phoneTypes == ListOr(c.phoneTypes) && o.emailTypes == ListOr(c.emailTypes)
      && o.addressTypes == ListOr(c.addressTypes) && o.statuses == ListOr(c.statuses)
      && o.priorities == ListOr(c.priorities) && o.types == ListOr(c.types)
      && o.attributesMap == AttributesMapOf(l.sections.value)
      && o.sectionsMap == SectionsMapOf(l.sections.value)
      && o.attributeSectionsMap == AttributeSectionsMapOf(l.sections.value)
  {
    if configData.None? {
      return None;
    }
    var c := configData.value;
    var webLayout: Option<RawLayout>;
    match c.webLayout {
      case Text(text) =>
        webLayout := parse(text);
      case Given(layout) =>
        webLayout := layout;
    }
    if webLayout.None? || webLayout.value.sections.None? {
      return None;
    }
    var sections := webLayout.value.sections.value;
    var attributesMap := BuildAttributesMap(sections);
    var stamped, sectionsMap := BuildSectionsMap(sections);
    var attributeSectionsMap := BuildAttributeSectionsMap(sections);
    r := Some(UiOptions(
      ConvertedLayout(stamped, webLayout.value.objectId, webLayout.value.objectName),
      Or(c.objectIdx, Obj(map[])),
      c,
      Or(c.phoneTypes, Arr([])), Or(c.emailTypes, Arr([])), Or(c.addressTypes, Arr([])),
      Or(c.statuses, Arr([])), Or(c.priorities, Arr([])), Or(c.types, Arr([])),
      attributesMap, sectionsMap, attributeSectionsMap));
  }

  // ---------------------------------------------------------------------
  // Option lists

  /**
   * `(list || []).map(f)`: `None` when the call throws, i.e. when the list
   * is truthy but not an array, or an entry is null or undefined (reading a
   * property of it throws).
   */
  function MapList(list: Value, f: Value -> Value): (r: Option<seq<Value>>)
    ensures !Truthy(list) ==> r == Some([])
    ensures r.None? <==> Truthy(list) && (!list.Arr? || exists i :: 0 <= i < |list.items| && IsNullish(list.items[i]))
    ensures r.Some? && Truthy(list) ==>
      list.Arr? && |r.value| == |list.items| && forall i :: 0 <= i < |list.items| ==> r.value[i] == f(list.items[i])
  {
    var l := Or(list, Arr([]));
    if !l.Arr? then None
    else if exists i :: 0 <= i < |l.items| && IsNullish(l.items[i]) then None
    else
      var r := seq(|l.items|, i requires 0 <= i < |l.items| => f(l.items[i]));
      assert l.items == [] ==> r == [];
      Some(r)
  }

  /** An option object `{id, name, code}`. */
  function OptionObject(id: Value, name: Value, code: Value): (r: Value)
    ensures r.Obj? && r.fields.Keys == {"id", "name", "code"}
    ensures Prop(r, "id") == id && Prop(r, "name") == name && Prop(r, "code") == code
  {
    Obj(map["id" := id, "name" := name, "code" := code])
  }

  function StatusOption(s: Value): Value {
    OptionObject(Or(Prop(s, "statusId"), Prop(s, "id")), Or(Prop(s, "statusName"), Prop(s, "name")),
      Or(Prop(s, "statusCode"), Prop(s, "code")))
  }

  function PriorityOption(p: Value): Value {
    OptionObject(Prop(p, "id"), Prop(p, "name"), Prop(p, "code"))
  }

  function TypeOption(t: Value): Value {
    OptionObject(Or(Prop(t, "typeId"), Prop(t, "id")), Or(Prop(t, "typeName"), Prop(t, "name")),
      Or(Prop(t, "typeCode"), Prop(t, "code")))
  }

  /** `attribute.attributeId || ''` */
  function IdText(a: Attribute): string {
    if Present(a.attributeId) then a.attributeId.value else ""
  }

  predicate NamesStatus(a: Attribute) { Contains(IdText(a), "status") || Contains(IdText(a), "Status") }

  predicate NamesPriority(a: Attribute) { Contains(IdText(a), "priority") || Contains(IdText(a), "Priority") }

  predicate NamesType(a: Attribute) { Contains(IdText(a), "type") || Contains(IdText(a), "Type") }

  /** `attribute.right[0].options`, or `[]` when there is none. */
  function RightOptions(a: Attribute): seq<Value> {
    if |a.right| > 0 && a.right[0].options.Some? then a.right[0].options.value else []
  }

  /**
   * `getAttributeOptions(attribute, configData)`; `None` stands for the
   * TypeError the list mapping throws on a malformed reference list.
   */
  function GetAttributeOptions(attribute: Option<Attribute>, configData: Option<ConfigData>): (r: Option<seq<Value>>)
    ensures attribute.None? || configData.None? ==> r == Some([])
    ensures r.None? ==> attribute.Some? && attribute.value.options.None?
  {
    if attribute.None? || configData.None? then Some([])
    else
      var a, c := attribute.value, configData.value;
      if a.options.Some? then a.options
      else if NamesStatus(a) then MapList(c.statuses, StatusOption)
      else if NamesPriority(a) then MapList(c.priorities, PriorityOption)
      else if NamesType(a) then MapList(c.types, TypeOption)
      else Some(RightOptions(a))
  }

  /**
   * The precedence of the option sources: the attribute's own list first,
   * whatever its id says; then the status, priority and type lists, in
   * that order, chosen by the id alone (so `right[0].options` is ignored);
   * `right[0].options` only for an id naming none of them. A list from the
   * configuration has one option per entry, each an object with exactly
   * `id`, `name` and `code`.
   */
  lemma OptionsPrecedence(a: Attribute, c: ConfigData)
    ensures a.options.Some? ==> GetAttributeOptions(Some(a), Some(c)) == a.options
    ensures a.options.None? && NamesStatus(a) ==>
      GetAttributeOptions(Some(a), Some(c)) == MapList(c.statuses, StatusOption)
    ensures a.options.None? && !NamesStatus(a) && NamesPriority(a) ==>
      GetAttributeOptions(Some(a), Some(c)) == MapList(c.priorities, PriorityOption)
    ensures a.options.None? && !NamesStatus(a) && !NamesPriority(a) && NamesType(a) ==>
      GetAttributeOptions(Some(a), Some(c)) == MapList(c.types, TypeOption)
    ensures a.options.None? && !NamesStatus(a) && !NamesPriority(a) && !NamesType(a) ==>
      GetAttributeOptions(Some(a), Some(c)) == Some(RightOptions(a))
    ensures a.options.None? && (NamesStatus(a) || NamesPriority(a) || NamesType(a)) ==>
      var r := GetAttributeOptions(Some(a), Some(c));
      r.Some? ==> forall i :: 0 <= i < |r.value| ==> r.value[i].Obj? && r.value[i].fields.Keys == {"id", "name", "code"}
  {
  }

  /** An id-less attribute without its own list takes `right[0].options`, and never throws. */
  lemma NoIdTakesRightOptions(a: Attribute, c: ConfigData)
    requires a.options.None? && !Present(a.attributeId)
    ensures GetAttributeOptions(Some(a), Some(c)) == Some(RightOptions(a))
  {
    assert !Contains("", "status") && !Contains("", "Status") && !Contains("", "priority");
    assert !Contains("", "Priority") && !Contains("", "type") && !Contains("", "Type");
  }

  /** The status mapping prefers `statusId`, `statusName` and `statusCode` over the plain properties. */
  lemma StatusOptionFields(s: Value)
    ensures Truthy(Prop(s, "statusId")) ==> Prop(StatusOption(s), "id") == Prop(s, "statusId")
    ensures !Truthy(Prop(s, "statusId")) ==> Prop(StatusOption(s), "id") == Prop(s, "id")
    ensures Truthy(Prop(s, "statusName")) ==> Prop(StatusOption(s), "name") == Prop(s, "statusName")
    ensures !Truthy(Prop(s, "statusName")) ==> Prop(StatusOption(s), "name") == Prop(s, "name")
    ensures Truthy(Prop(s, "statusCode")) ==> Prop(StatusOption(s), "code") == Prop(s, "statusCode")
    ensures !Truthy(Prop(s, "statusCode")) ==> Prop(StatusOption(s), "code") == Prop(s, "code")
  {
  }
}
