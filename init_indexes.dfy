/**
 * The lookup tables the renderer initialisation builds over the layout:
 * sections by id, attributes by id, the owning sections of each attribute,
 * the inverted dependency lists and the reference-field groups. Each table
 * is specified as the list of key/value pairs the source stores, in the
 * order it stores them.
 */
module InitIndexes {
  import opened Wrappers
  import opened JsValues
  import opened Layout
  import opened KeyedFolds
  import opened Seqs

  /** `section.sectionId || section.id`: the owner id pushed for its attributes. */
  function Owner(s: Section): Option<string> { OrStr(s.sectionId, s.id) }

  /** `attribute.attributeId || attribute.id` */
  function AttrKey(a: Attribute): Option<string> { OrStr(a.attributeId, a.id) }

  predicate IsTable(s: Section) { s.sectionType == Some("table") }

  /** One indexed attribute occurrence: its key, the attribute and the owner id pushed for it. */
  datatype Occ = Occ(key: string, attribute: Attribute, owner: Option<string>)

  /** The occurrences in one attribute list, skipping attributes without a truthy key. */
  function AttrOccs(attrs: seq<Attribute>, owner: Option<string>): seq<Occ>
    decreases |attrs|
  {
    if attrs == [] then []
    else
      var a := attrs[|attrs| - 1];
      AttrOccs(attrs[..|attrs| - 1], owner) + (if Present(AttrKey(a)) then [Occ(AttrKey(a).value, a, owner)] else [])
  }

  /** The occurrences in the columns of a table section, column by column. */
  function ColumnOccs(cols: seq<Column>, owner: Option<string>): seq<Occ>
    decreases |cols|
  {
    if cols == [] then []
    else ColumnOccs(cols[..|cols| - 1], owner) + AttrOccs(cols[|cols| - 1].attributes, owner)
  }

  /**
   * The occurrences in a section list: for each section its attributes,
   * then those of its inner sections, then (for a table) its columns.
   */
  function Occs(ss: seq<Section>): seq<Occ>
    decreases ss
  {
    if ss == [] then []
    else
      var s := ss[|ss| - 1];
      Occs(ss[..|ss| - 1]) + SectionOccs(s)
  }

  function SectionOccs(s: Section): seq<Occ>
    decreases s
  {
    AttrOccs(s.attributes, Owner(s)) + Occs(s.sections)
    + (if IsTable(s) then ColumnOccs(s.columns, Owner(s)) else [])
  }

  /** The `sectionsMap` assignments: a section under its owner id, then its inner sections. */
  function SectionPairs(ss: seq<Section>): seq<(string, Section)>
    decreases ss
  {
    if ss == [] then []
    else
      var s := ss[|ss| - 1];
      SectionPairs(ss[..|ss| - 1]) + OwnSectionPairs(s)
  }

  function OwnSectionPairs(s: Section): seq<(string, Section)>
    decreases s
  {
    (if Present(Owner(s)) then [(Owner(s).value, s)] else []) + SectionPairs(s.sections)
  }

  /** The `attributesMap` assignments of some occurrences. */
  function AttrPairs(os: seq<Occ>): (ps: seq<(string, Attribute)>)
    ensures |ps| == |os|
    ensures forall i :: 0 <= i < |os| ==> ps[i] == (os[i].key, os[i].attribute)
  {
    seq(|os|, i requires 0 <= i < |os| => (os[i].key, os[i].attribute))
  }

  /** The `attributeSectionsMap` pushes of some occurrences. */
  function OwnerPairs(os: seq<Occ>): (ps: seq<(string, Option<string>)>)
    ensures |ps| == |os|
    ensures forall i :: 0 <= i < |os| ==> ps[i] == (os[i].key, os[i].owner)
  {
    seq(|os|, i requires 0 <= i < |os| => (os[i].key, os[i].owner))
  }

  lemma PairsAppend(a: seq<Occ>, b: seq<Occ>)
    ensures AttrPairs(a + b) == AttrPairs(a) + AttrPairs(b)
    ensures OwnerPairs(a + b) == OwnerPairs(a) + OwnerPairs(b)
  {
  }

  // ---------------------------------------------------------------------
  // Where an attribute sits in the layout, independently of the traversal

  /** `a` occurs in the section list with owner id `o`: directly, in an inner section, or in a table column. */
  predicate InTree(ss: seq<Section>, a: Attribute, o: Option<string>)
    decreases ss, 1
  {
    exists i :: 0 <= i < |ss| && InSection(ss[i], a, o)
  }

  /** `a` occurs in the section itself, in one of its inner sections, or (for a table) in one of its columns. */
  predicate InSection(s: Section, a: Attribute, o: Option<string>)
    decreases s, 0
  {
    (a in s.attributes && o == Owner(s))
    || InTree(s.sections, a, o)
    || (IsTable(s) && o == Owner(s) && exists c :: 0 <= c < |s.columns| && a in s.columns[c].attributes)
  }

  lemma InTreeSnoc(ss: seq<Section>, a: Attribute, o: Option<string>)
    requires ss != []
    ensures InTree(ss, a, o) <==> InTree(ss[..|ss| - 1], a, o) || InSection(ss[|ss| - 1], a, o)
  {
    var n := |ss| - 1;
    if InTree(ss, a, o) {
      var i :| 0 <= i < |ss| && InSection(ss[i], a, o);
      if i < n {
        assert ss[..n][i] == ss[i];
      }
    }
    if InTree(ss[..n], a, o) {
      var i :| 0 <= i < n && InSection(ss[..n][i], a, o);
      assert ss[..n][i] == ss[i];
    }
  }

  lemma {:induction false} AttrOccsMember(attrs: seq<Attribute>, owner: Option<string>, x: Occ)
    ensures x in AttrOccs(attrs, owner) <==>
      x.attribute in attrs && x.owner == owner && AttrKey(x.attribute) == Some(x.key) && x.key != ""
    decreases |attrs|
  {
    if attrs != [] {
      var n := |attrs| - 1;
      AttrOccsMember(attrs[..n], owner, x);
      assert attrs == attrs[..n] + [attrs[n]];
    }
  }

  lemma {:induction false} ColumnOccsMember(cols: seq<Column>, owner: Option<string>, x: Occ)
    ensures x in ColumnOccs(cols, owner) <==>
      x.owner == owner && AttrKey(x.attribute) == Some(x.key) && x.key != ""
      && exists c :: 0 <= c < |cols| && x.attribute in cols[c].attributes
    decreases |cols|
  {
    if cols != [] {
      var n := |cols| - 1;
      ColumnOccsMember(cols[..n], owner, x);
      AttrOccsMember(cols[n].attributes, owner, x);
      if exists c :: 0 <= c < |cols| && x.attribute in cols[c].attributes {
        var c :| 0 <= c < |cols| && x.attribute in cols[c].attributes;
        if c < n {
          assert cols[..n][c] == cols[c];
        }
      }
      if exists c :: 0 <= c < n && x.attribute in cols[..n][c].attributes {
        var c :| 0 <= c < n && x.attribute in cols[..n][c].attributes;
        assert cols[..n][c] == cols[c];
      }
    }
  }

  /**
   * The traversal visits exactly the attributes of the layout with a
   * truthy key, each with the id of the section that holds it (for a
   * column attribute, the table section).
   */
  lemma {:induction false} OccsMember(ss: seq<Section>, x: Occ)
    ensures x in Occs(ss) <==> InTree(ss, x.attribute, x.owner) && AttrKey(x.attribute) == Some(x.key) && x.key != ""
    decreases ss
  {
    if ss != [] {
      var n := |ss| - 1;
      var s := ss[n];
      OccsMember(ss[..n], x);
      OccsMember(s.sections, x);
      AttrOccsMember(s.attributes, Owner(s), x);
      ColumnOccsMember(s.columns, Owner(s), x);
      InTreeSnoc(ss, x.attribute, x.owner);
    }
  }

  // ---------------------------------------------------------------------
  // Derived sections

  /** `derivedSectionsMap[k]?.[0]` for every key, in enumeration order, when present. */
  function DrivingSections(derived: map<string, seq<Section>>, keys: seq<string>): (ds: seq<Section>)
    ensures |ds| <= |keys|
    ensures forall s :: s in ds ==> exists k :: k in keys && k in derived && derived[k] != [] && derived[k][0] == s
    decreases |keys|
  {
    if keys == [] then []
    else
      var k := keys[|keys| - 1];
      var ds := DrivingSections(derived, keys[..|keys| - 1]);
      assert forall x :: x in keys[..|keys| - 1] ==> x in keys;
      ds + (if k in derived && derived[k] != [] then [derived[k][0]] else [])
  }

  // ---------------------------------------------------------------------
  // Dependencies

  /**
   * `configCache.dependencyAttributes` when it is an array: each element
   * is `None` when falsy, otherwise the object's own (key, value) pairs in
   * enumeration order.
   */
  type DependencyEntries = seq<Option<seq<(string, Value)>>>

  /** The pushes for one key whose value is the array `items`: every element, as a property key. */
  function DependentPairs(key: string, items: seq<Value>): (ps: seq<(string, string)>)
    ensures forall d, k :: (d, k) in ps <==> k == key && exists m :: 0 <= m < |items| && ToText(items[m]) == d
  {
    var ps := seq(|items|, m requires 0 <= m < |items| => (ToText(items[m]), key));
    assert forall m :: 0 <= m < |items| ==> ps[m] == (ToText(items[m]), key);
    ps
  }

  /** The pushes `dependsOnMap[dependent].push(key)` of one entry, in order. */
  function EntryPairs(kvs: seq<(string, Value)>): seq<(string, string)>
    decreases |kvs|
  {
    if kvs == [] then []
    else
      var kv := kvs[|kvs| - 1];
      EntryPairs(kvs[..|kvs| - 1]) + (if kv.1.Arr? then DependentPairs(kv.0, kv.1.items) else [])
  }

  function DependencyPairs(es: DependencyEntries): seq<(string, string)>
    decreases |es|
  {
    if es == [] then []
    else
      var e := es[|es| - 1];
      DependencyPairs(es[..|es| - 1]) + (if e.Some? then EntryPairs(e.value) else [])
  }

  /** The value under `key` in one entry is an array listing `dependent`. */
  predicate ListedUnder(kv: (string, Value), key: string, dependent: string) {
    kv.0 == key && kv.1.Arr? && exists m :: 0 <= m < |kv.1.items| && ToText(kv.1.items[m]) == dependent
  }

  predicate EntryLists(kvs: seq<(string, Value)>, key: string, dependent: string) {
    exists j :: 0 <= j < |kvs| && ListedUnder(kvs[j], key, dependent)
  }

  /** Some entry lists `dependent` (as a property key) in the array under `key`. */
  predicate Lists(es: DependencyEntries, key: string, dependent: string) {
    exists i :: 0 <= i < |es| && es[i].Some? && EntryLists(es[i].value, key, dependent)
  }

  lemma {:induction false} EntryPairsMember(kvs: seq<(string, Value)>, key: string, dependent: string)
    ensures (dependent, key) in EntryPairs(kvs) <==> EntryLists(kvs, key, dependent)
    decreases |kvs|
  {
    if kvs != [] {
      var n := |kvs| - 1;
      EntryPairsMember(kvs[..n], key, dependent);
      var last := if kvs[n].1.Arr? then DependentPairs(kvs[n].0, kvs[n].1.items) else [];
      assert EntryPairs(kvs) == EntryPairs(kvs[..n]) + last;
      LastListed(kvs[n], key, dependent);
      EntryListsStep(kvs, key, dependent);
    }
  }

  /** The pushes of one (key, value) pair list `dependent` under `key` iff its array does. */
  lemma LastListed(kv: (string, Value), key: string, dependent: string)
    ensures var last := if kv.1.Arr? then DependentPairs(kv.0, kv.1.items) else [];
      (dependent, key) in last <==> ListedUnder(kv, key, dependent)
  {
  }

  /** One pair more: it lists what the pairs before it list, and what it lists itself. */
  lemma EntryListsStep(kvs: seq<(string, Value)>, key: string, dependent: string)
    requires kvs != []
    ensures EntryLists(kvs, key, dependent) <==>
      EntryLists(kvs[..|kvs| - 1], key, dependent) || ListedUnder(kvs[|kvs| - 1], key, dependent)
  {
    var n := |kvs| - 1;
    if EntryLists(kvs, key, dependent) {
      var j :| 0 <= j < |kvs| && ListedUnder(kvs[j], key, dependent);
      if j < n {
        assert kvs[..n][j] == kvs[j];
      }
    }
    if EntryLists(kvs[..n], key, dependent) {
      var j :| 0 <= j < n && ListedUnder(kvs[..n][j], key, dependent);
      assert kvs[..n][j] == kvs[j];
    }
  }

  lemma {:induction false} DependencyPairsMember(es: DependencyEntries, key: string, dependent: string)
    ensures (dependent, key) in DependencyPairs(es) <==> Lists(es, key, dependent)
    decreases |es|
  {
    if es != [] {
      var n := |es| - 1;
      DependencyPairsMember(es[..n], key, dependent);
      if es[n].Some? {
        EntryPairsMember(es[n].value, key, dependent);
      }
      if Lists(es, key, dependent) {
        var i :| 0 <= i < |es| && es[i].Some? && EntryLists(es[i].value, key, dependent);
        if i < n {
          assert es[..n][i] == es[i];
        }
      }
      if Lists(es[..n], key, dependent) {
        var i :| 0 <= i < n && es[..n][i].Some? && EntryLists(es[..n][i].value, key, dependent);
        assert es[..n][i] == es[i];
      }
    }
  }

  /**
   * The inverted dependency map: `key` is listed under `dependent` iff some
   * entry lists `dependent` under `key`, once per listing.
   */
  lemma DependsOnInverse(es: DependencyEntries, key: string, dependent: string)
    ensures key in Lookup(Push(map[], DependencyPairs(es)), dependent) <==> Lists(es, key, dependent)
  {
    PushLookup(map[], DependencyPairs(es), dependent);
    ValuesForMember(DependencyPairs(es), dependent, key);
    DependencyPairsMember(es, key, dependent);
  }

  // ---------------------------------------------------------------------
  // Reference fields

  /** `referenceFieldsMap[ref].push(attribute)` for the direct attributes of the given sections. */
  function ReferencePairs(ss: seq<Section>): seq<(string, Attribute)>
    decreases |ss|
  {
    if ss == [] then []
    else ReferencePairs(ss[..|ss| - 1]) + ReferencePairsOf(ss[|ss| - 1].attributes)
  }

  function ReferencePairsOf(attrs: seq<Attribute>): seq<(string, Attribute)>
    decreases |attrs|
  {
    if attrs == [] then []
    else
      var a := attrs[|attrs| - 1];
      ReferencePairsOf(attrs[..|attrs| - 1])
      + (if Present(a.referenceAttributeId) then [(a.referenceAttributeId.value, a)] else [])
  }

  lemma {:induction false} ReferencePairsOfMember(attrs: seq<Attribute>, r: string, a: Attribute)
    ensures (r, a) in ReferencePairsOf(attrs) <==> a in attrs && a.referenceAttributeId == Some(r) && r != ""
    decreases |attrs|
  {
    if attrs != [] {
      var n := |attrs| - 1;
      ReferencePairsOfMember(attrs[..n], r, a);
      assert attrs == attrs[..n] + [attrs[n]];
    }
  }

  /** `a` is a direct attribute of one of the sections. */
  predicate TopLevel(ss: seq<Section>, a: Attribute) {
    exists i :: 0 <= i < |ss| && a in ss[i].attributes
  }

  /** One section more: its own attributes join those of the sections before it. */
  lemma TopLevelStep(ss: seq<Section>, a: Attribute)
    requires ss != []
    ensures TopLevel(ss, a) <==> TopLevel(ss[..|ss| - 1], a) || a in ss[|ss| - 1].attributes
  {
    var n := |ss| - 1;
    if TopLevel(ss, a) {
      var i :| 0 <= i < |ss| && a in ss[i].attributes;
      if i < n {
        assert ss[..n][i] == ss[i];
      }
    }
    if TopLevel(ss[..n], a) {
      var i :| 0 <= i < n && a in ss[..n][i].attributes;
      assert ss[..n][i] == ss[i];
    }
  }

  /**
   * The reference map groups the direct attributes of the top-level
   * sections by their non-empty `referenceAttributeId`; attributes of inner
   * sections are not grouped.
   */
  lemma {:induction false} ReferencePairsMember(ss: seq<Section>, r: string, a: Attribute)
    ensures (r, a) in ReferencePairs(ss) <==> TopLevel(ss, a) && a.referenceAttributeId == Some(r) && r != ""
    decreases |ss|
  {
    if ss != [] {
      var n := |ss| - 1;
      var before := ReferencePairs(ss[..n]);
      var last := ReferencePairsOf(ss[n].attributes);
      assert ReferencePairs(ss) == before + last;
      ReferencePairsMember(ss[..n], r, a);
      ReferencePairsOfMember(ss[n].attributes, r, a);
      TopLevelStep(ss, a);
    }
  }

  /**
   * The reference map groups the direct attributes of the top-level
   * sections by reference id, every attribute under its own id.
   */
  lemma ReferenceGroups(ss: seq<Section>, r: string, a: Attribute)
    ensures a in Lookup(Push(map[], ReferencePairs(ss)), r) <==> TopLevel(ss, a) && a.referenceAttributeId == Some(r) && r != ""
    ensures Lookup(Push(map[], ReferencePairs(ss)), r) == ReferenceGroup(ss, r)
  {
    PushLookup(map[], ReferencePairs(ss), r);
    ValuesForMember(ReferencePairs(ss), r, a);
    ReferencePairsMember(ss, r, a);
    ReferenceGroupOrder(ss, r, a);
  }

  /** The direct attributes of the sections, section by section. */
  function TopAttrs(ss: seq<Section>): seq<Attribute>
    decreases |ss|
  {
    if ss == [] then [] else TopAttrs(ss[..|ss| - 1]) + ss[|ss| - 1].attributes
  }

  /** The attribute refers to `r` through `associatedField.referenceAttributeId`. */
  function RefersTo(r: string): Attribute -> bool {
    (a: Attribute) => a.referenceAttributeId == Some(r)
  }

  /** The group the reference map should hold under `r`: the direct attributes referring to it, in layout order. */
  function ReferenceGroup(ss: seq<Section>, r: string): seq<Attribute> {
    if r == "" then [] else Select(TopAttrs(ss), RefersTo(r))
  }

  lemma {:induction false} ReferenceValuesOf(attrs: seq<Attribute>, r: string)
    ensures ValuesFor(ReferencePairsOf(attrs), r) == if r == "" then [] else Select(attrs, RefersTo(r))
    decreases |attrs|
  {
    if attrs != [] {
      var n := |attrs| - 1;
      var a := attrs[n];
      var last := if Present(a.referenceAttributeId) then [(a.referenceAttributeId.value, a)] else [];
      ReferenceValuesOf(attrs[..n], r);
      ValuesForAppend(ReferencePairsOf(attrs[..n]), last, r);
      assert last != [] ==> last[..0] == [];
    }
  }

  lemma {:induction false} ReferenceValues(ss: seq<Section>, r: string)
    ensures ValuesFor(ReferencePairs(ss), r) == ReferenceGroup(ss, r)
    decreases |ss|
  {
    if ss != [] {
      var n := |ss| - 1;
      ReferenceValues(ss[..n], r);
      ReferenceValuesOf(ss[n].attributes, r);
      ValuesForAppend(ReferencePairs(ss[..n]), ReferencePairsOf(ss[n].attributes), r);
      SelectAppend(TopAttrs(ss[..n]), ss[n].attributes, RefersTo(r));
    }
  }

  /**
   * The list under a reference id holds the direct attributes of the
   * top-level sections that refer to it, in layout order and once per
   * occurrence; an empty id has no list.
   */
  lemma ReferenceGroupOrder(ss: seq<Section>, r: string, a: Attribute)
    ensures Lookup(Push(map[], ReferencePairs(ss)), r) == ReferenceGroup(ss, r)
    ensures r != "" ==> Subseq(Lookup(Push(map[], ReferencePairs(ss)), r), TopAttrs(ss))
    ensures r != "" ==> multiset(Lookup(Push(map[], ReferencePairs(ss)), r))[a]
                        == if a.referenceAttributeId == Some(r) then multiset(TopAttrs(ss))[a] else 0
  {
    PushLookup(map[], ReferencePairs(ss), r);
    ReferenceValues(ss, r);
    if r != "" {
      SelectSubseq(TopAttrs(ss), RefersTo(r));
      SelectCounts(TopAttrs(ss), RefersTo(r), a);
    }
  }

  // ---------------------------------------------------------------------
  // What the tables hold

  /** `t` is one of the sections or sits inside one of them, at any depth. */
  predicate SectionInTree(ss: seq<Section>, t: Section)
    decreases ss, 1
  {
    exists i :: 0 <= i < |ss| && SectionAt(ss[i], t)
  }

  predicate SectionAt(s: Section, t: Section)
    decreases s, 0
  {
    t == s || SectionInTree(s.sections, t)
  }

  lemma SectionInTreeSnoc(ss: seq<Section>, t: Section)
    requires ss != []
    ensures SectionInTree(ss, t) <==> SectionInTree(ss[..|ss| - 1], t) || SectionAt(ss[|ss| - 1], t)
  {
    var n := |ss| - 1;
    if SectionInTree(ss, t) {
      var i :| 0 <= i < |ss| && SectionAt(ss[i], t);
      if i < n {
        assert ss[..n][i] == ss[i];
      }
    }
    if SectionInTree(ss[..n], t) {
      var i :| 0 <= i < n && SectionAt(ss[..n][i], t);
      assert ss[..n][i] == ss[i];
    }
  }

  /** The `sectionsMap` assignments name every section of the tree under its non-empty id, and nothing else. */
  lemma {:induction false} SectionPairsMember(ss: seq<Section>, k: string, t: Section)
    ensures (k, t) in SectionPairs(ss) <==> SectionInTree(ss, t) && Owner(t) == Some(k) && k != ""
    decreases ss
  {
    if ss != [] {
      var n := |ss| - 1;
      var s := ss[n];
      SectionPairsMember(ss[..n], k, t);
      SectionPairsMember(s.sections, k, t);
      SectionInTreeSnoc(ss, t);
      assert SectionPairs(ss) == SectionPairs(ss[..n]) + OwnSectionPairs(s);
    }
  }

  lemma AttrPairsMember(os: seq<Occ>, k: string, a: Attribute)
    ensures (k, a) in AttrPairs(os) <==> exists x :: x in os && x.key == k && x.attribute == a
  {
    if (k, a) in AttrPairs(os) {
      var i :| 0 <= i < |os| && AttrPairs(os)[i] == (k, a);
      assert os[i] in os;
    }
    if exists x :: x in os && x.key == k && x.attribute == a {
      var x :| x in os && x.key == k && x.attribute == a;
      var i :| 0 <= i < |os| && os[i] == x;
      assert AttrPairs(os)[i] == (k, a);
    }
  }

  lemma OwnerPairsMember(os: seq<Occ>, k: string, o: Option<string>)
    ensures (k, o) in OwnerPairs(os) <==> exists x :: x in os && x.key == k && x.owner == o
  {
    if (k, o) in OwnerPairs(os) {
      var i :| 0 <= i < |os| && OwnerPairs(os)[i] == (k, o);
      assert os[i] in os;
    }
    if exists x :: x in os && x.key == k && x.owner == o {
      var x :| x in os && x.key == k && x.owner == o;
      var i :| 0 <= i < |os| && os[i] == x;
      assert OwnerPairs(os)[i] == (k, o);
    }
  }

  /** `a` sits in the tree with owner id `o` and has the non-empty id `k`. */
  predicate Holds(ss: seq<Section>, k: string, a: Attribute, o: Option<string>) {
    InTree(ss, a, o) && AttrKey(a) == Some(k) && k != ""
  }

  lemma OccsPairs(ss: seq<Section>, k: string, a: Attribute, o: Option<string>)
    ensures (k, o) in OwnerPairs(Occs(ss)) <==> exists a' :: Holds(ss, k, a', o)
    ensures (k, a) in AttrPairs(Occs(ss)) <==> exists o' :: Holds(ss, k, a, o')
  {
    OwnerPairsMember(Occs(ss), k, o);
    AttrPairsMember(Occs(ss), k, a);
    if (k, o) in OwnerPairs(Occs(ss)) {
      var x :| x in Occs(ss) && x.key == k && x.owner == o;
      OccsMember(ss, x);
      assert Holds(ss, k, x.attribute, o);
    }
    if exists a' :: Holds(ss, k, a', o) {
      var a' :| Holds(ss, k, a', o);
      OccsMember(ss, Occ(k, a', o));
    }
    if (k, a) in AttrPairs(Occs(ss)) {
      var x :| x in Occs(ss) && x.key == k && x.attribute == a;
      OccsMember(ss, x);
      assert Holds(ss, k, a, x.owner);
    }
    if exists o' :: Holds(ss, k, a, o') {
      var o' :| Holds(ss, k, a, o');
      OccsMember(ss, Occ(k, a, o'));
    }
  }

  /**
   * The owner list of an attribute id lists owner `o` iff an attribute
   * with that id sits in the top-level tree or in the driving sections
   * with owner id `o`; a missing id reads as an empty list. The list
   * holds one owner per occurrence of the id, in traversal order.
   */
  lemma OwnersListed(top: seq<Section>, driving: seq<Section>, k: string, o: Option<string>)
    ensures var om := Push(Push(map[], OwnerPairs(Occs(top))), OwnerPairs(Occs(driving)));
      && (o in Lookup(om, k) <==> exists a :: Holds(top, k, a, o) || Holds(driving, k, a, o))
      && Lookup(om, k) == Owners(Select(Occs(top) + Occs(driving), HasKey(k)))
  {
    OwnerListOrder(top, driving, k);
    var A, B := OwnerPairs(Occs(top)), OwnerPairs(Occs(driving));
    PushAppend(map[], A, B);
    PushLookup(map[], A + B, k);
    ValuesForMember(A + B, k, o);
    OccsPairs(top, k, BlankAttribute, o);
    OccsPairs(driving, k, BlankAttribute, o);
  }

  /** The occurrence carries the id `k`. */
  function HasKey(k: string): Occ -> bool {
    (x: Occ) => x.key == k
  }

  /** The owner ids of some occurrences, one per occurrence, in order. */
  function Owners(os: seq<Occ>): (r: seq<Option<string>>)
    ensures |r| == |os|
    ensures forall i :: 0 <= i < |os| ==> r[i] == os[i].owner
  {
    seq(|os|, i requires 0 <= i < |os| => os[i].owner)
  }

  lemma {:induction false} OwnerValues(os: seq<Occ>, k: string)
    ensures ValuesFor(OwnerPairs(os), k) == Owners(Select(os, HasKey(k)))
    decreases |os|
  {
    if os != [] {
      var n := |os| - 1;
      OwnerValues(os[..n], k);
      assert OwnerPairs(os)[..n] == OwnerPairs(os[..n]);
      var kept := Select(os[..n], HasKey(k));
      var last := if HasKey(k)(os[n]) then [os[n]] else [];
      assert Owners(kept + last) == Owners(kept) + Owners(last);
    }
  }

  /**
   * The owner list of an attribute id names the owner of every occurrence
   * of that id, once per occurrence, in traversal order: first the
   * top-level tree, then the driving sections.
   */
  lemma OwnerListOrder(top: seq<Section>, driving: seq<Section>, k: string)
    ensures var om := Push(Push(map[], OwnerPairs(Occs(top))), OwnerPairs(Occs(driving)));
      Lookup(om, k) == Owners(Select(Occs(top) + Occs(driving), HasKey(k)))
      && |Lookup(om, k)| == |Select(Occs(top) + Occs(driving), HasKey(k))|
  {
    var A, B := OwnerPairs(Occs(top)), OwnerPairs(Occs(driving));
    PushAppend(map[], A, B);
    PushLookup(map[], A + B, k);
    PairsAppend(Occs(top), Occs(driving));
    OwnerValues(Occs(top) + Occs(driving), k);
  }

  /**
   * An id is a key of the attribute table iff some attribute of either
   * tree has it, and the attribute stored under it is such an attribute.
   */
  lemma AttributesListed(top: seq<Section>, driving: seq<Section>, k: string)
    ensures var am := Put(Put(map[], AttrPairs(Occs(top))), AttrPairs(Occs(driving)));
      (k in am <==> exists a, o :: Holds(top, k, a, o) || Holds(driving, k, a, o))
      && (k in am ==> exists o :: Holds(top, k, am[k], o) || Holds(driving, k, am[k], o))
  {
    var A, B := AttrPairs(Occs(top)), AttrPairs(Occs(driving));
    PutAppend(map[], A, B);
    PutFromEmpty(A + B, k);
    forall a
      ensures (k, a) in A + B <==> exists o :: Holds(top, k, a, o) || Holds(driving, k, a, o)
    {
      OccsPairs(top, k, a, None);
      OccsPairs(driving, k, a, None);
    }
    if exists a, o :: Holds(top, k, a, o) || Holds(driving, k, a, o) {
      var a, o :| Holds(top, k, a, o) || Holds(driving, k, a, o);
      assert (k, a) in A + B;
    }
  }

  /**
   * A section is stored under `k` in the section table iff some section
   * of either tree has the id `k`, and the section stored is such a section.
   */
  lemma SectionsListed(top: seq<Section>, driving: seq<Section>, k: string)
    ensures var sm := Put(Put(map[], SectionPairs(top)), SectionPairs(driving));
      (k in sm <==> exists t :: (SectionInTree(top, t) || SectionInTree(driving, t)) && Owner(t) == Some(k) && k != "")
      && (k in sm ==> (SectionInTree(top, sm[k]) || SectionInTree(driving, sm[k])) && Owner(sm[k]) == Some(k))
  {
    var A, B := SectionPairs(top), SectionPairs(driving);
    PutAppend(map[], A, B);
    PutFromEmpty(A + B, k);
    forall t
      ensures (k, t) in A + B <==> (SectionInTree(top, t) || SectionInTree(driving, t)) && Owner(t) == Some(k) && k != ""
    {
      SectionPairsMember(top, k, t);
      SectionPairsMember(driving, k, t);
    }
  }
}
