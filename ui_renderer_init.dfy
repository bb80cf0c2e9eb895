/**
 * The renderer initialisation sequence over the options object of a form
 * session (`uiOptions`): mode and currency defaults, the lookup tables, the
 * layout upgrade, the section filter, the custom-attribute entries and the
 * reference-field groups, each step updating fields of the session in place.
 */
module UiRendererInit {
  import opened Wrappers
  import opened JsValues
  import opened Layout
  import opened KeyedFolds
  import opened InitIndexes
  import opened LayoutUpgrade
  import opened Seqs
  import opened SectionFilter
  import opened CustomAttributes

  /** `configCache`: the currency symbol type and `dependencyAttributes` when it is an array. */
  datatype ConfigCache = ConfigCache(currencySymbolType: Option<string>, dependencyAttributes: Option<DependencyEntries>)

  // ---------------------------------------------------------------------
  // The steps as functions of the session's fields

  /** The mode after initialisation: an absent mode takes the argument, an existing one becomes VIEW on a VIEW page. */
  function NextMode(mode: Option<string>, pageMode: Option<string>, arg: string): (r: Option<string>)
    ensures !Present(mode) ==> r == Some(arg)
    ensures Present(mode) && pageMode == Some("VIEW") ==> r == Some("VIEW")
    ensures Present(mode) && pageMode != Some("VIEW") ==> r == mode
  {
    if !Present(mode) then Some(arg)
    else if pageMode == Some("VIEW") then Some("VIEW")
    else mode
  }

  /** Running the mode step twice gives what running it once gives, except for an absent mode on a VIEW page. */
  lemma NextModeSettles(mode: Option<string>, pageMode: Option<string>, arg: string)
    ensures NextMode(NextMode(mode, pageMode, arg), pageMode, arg) == NextMode(mode, pageMode, arg)
      <==> !(!Present(mode) && pageMode == Some("VIEW") && arg != "" && arg != "VIEW")
    ensures NextMode(NextMode(NextMode(mode, pageMode, arg), pageMode, arg), pageMode, arg)
      == NextMode(NextMode(mode, pageMode, arg), pageMode, arg)
  {
  }

  /** A session created without a mode on a VIEW page is CREATE after one initialisation and VIEW after two. */
  lemma ModeChangesOnSecondRun()
    ensures NextMode(None, Some("VIEW"), "CREATE") == Some("CREATE")
    ensures NextMode(NextMode(None, Some("VIEW"), "CREATE"), Some("VIEW"), "CREATE") == Some("VIEW")
  {
  }

  /** `configCache.currencySymbolType` when truthy, else the symbol format. */
  function CurrencyFormat(cc: Option<ConfigCache>): (r: string)
    ensures cc.Some? && Present(cc.value.currencySymbolType) ==> r == cc.value.currencySymbolType.value
    ensures !(cc.Some? && Present(cc.value.currencySymbolType)) ==> r == "CURRENCY_FORMAT_SYMBOL"
    ensures r != ""
  {
    if cc.Some? && Present(cc.value.currencySymbolType) then cc.value.currencySymbolType.value
    else "CURRENCY_FORMAT_SYMBOL"
  }

  /** `getObjectId`: the session's own id, else the layout's, else null. */
  function GetObjectId(objectId: Value, webLayout: Option<WebLayout>): (r: Value)
    ensures Truthy(objectId) ==> r == objectId
    ensures !Truthy(objectId) && webLayout.Some? && Truthy(webLayout.value.objectId) ==> r == webLayout.value.objectId
    ensures Truthy(r) <==> Truthy(objectId) || (webLayout.Some? && Truthy(webLayout.value.objectId))
    ensures !Truthy(r) ==> r == Null
  {
    if Truthy(objectId) then objectId
    else if webLayout.Some? && Truthy(webLayout.value.objectId) then webLayout.value.objectId
    else Null
  }

  /** `isDisabledAllFields`: only the boolean `true` disables every field. */
  function IsDisabledAllFields(disableAllFields: Value): (r: Value)
    ensures r.Bool? && (r.b <==> disableAllFields == Bool(true))
  {
    Bool(disableAllFields == Bool(true))
  }

  /** `WEB_LAYOUT?.sections || []` */
  function SectionsOf(webLayout: Option<WebLayout>): seq<Section> {
    if webLayout.Some? && webLayout.value.sections.Some? then webLayout.value.sections.value else []
  }

  /** `initDependsOnMap`: unset without a config cache, `{}` when the list is not an array, else the inversion. */
  function DependsOnResult(cc: Option<ConfigCache>, dependsOnMap: Option<map<string, seq<string>>>): (r: Option<map<string, seq<string>>>)
    ensures cc.None? ==> r == dependsOnMap
    ensures cc.Some? && cc.value.dependencyAttributes.None? ==> r == Some(map[])
    ensures cc.Some? && cc.value.dependencyAttributes.Some? ==>
      r.Some? && forall key, dependent :: key in Lookup(r.value, dependent) <==> Lists(cc.value.dependencyAttributes.value, key, dependent)
  {
    if cc.None? then dependsOnMap
    else match cc.value.dependencyAttributes
      case None => Some(map[])
      case Some(es) =>
        forall key, dependent ensures key in Lookup(Push(map[], DependencyPairs(es)), dependent) <==> Lists(es, key, dependent) {
          DependsOnInverse(es, key, dependent);
        }
        Some(Push(map[], DependencyPairs(es)))
  }

  /** `initReferenceFieldMap`: unset without a layout, else the top-level attributes grouped by reference id. */
  function ReferenceResult(webLayout: Option<WebLayout>, referenceFieldsMap: Option<map<string, seq<Attribute>>>)
    : (r: Option<map<string, seq<Attribute>>>)
    ensures webLayout.None? ==> r == referenceFieldsMap
    ensures webLayout.Some? ==> r.Some?
  {
    if webLayout.None? then referenceFieldsMap
    else Some(Push(map[], ReferencePairs(SectionsOf(webLayout))))
  }

  /**
   * With a layout, an attribute is listed under `ref` in the reference map
   * iff it is a direct attribute of a top-level section whose
   * `referenceAttributeId` is the non-empty `ref`; the list holds those
   * attributes in layout order, once per occurrence.
   */
  lemma ReferenceResultGroups(webLayout: Option<WebLayout>, referenceFieldsMap: Option<map<string, seq<Attribute>>>, ref: string, a: Attribute)
    requires webLayout.Some?
    ensures a in Lookup(ReferenceResult(webLayout, referenceFieldsMap).value, ref)
      <==> TopLevel(SectionsOf(webLayout), a) && a.referenceAttributeId == Some(ref) && ref != ""
    ensures Lookup(ReferenceResult(webLayout, referenceFieldsMap).value, ref) == ReferenceGroup(SectionsOf(webLayout), ref)
  {
    ReferenceGroups(SectionsOf(webLayout), ref, a);
    ReferenceGroupOrder(SectionsOf(webLayout), ref, a);
  }

  /** `getValidSections`: with a layout that has sections, the addresses are reset and the sections filtered. */
  function ValidLayout(webLayout: Option<WebLayout>, idx: map<string, Value>): (Option<WebLayout>, map<string, Value>) {
    if webLayout.Some? && webLayout.value.sections.Some? then
      var idx1 := if Get(idx, "addresses").Arr? then idx["addresses" := ResetAll(Get(idx, "addresses"))] else idx;
      (Some(webLayout.value.(sections := Some(FilterSections(webLayout.value.sections.value)))), idx1)
    else (webLayout, idx)
  }

  /** The record with the upgrade's custom list. */
  function UpgradedRecord(webLayout: Option<WebLayout>, idx: map<string, Value>): map<string, Value> {
    var list := UpgradeList(webLayout, Get(idx, "customAttributes"));
    if list == Get(idx, "customAttributes") then idx else idx["customAttributes" := list]
  }

  /** The layout and record after upgrade, filter and custom entries, in that order. */
  function LayoutPipeline(webLayout: Option<WebLayout>, idx: map<string, Value>): (Option<WebLayout>, map<string, Value>) {
    var idx1 := UpgradedRecord(webLayout, idx);
    var wl1 := UpgradeLayout(webLayout);
    var (wl2, idx2) := ValidLayout(wl1, idx1);
    UpdateCustom(wl2, idx2)
  }

  // ---------------------------------------------------------------------
  // What the pipeline guarantees

  /** Marking attributes keeps a clean section list clean. */
  lemma MarkedKeepsClean(before: seq<Section>, after: seq<Section>)
    requires Clean(before) && |after| == |before|
    requires forall i :: 0 <= i < |before| ==> after[i] == before[i] || after[i] == Marked(before[i])
    ensures Clean(after)
  {
    forall i | 0 <= i < |after|
      ensures CleanSection(after[i])
    {
      assert CleanSection(before[i]);
    }
  }

  /**
   * After the layout steps, every section left, at every depth, is enabled,
   * visible and not empty; the record's custom list is an array unless it
   * was a truthy non-array; and addresses that were an array are reset.
   */
  lemma PipelineSpec(webLayout: Option<WebLayout>, idx: map<string, Value>)
    ensures LayoutPipeline(webLayout, idx).0.Some? <==> webLayout.Some?
    ensures webLayout.Some? && webLayout.value.sections.Some? ==>
      LayoutPipeline(webLayout, idx).0.value.sections.Some? && Clean(LayoutPipeline(webLayout, idx).0.value.sections.value)
    ensures ArrOrFalsy(Get(idx, "customAttributes")) ==> Get(LayoutPipeline(webLayout, idx).1, "customAttributes").Arr?
  {
    var idx1 := UpgradedRecord(webLayout, idx);
    var wl1 := UpgradeLayout(webLayout);
    var (wl2, idx2) := ValidLayout(wl1, idx1);
    CustomListIsArray(wl2, idx2);
    if webLayout.Some? && webLayout.value.sections.Some? {
      var ss := FilterSections(wl1.value.sections.value);
      FilterIsClean(wl1.value.sections.value);
      var idx0 := if Truthy(Get(idx2, "customAttributes")) then idx2 else idx2["customAttributes" := Arr([])];
      var r := UpdateSections(ss, idx0);
      MarkedKeepsClean(ss, r.0);
    }
    if ArrOrFalsy(Get(idx, "customAttributes")) {
      assert ArrOrFalsy(Get(idx1, "customAttributes"));
      assert ArrOrFalsy(Get(idx2, "customAttributes"));
    }
  }

  // ---------------------------------------------------------------------
  // The session

  /** The fields of a session, as one value. */
  datatype SessionState = SessionState(
    mode: Option<string>, pageMode: Option<string>, configCache: Option<ConfigCache>,
    currencyFormat: Option<string>, objectIdx: Option<map<string, Value>>, webLayout: Option<WebLayout>,
    derivedSectionsMap: Option<map<string, seq<Section>>>, sectionsMap: map<string, Section>,
    attributesMap: map<string, Attribute>, attributeSectionsMap: map<string, seq<Option<string>>>,
    dependsOnMap: Option<map<string, seq<string>>>, referenceFieldsMap: Option<map<string, seq<Attribute>>>,
    disableAllFields: Value, objectId: Value)

  /** Steps 1 to 7: mode, currency format, record, disable flag and object id. */
  function Defaults(s: SessionState, modeArg: string): SessionState {
    s.(mode := NextMode(s.mode, s.pageMode, modeArg),
       currencyFormat := Some(CurrencyFormat(s.configCache)),
       objectIdx := Some(RecordOf(s.objectIdx)),
       disableAllFields := IsDisabledAllFields(s.disableAllFields),
       objectId := GetObjectId(s.objectId, s.webLayout))
  }

  /** Steps 8 and 9: the lookup tables over the layout as it is, and the inverted dependencies. */
  function Indexes(s: SessionState, derivedKeys: seq<string>): SessionState {
    var top := SectionsOf(s.webLayout);
    var driving := DerivedSections(s.derivedSectionsMap, derivedKeys);
    s.(sectionsMap := SectionTable(top, driving),
       attributesMap := AttributeTable(top, driving),
       attributeSectionsMap := OwnerTable(top, driving),
       dependsOnMap := DependsOnResult(s.configCache, s.dependsOnMap))
  }

  /** Steps 1 to 9, before the layout is touched. */
  function Prepared(s: SessionState, modeArg: string, derivedKeys: seq<string>): SessionState {
    Indexes(Defaults(s, modeArg), derivedKeys)
  }

  /** Steps 10 to 14: the layout pipeline, then the reference groups of the final layout. */
  function Finished(s: SessionState): SessionState {
    var r := LayoutPipeline(s.webLayout, RecordOf(s.objectIdx));
    s.(webLayout := r.0, objectIdx := Some(r.1), referenceFieldsMap := ReferenceResult(r.0, s.referenceFieldsMap))
  }

  /** The session after `initializeUIRenderer(uiOptions, modeArg)`. */
  function Initialized(s: SessionState, modeArg: string, derivedKeys: seq<string>): SessionState {
    Finished(Prepared(s, modeArg, derivedKeys))
  }

  /**
   * What initialisation sets up besides the layout: the mode settles as
   * `NextMode` says, a currency format is always set, the lookup tables
   * are built from the layout as it was before filtering, the dependency
   * map inverts the configured dependencies, and the page mode, the
   * configuration and the derived sections are left alone.
   */
  lemma InitializedSettings(s: SessionState, modeArg: string, derivedKeys: seq<string>)
    ensures var r := Initialized(s, modeArg, derivedKeys);
      && r.pageMode == s.pageMode && r.configCache == s.configCache && r.derivedSectionsMap == s.derivedSectionsMap
      && r.mode == NextMode(s.mode, s.pageMode, modeArg)
      && r.currencyFormat.Some? && r.currencyFormat.value != ""
      && r.disableAllFields == IsDisabledAllFields(s.disableAllFields)
      && r.objectId == GetObjectId(s.objectId, s.webLayout)
      && Indexed(r.sectionsMap, r.attributesMap, r.attributeSectionsMap,
                 SectionsOf(s.webLayout), DerivedSections(s.derivedSectionsMap, derivedKeys))
      && r.dependsOnMap == DependsOnResult(s.configCache, s.dependsOnMap)
  {
    var d := Defaults(s, modeArg);
    assert SectionsOf(d.webLayout) == SectionsOf(s.webLayout);
  }

  /**
   * What initialisation does to the layout and the record: a layout stays
   * present iff it was, every section left is clean at every depth, and
   * the record exists and its custom list is an array unless it was a
   * truthy non-array.
   */
  lemma InitializedLayout(s: SessionState, modeArg: string, derivedKeys: seq<string>)
    ensures var r := Initialized(s, modeArg, derivedKeys);
      && (r.webLayout.Some? <==> s.webLayout.Some?)
      && (s.webLayout.Some? && s.webLayout.value.sections.Some? ==>
            r.webLayout.value.sections.Some? && Clean(r.webLayout.value.sections.value))
      && r.objectIdx.Some?
      && (ArrOrFalsy(Get(RecordOf(s.objectIdx), "customAttributes")) ==> Get(r.objectIdx.value, "customAttributes").Arr?)
  {
    var p := Prepared(s, modeArg, derivedKeys);
    assert p.webLayout == s.webLayout && p.objectIdx == Some(RecordOf(s.objectIdx));
    PipelineSpec(s.webLayout, RecordOf(s.objectIdx));
  }

  /**
   * The reference map lists `a` under `ref` iff `a` is a direct attribute
   * of the sections with that non-empty reference id, and each list is
   * the group of such attributes in layout order.
   */
  ghost predicate Grouped(refs: map<string, seq<Attribute>>, ss: seq<Section>) {
    (forall ref, a :: a in Lookup(refs, ref) <==> TopLevel(ss, a) && a.referenceAttributeId == Some(ref) && ref != "")
    && (forall ref :: Lookup(refs, ref) == ReferenceGroup(ss, ref))
  }

  /**
   * The reference map is built last, over the final layout: without a
   * layout it is left alone, with one it groups the direct attributes of
   * the final top-level sections by reference id.
   */
  lemma InitializedReferences(s: SessionState, modeArg: string, derivedKeys: seq<string>)
    ensures var r := Initialized(s, modeArg, derivedKeys);
      && (r.webLayout.None? ==> r.referenceFieldsMap == s.referenceFieldsMap)
      && (r.webLayout.Some? ==> r.referenceFieldsMap.Some? && Grouped(r.referenceFieldsMap.value, SectionsOf(r.webLayout)))
  {
    var p := Prepared(s, modeArg, derivedKeys);
    var r := Initialized(s, modeArg, derivedKeys);
    assert r.referenceFieldsMap == ReferenceResult(r.webLayout, p.referenceFieldsMap);
    assert p.referenceFieldsMap == s.referenceFieldsMap;
    if r.webLayout.Some? {
      ReferenceResultGrouped(r.webLayout, s.referenceFieldsMap);
    }
  }

  /** With a layout, the reference map groups its top-level attributes. */
  lemma ReferenceResultGrouped(webLayout: Option<WebLayout>, referenceFieldsMap: Option<map<string, seq<Attribute>>>)
    requires webLayout.Some?
    ensures ReferenceResult(webLayout, referenceFieldsMap).Some?
    ensures Grouped(ReferenceResult(webLayout, referenceFieldsMap).value, SectionsOf(webLayout))
  {
    forall ref, a
      ensures a in Lookup(ReferenceResult(webLayout, referenceFieldsMap).value, ref)
        <==> TopLevel(SectionsOf(webLayout), a) && a.referenceAttributeId == Some(ref) && ref != ""
    {
      ReferenceResultGroups(webLayout, referenceFieldsMap, ref, a);
    }
    forall ref
      ensures Lookup(ReferenceResult(webLayout, referenceFieldsMap).value, ref) == ReferenceGroup(SectionsOf(webLayout), ref)
    {
      ReferenceResultGroups(webLayout, referenceFieldsMap, ref, BlankAttribute);
    }
  }

  class Session {
    var mode: Option<string>
    var pageMode: Option<string>
    var configCache: Option<ConfigCache>
    var currencyFormat: Option<string>
    /** `objectIdx`: `None` while falsy */
    var objectIdx: Option<map<string, Value>>
    /** `WEB_LAYOUT`: `None` while falsy */
    var webLayout: Option<WebLayout>
    var derivedSectionsMap: Option<map<string, seq<Section>>>
    var sectionsMap: map<string, Section>
    var attributesMap: map<string, Attribute>
    var attributeSectionsMap: map<string, seq<Option<string>>>
    var dependsOnMap: Option<map<string, seq<string>>>
    var referenceFieldsMap: Option<map<string, seq<Attribute>>>
    var disableAllFields: Value
    var objectId: Value

    /** `attributesMap[id] = attribute` and `attributeSectionsMap[id].push(owner)` for one attribute list. */
    method IndexAttributes(attrs: seq<Attribute>, owner: Option<string>)
      modifies this`attributesMap, this`attributeSectionsMap
      ensures attributesMap == Put(old(attributesMap), AttrPairs(AttrOccs(attrs, owner)))
      ensures attributeSectionsMap == Push(old(attributeSectionsMap), OwnerPairs(AttrOccs(attrs, owner)))
    {
      var j := 0;
      while j < |attrs|
        invariant 0 <= j <= |attrs|
        invariant attributesMap == Put(old(attributesMap), AttrPairs(AttrOccs(attrs[..j], owner)))
        invariant attributeSectionsMap == Push(old(attributeSectionsMap), OwnerPairs(AttrOccs(attrs[..j], owner)))
      {
        var attribute := attrs[j];
        var attributeId := OrStr(attribute.attributeId, attribute.id);
        IndexStep(old(attributesMap), old(attributeSectionsMap), attrs, j, owner);
        if Present(attributeId) {
          var id := attributeId.value;
          attributesMap := attributesMap[id := attribute];
          attributeSectionsMap := attributeSectionsMap[id := Lookup(attributeSectionsMap, id) + [owner]];
        }
        j := j + 1;
      }
      assert attrs[..j] == attrs;
    }

    /** `getSectionsAttributesAsMap(uiOptions, sections, ...)` */
    method GetSectionsAttributesAsMap(ss: seq<Section>)
      modifies this`sectionsMap, this`attributesMap, this`attributeSectionsMap
      ensures sectionsMap == Put(old(sectionsMap), SectionPairs(ss))
      ensures attributesMap == Put(old(attributesMap), AttrPairs(Occs(ss)))
      ensures attributeSectionsMap == Push(old(attributeSectionsMap), OwnerPairs(Occs(ss)))
      decreases ss, 1
    {
      var i := 0;
      while i < |ss|
        invariant 0 <= i <= |ss|
        invariant sectionsMap == Put(old(sectionsMap), SectionPairs(ss[..i]))
        invariant attributesMap == Put(old(attributesMap), AttrPairs(Occs(ss[..i])))
        invariant attributeSectionsMap == Push(old(attributeSectionsMap), OwnerPairs(Occs(ss[..i])))
      {
        IndexSection(ss[i]);
        SectionsStep(old(sectionsMap), old(attributesMap), old(attributeSectionsMap), ss, i);
        i := i + 1;
      }
      assert ss[..i] == ss;
    }

    /** The loop body of `getSectionsAttributesAsMap` for one section. */
    method IndexSection(s: Section)
      modifies this`sectionsMap, this`attributesMap, this`attributeSectionsMap
      ensures sectionsMap == Put(old(sectionsMap), OwnSectionPairs(s))
      ensures attributesMap == Put(old(attributesMap), AttrPairs(SectionOccs(s)))
      ensures attributeSectionsMap == Push(old(attributeSectionsMap), OwnerPairs(SectionOccs(s)))
      decreases s, 0
    {
      var sectionId := OrStr(s.sectionId, s.id);
      if Present(sectionId) {
        sectionsMap := sectionsMap[sectionId.value := s];
      }
      IndexAttributes(s.attributes, sectionId);
      GetSectionsAttributesAsMap(s.sections);
      if s.sectionType == Some("table") {
        IndexColumns(s.columns, sectionId);
      }
      OwnStep(old(sectionsMap), s);
      SectionOccsSplit(old(attributesMap), old(attributeSectionsMap), s);
    }

    /** The columns loop of `getSectionsAttributesAsMap` for a table section. */
    method IndexColumns(cols: seq<Column>, owner: Option<string>)
      modifies this`attributesMap, this`attributeSectionsMap
      ensures attributesMap == Put(old(attributesMap), AttrPairs(ColumnOccs(cols, owner)))
      ensures attributeSectionsMap == Push(old(attributeSectionsMap), OwnerPairs(ColumnOccs(cols, owner)))
    {
      ghost var a0, o0 := attributesMap, attributeSectionsMap;
      var c := 0;
      while c < |cols|
        invariant 0 <= c <= |cols|
        invariant attributesMap == Put(a0, AttrPairs(ColumnOccs(cols[..c], owner)))
        invariant attributeSectionsMap == Push(o0, OwnerPairs(ColumnOccs(cols[..c], owner)))
      {
        IndexAttributes(cols[c].attributes, owner);
        ColumnsStep(a0, o0, cols, c, owner);
        c := c + 1;
      }
      assert cols[..c] == cols;
    }

    /** `prepareAttributesMap(uiOptions)`; `derivedKeys` is the enumeration order of `derivedSectionsMap`. */
    method PrepareAttributesMap(derivedKeys: seq<string>)
      modifies this`sectionsMap, this`attributesMap, this`attributeSectionsMap
      ensures Indexed(sectionsMap, attributesMap, attributeSectionsMap, SectionsOf(webLayout), DerivedSections(derivedSectionsMap, derivedKeys))
    {
      sectionsMap, attributesMap, attributeSectionsMap := map[], map[], map[];
      GetSectionsAttributesAsMap(SectionsOf(webLayout));
      if derivedSectionsMap.Some? {
        var drivingSections := DrivingSections(derivedSectionsMap.value, derivedKeys);
        GetSectionsAttributesAsMap(drivingSections);
      } else {
        assert SectionPairs([]) == [] && Occs([]) == [];
      }
    }

    /** `initDependsOnMap(uiOptions)` */
    method InitDependsOnMap()
      modifies this`dependsOnMap
      ensures dependsOnMap == DependsOnResult(configCache, old(dependsOnMap))
    {
      if configCache.None? {
        return;
      }
      var dependenciesMap := configCache.value.dependencyAttributes;
      if dependenciesMap.None? {
        dependsOnMap := Some(map[]);
        return;
      }
      var es := dependenciesMap.value;
      var m: map<string, seq<string>> := map[];
      var i := 0;
      while i < |es|
        invariant 0 <= i <= |es|
        invariant m == Push(map[], DependencyPairs(es[..i]))
      {
        DependencyStep(es, i);
        if es[i].Some? {
          m := PushEntry(m, es[i].value);
        }
        i := i + 1;
      }
      assert es[..i] == es;
      dependsOnMap := Some(m);
    }

    /** `initReferenceFieldMap(uiOptions)` */
    method InitReferenceFieldMap()
      modifies this`referenceFieldsMap
      ensures referenceFieldsMap == ReferenceResult(webLayout, old(referenceFieldsMap))
    {
      if webLayout.None? {
        return;
      }
      var sections := SectionsOf(webLayout);
      var m: map<string, seq<Attribute>> := map[];
      var i := 0;
      while i < |sections|
        invariant 0 <= i <= |sections|
        invariant m == Push(map[], ReferencePairs(sections[..i]))
      {
        ReferenceStep(sections, i);
        m := PushReferences(m, sections[i].attributes);
        i := i + 1;
      }
      assert sections[..i] == sections;
      referenceFieldsMap := Some(m);
    }

    /** `getValidSections(uiOptions, mode, objectIdx)` */
    method GetValidSections()
      requires objectIdx.Some?
      modifies this`webLayout, this`objectIdx
      ensures webLayout == ValidLayout(old(webLayout), old(objectIdx).value).0
      ensures objectIdx == Some(ValidLayout(old(webLayout), old(objectIdx).value).1)
    {
      if webLayout.None? || webLayout.value.sections.None? {
        return;
      }
      var addresses := Get(objectIdx.value, "addresses");
      if addresses.Arr? {
        addresses := ResetAddresses(addresses);
        objectIdx := Some(objectIdx.value["addresses" := addresses]);
      }
      var validSections := ValidateSections(webLayout.value.sections.value);
      webLayout := Some(webLayout.value.(sections := Some(validSections)));
    }

    /** The session's fields as one value. */
    function State(): SessionState
      reads this
    {
      SessionState(mode, pageMode, configCache, currencyFormat, objectIdx, webLayout, derivedSectionsMap,
                   sectionsMap, attributesMap, attributeSectionsMap, dependsOnMap, referenceFieldsMap,
                   disableAllFields, objectId)
    }

    /**
     * `initializeUIRenderer(uiOptions, mode)` on an existing session; the
     * helper tables the source only creates empty are not kept.
     */
    method InitializeUIRenderer(modeArg: string, derivedKeys: seq<string>)
      modifies this`mode, this`currencyFormat, this`objectIdx, this`disableAllFields, this`objectId
      modifies this`sectionsMap, this`attributesMap, this`attributeSectionsMap, this`dependsOnMap
      modifies this`webLayout, this`referenceFieldsMap
      ensures State() == Initialized(old(State()), modeArg, derivedKeys)
    {
      Prepare(modeArg, derivedKeys);
      FinishLayout();
    }

    /** Steps 1 to 9: defaults, lookup tables and dependencies, before the layout is touched. */
    method Prepare(modeArg: string, derivedKeys: seq<string>)
      modifies this`mode, this`currencyFormat, this`objectIdx, this`disableAllFields, this`objectId
      modifies this`sectionsMap, this`attributesMap, this`attributeSectionsMap, this`dependsOnMap
      ensures State() == Prepared(old(State()), modeArg, derivedKeys)
    {
      ghost var s0 := State();
      InitDefaults(modeArg);
      assert State() == Defaults(s0, modeArg);
      BuildIndexes(derivedKeys);
    }

    /** Steps 10 to 14: the layout steps, then the reference groups over the final layout. */
    method FinishLayout()
      requires objectIdx.Some?
      modifies this`webLayout, this`objectIdx, this`referenceFieldsMap
      ensures State() == Finished(old(State()))
    {
      ghost var s0 := State();
      ProcessLayout();
      InitReferenceFieldMap();
      ghost var f := Finished(s0);
      assert webLayout == f.webLayout && objectIdx == f.objectIdx && referenceFieldsMap == f.referenceFieldsMap;
    }

    /** Steps 8 and 9: the lookup tables over the layout and the inverted dependencies. */
    method BuildIndexes(derivedKeys: seq<string>)
      modifies this`sectionsMap, this`attributesMap, this`attributeSectionsMap, this`dependsOnMap
      ensures State() == Indexes(old(State()), derivedKeys)
    {
      ghost var s0 := State();
      PrepareAttributesMap(derivedKeys);
      InitDependsOnMap();
      ghost var r := Indexes(s0, derivedKeys);
      assert sectionsMap == r.sectionsMap && attributesMap == r.attributesMap;
      assert attributeSectionsMap == r.attributeSectionsMap && dependsOnMap == r.dependsOnMap;
    }

    /** Steps 1 to 7 of `initializeUIRenderer`: mode, currency format, record, disable flag and object id. */
    method InitDefaults(modeArg: string)
      modifies this`mode, this`currencyFormat, this`objectIdx, this`disableAllFields, this`objectId
      ensures mode == NextMode(old(mode), pageMode, modeArg)
      ensures currencyFormat == Some(CurrencyFormat(configCache))
      ensures objectIdx == Some(RecordOf(old(objectIdx)))
      ensures disableAllFields == IsDisabledAllFields(old(disableAllFields))
      ensures objectId == GetObjectId(old(objectId), webLayout)
    {
      if !Present(mode) {
        mode := Some(modeArg);
      } else if pageMode == Some("VIEW") {
        mode := Some("VIEW");
      }
      if configCache.Some? && Present(configCache.value.currencySymbolType) {
        currencyFormat := configCache.value.currencySymbolType;
      } else {
        currencyFormat := Some("CURRENCY_FORMAT_SYMBOL");
      }
      if objectIdx.None? {
        objectIdx := Some(map[]);
      }
      disableAllFields := IsDisabledAllFields(disableAllFields);
      objectId := GetObjectId(objectId, webLayout);
    }

    /** Steps 10 to 12: upgrade, section filter and custom entries on the layout and the record. */
    method ProcessLayout()
      requires objectIdx.Some?
      modifies this`webLayout, this`objectIdx
      ensures webLayout == LayoutPipeline(old(webLayout), old(objectIdx).value).0
      ensures objectIdx == Some(LayoutPipeline(old(webLayout), old(objectIdx).value).1)
    {
      var upgraded, list := UpgradeWebLayout(webLayout, Get(objectIdx.value, "customAttributes"));
      if list != Get(objectIdx.value, "customAttributes") {
        objectIdx := Some(objectIdx.value["customAttributes" := list]);
      }
      webLayout := upgraded;
      GetValidSections();
      var updatedLayout, updatedIdx := UpdateCustomAttributeValues(webLayout, objectIdx.value);
      webLayout, objectIdx := updatedLayout, Some(updatedIdx);
    }
  }

  /**
   * The three tables `prepareAttributesMap` fills, first from the
   * top-level sections and then from the driving sections: sections by id,
   * attributes by id, and the owner ids of each attribute id.
   */
  predicate Indexed(sectionsMap: map<string, Section>, attributesMap: map<string, Attribute>,
                    attributeSectionsMap: map<string, seq<Option<string>>>, top: seq<Section>, driving: seq<Section>) {
    sectionsMap == SectionTable(top, driving)
    && attributesMap == AttributeTable(top, driving)
    && attributeSectionsMap == OwnerTable(top, driving)
  }

  /** The section table of `prepareAttributesMap`. */
  function SectionTable(top: seq<Section>, driving: seq<Section>): map<string, Section> {
    Put(Put(map[], SectionPairs(top)), SectionPairs(driving))
  }

  /** The attribute table of `prepareAttributesMap`. */
  function AttributeTable(top: seq<Section>, driving: seq<Section>): map<string, Attribute> {
    Put(Put(map[], AttrPairs(Occs(top))), AttrPairs(Occs(driving)))
  }

  /** The owner lists of `prepareAttributesMap`. */
  function OwnerTable(top: seq<Section>, driving: seq<Section>): map<string, seq<Option<string>>> {
    Push(Push(map[], OwnerPairs(Occs(top))), OwnerPairs(Occs(driving)))
  }

  /**
   * What the tables hold after `prepareAttributesMap`: an id is a key of
   * the section table iff a section of either tree has it, and of the
   * attribute table iff an attribute of either tree has it, each storing
   * such an element; the owner list of an attribute id names exactly the
   * owners of the attributes with that id, once per occurrence of the id,
   * in traversal order.
   */
  lemma IndexedTables(sectionsMap: map<string, Section>, attributesMap: map<string, Attribute>,
                      attributeSectionsMap: map<string, seq<Option<string>>>, top: seq<Section>, driving: seq<Section>,
                      k: string, o: Option<string>)
    requires Indexed(sectionsMap, attributesMap, attributeSectionsMap, top, driving)
    ensures k in sectionsMap <==> exists t :: (SectionInTree(top, t) || SectionInTree(driving, t)) && Owner(t) == Some(k) && k != ""
    ensures k in sectionsMap ==> (SectionInTree(top, sectionsMap[k]) || SectionInTree(driving, sectionsMap[k])) && Owner(sectionsMap[k]) == Some(k)
    ensures k in attributesMap <==> exists a, o' :: Holds(top, k, a, o') || Holds(driving, k, a, o')
    ensures k in attributesMap ==> exists o' :: Holds(top, k, attributesMap[k], o') || Holds(driving, k, attributesMap[k], o')
    ensures o in Lookup(attributeSectionsMap, k) <==> exists a :: Holds(top, k, a, o) || Holds(driving, k, a, o)
    ensures Lookup(attributeSectionsMap, k) == Owners(Select(Occs(top) + Occs(driving), HasKey(k)))
  {
    SectionsListed(top, driving, k);
    AttributesListed(top, driving, k);
    OwnersListed(top, driving, k, o);
    OwnerListOrder(top, driving, k);
  }

  /** `objectIdx || {}` */
  function RecordOf(objectIdx: Option<map<string, Value>>): map<string, Value> {
    if objectIdx.Some? then objectIdx.value else map[]
  }

  /** The driving sections, or none without a derived-sections map. */
  function DerivedSections(derived: Option<map<string, seq<Section>>>, keys: seq<string>): seq<Section> {
    if derived.Some? then DrivingSections(derived.value, keys) else []
  }

  /** `dependsOnMap[d].push(key)` for every element `d` of one dependents array. */
  method PushDependents(m: map<string, seq<string>>, key: string, items: seq<Value>) returns (r: map<string, seq<string>>)
    ensures r == Push(m, DependentPairs(key, items))
  {
    r := m;
    var k := 0;
    while k < |items|
      invariant 0 <= k <= |items|
      invariant r == Push(m, DependentPairs(key, items[..k]))
    {
      DependentPairsSnoc(key, items, k);
      PushSnoc(m, DependentPairs(key, items[..k]), ToText(items[k]), key);
      r := r[ToText(items[k]) := Lookup(r, ToText(items[k])) + [key]];
      k := k + 1;
    }
    assert items[..k] == items;
  }

  // ---------------------------------------------------------------------
  // Single steps of the traversals

  /** `dependsOnMap[d].push(key)` for every array-valued property of one dependency entry. */
  method PushEntry(m: map<string, seq<string>>, kvs: seq<(string, Value)>) returns (r: map<string, seq<string>>)
    ensures r == Push(m, EntryPairs(kvs))
  {
    r := m;
    var j := 0;
    while j < |kvs|
      invariant 0 <= j <= |kvs|
      invariant r == Push(m, EntryPairs(kvs[..j]))
    {
      EntryStep(m, kvs, j);
      var (key, dependents) := kvs[j];
      if dependents.Arr? {
        r := PushDependents(r, key, dependents.items);
      }
      j := j + 1;
    }
    assert kvs[..j] == kvs;
  }

  /** `referenceFieldsMap[ref].push(attribute)` for the attributes of one section. */
  method PushReferences(m: map<string, seq<Attribute>>, attrs: seq<Attribute>) returns (r: map<string, seq<Attribute>>)
    ensures r == Push(m, ReferencePairsOf(attrs))
  {
    r := m;
    var j := 0;
    while j < |attrs|
      invariant 0 <= j <= |attrs|
      invariant r == Push(m, ReferencePairsOf(attrs[..j]))
    {
      ReferenceOfStep(m, attrs, j);
      var attribute := attrs[j];
      if Present(attribute.referenceAttributeId) {
        var ref := attribute.referenceAttributeId.value;
        r := r[ref := Lookup(r, ref) + [attribute]];
      }
      j := j + 1;
    }
    assert attrs[..j] == attrs;
  }

  lemma IndexStep(am: map<string, Attribute>, om: map<string, seq<Option<string>>>, attrs: seq<Attribute>, j: nat, owner: Option<string>)
    requires j < |attrs|
    ensures var a, k := attrs[j], AttrKey(attrs[j]);
      var P, Q := Put(am, AttrPairs(AttrOccs(attrs[..j], owner))), Push(om, OwnerPairs(AttrOccs(attrs[..j], owner)));
      Put(am, AttrPairs(AttrOccs(attrs[..j + 1], owner))) == (if Present(k) then P[k.value := a] else P)
      && Push(om, OwnerPairs(AttrOccs(attrs[..j + 1], owner))) == (if Present(k) then Q[k.value := Lookup(Q, k.value) + [owner]] else Q)
  {
    AttrOccsStep(attrs, j, owner);
    var a, k := attrs[j], AttrKey(attrs[j]);
    if Present(k) {
      PutSnoc(am, AttrPairs(AttrOccs(attrs[..j], owner)), k.value, a);
      PushSnoc(om, OwnerPairs(AttrOccs(attrs[..j], owner)), k.value, owner);
    } else {
      assert AttrPairs(AttrOccs(attrs[..j + 1], owner)) == AttrPairs(AttrOccs(attrs[..j], owner));
      assert OwnerPairs(AttrOccs(attrs[..j + 1], owner)) == OwnerPairs(AttrOccs(attrs[..j], owner));
    }
  }

  lemma EntryStep(m: map<string, seq<string>>, kvs: seq<(string, Value)>, j: nat)
    requires j < |kvs|
    ensures Push(m, EntryPairs(kvs[..j + 1]))
      == if kvs[j].1.Arr? then Push(Push(m, EntryPairs(kvs[..j])), DependentPairs(kvs[j].0, kvs[j].1.items))
         else Push(m, EntryPairs(kvs[..j]))
  {
    assert kvs[..j + 1][..j] == kvs[..j];
    if kvs[j].1.Arr? {
      PushAppend(m, EntryPairs(kvs[..j]), DependentPairs(kvs[j].0, kvs[j].1.items));
    } else {
      assert EntryPairs(kvs[..j + 1]) == EntryPairs(kvs[..j]) + [];
      assert EntryPairs(kvs[..j]) + [] == EntryPairs(kvs[..j]);
    }
  }

  lemma DependencyStep(es: DependencyEntries, i: nat)
    requires i < |es|
    ensures Push(map[], DependencyPairs(es[..i + 1]))
      == if es[i].Some? then Push(Push(map[], DependencyPairs(es[..i])), EntryPairs(es[i].value))
         else Push(map[], DependencyPairs(es[..i]))
  {
    assert es[..i + 1][..i] == es[..i];
    if es[i].Some? {
      PushAppend(map[], DependencyPairs(es[..i]), EntryPairs(es[i].value));
    } else {
      assert DependencyPairs(es[..i + 1]) == DependencyPairs(es[..i]) + [];
      assert DependencyPairs(es[..i]) + [] == DependencyPairs(es[..i]);
    }
  }

  lemma ReferenceOfStep(m: map<string, seq<Attribute>>, attrs: seq<Attribute>, j: nat)
    requires j < |attrs|
    ensures var P := Push(m, ReferencePairsOf(attrs[..j])); var ref := attrs[j].referenceAttributeId;
      Push(m, ReferencePairsOf(attrs[..j + 1])) == if Present(ref) then P[ref.value := Lookup(P, ref.value) + [attrs[j]]] else P
  {
    assert attrs[..j + 1][..j] == attrs[..j];
    var ref := attrs[j].referenceAttributeId;
    if Present(ref) {
      PushSnoc(m, ReferencePairsOf(attrs[..j]), ref.value, attrs[j]);
    } else {
      assert ReferencePairsOf(attrs[..j + 1]) == ReferencePairsOf(attrs[..j]) + [];
      assert ReferencePairsOf(attrs[..j]) + [] == ReferencePairsOf(attrs[..j]);
    }
  }

  lemma ReferenceStep(ss: seq<Section>, i: nat)
    requires i < |ss|
    ensures Push(map[], ReferencePairs(ss[..i + 1])) == Push(Push(map[], ReferencePairs(ss[..i])), ReferencePairsOf(ss[i].attributes))
  {
    assert ss[..i + 1][..i] == ss[..i];
    PushAppend(map[], ReferencePairs(ss[..i]), ReferencePairsOf(ss[i].attributes));
  }

  lemma DependentPairsSnoc(key: string, items: seq<Value>, k: nat)
    requires k < |items|
    ensures DependentPairs(key, items[..k + 1]) == DependentPairs(key, items[..k]) + [(ToText(items[k]), key)]
  {
  }

  lemma AttrOccsStep(attrs: seq<Attribute>, j: nat, owner: Option<string>)
    requires j < |attrs|
    ensures var a := attrs[j]; var occ := AttrOccs(attrs[..j], owner);
      AttrPairs(AttrOccs(attrs[..j + 1], owner)) == AttrPairs(occ) + (if Present(AttrKey(a)) then [(AttrKey(a).value, a)] else [])
      && OwnerPairs(AttrOccs(attrs[..j + 1], owner)) == OwnerPairs(occ) + (if Present(AttrKey(a)) then [(AttrKey(a).value, owner)] else [])
  {
    assert attrs[..j + 1][..j] == attrs[..j];
    var a := attrs[j];
    PairsAppend(AttrOccs(attrs[..j], owner), if Present(AttrKey(a)) then [Occ(AttrKey(a).value, a, owner)] else []);
  }

  lemma ColumnsStep(a: map<string, Attribute>, o: map<string, seq<Option<string>>>, cols: seq<Column>, c: nat, owner: Option<string>)
    requires c < |cols|
    ensures Put(a, AttrPairs(ColumnOccs(cols[..c + 1], owner)))
      == Put(Put(a, AttrPairs(ColumnOccs(cols[..c], owner))), AttrPairs(AttrOccs(cols[c].attributes, owner)))
    ensures Push(o, OwnerPairs(ColumnOccs(cols[..c + 1], owner)))
      == Push(Push(o, OwnerPairs(ColumnOccs(cols[..c], owner))), OwnerPairs(AttrOccs(cols[c].attributes, owner)))
  {
    assert cols[..c + 1][..c] == cols[..c];
    PairsAppend(ColumnOccs(cols[..c], owner), AttrOccs(cols[c].attributes, owner));
    PutAppend(a, AttrPairs(ColumnOccs(cols[..c], owner)), AttrPairs(AttrOccs(cols[c].attributes, owner)));
    PushAppend(o, OwnerPairs(ColumnOccs(cols[..c], owner)), OwnerPairs(AttrOccs(cols[c].attributes, owner)));
  }

  lemma SectionsStep(s: map<string, Section>, a: map<string, Attribute>, o: map<string, seq<Option<string>>>, ss: seq<Section>, i: nat)
    requires i < |ss|
    ensures Put(s, SectionPairs(ss[..i + 1])) == Put(Put(s, SectionPairs(ss[..i])), OwnSectionPairs(ss[i]))
    ensures Put(a, AttrPairs(Occs(ss[..i + 1]))) == Put(Put(a, AttrPairs(Occs(ss[..i]))), AttrPairs(SectionOccs(ss[i])))
    ensures Push(o, OwnerPairs(Occs(ss[..i + 1]))) == Push(Push(o, OwnerPairs(Occs(ss[..i]))), OwnerPairs(SectionOccs(ss[i])))
  {
    assert ss[..i + 1][..i] == ss[..i];
    PutAppend(s, SectionPairs(ss[..i]), OwnSectionPairs(ss[i]));
    PairsAppend(Occs(ss[..i]), SectionOccs(ss[i]));
    PutAppend(a, AttrPairs(Occs(ss[..i])), AttrPairs(SectionOccs(ss[i])));
    PushAppend(o, OwnerPairs(Occs(ss[..i])), OwnerPairs(SectionOccs(ss[i])));
  }

  lemma OwnStep(m: map<string, Section>, s: Section)
    ensures Put(m, OwnSectionPairs(s))
      == Put(if Present(Owner(s)) then m[Owner(s).value := s] else m, SectionPairs(s.sections))
  {
    var own := if Present(Owner(s)) then [(Owner(s).value, s)] else [];
    PutAppend(m, own, SectionPairs(s.sections));
    if Present(Owner(s)) {
      PutSnoc(m, [], Owner(s).value, s);
    }
  }

  lemma SectionOccsSplit(a: map<string, Attribute>, o: map<string, seq<Option<string>>>, s: Section)
    ensures var occA, occS, occC := AttrOccs(s.attributes, Owner(s)), Occs(s.sections),
        if IsTable(s) then ColumnOccs(s.columns, Owner(s)) else [];
      Put(a, AttrPairs(SectionOccs(s))) == Put(Put(Put(a, AttrPairs(occA)), AttrPairs(occS)), AttrPairs(occC))
      && Push(o, OwnerPairs(SectionOccs(s))) == Push(Push(Push(o, OwnerPairs(occA)), OwnerPairs(occS)), OwnerPairs(occC))
  {
    var occA, occS := AttrOccs(s.attributes, Owner(s)), Occs(s.sections);
    var occC := if IsTable(s) then ColumnOccs(s.columns, Owner(s)) else [];
    PairsAppend(occA, occS);
    PairsAppend(occA + occS, occC);
    PutAppend(a, AttrPairs(occA), AttrPairs(occS));
    PutAppend(a, AttrPairs(occA) + AttrPairs(occS), AttrPairs(occC));
    PushAppend(o, OwnerPairs(occA), OwnerPairs(occS));
    PushAppend(o, OwnerPairs(occA) + OwnerPairs(occS), OwnerPairs(occC));
  }
}
