/**
 * The layout upgrade of the renderer initialisation: date controls of the
 * top-level attributes receive a tag name, and a record that has Custom
 * attributes gets an empty custom-attribute list.
 */
module LayoutUpgrade {
  import opened Wrappers
  import opened JsValues
  import opened Layout

  /** `right[0].tag` is `date` or `dateTime`. */
  predicate IsDateControl(a: Attribute) {
    |a.right| > 0 && (a.right[0].tag == Some("date") || a.right[0].tag == Some("dateTime"))
  }

  /** `attribute.tagName || \`date_${attribute.attributeId}\`` */
  function DateTagName(a: Attribute): (r: string)
    ensures r != ""
    ensures Present(a.tagName) ==> r == a.tagName.value
    ensures !Present(a.tagName) && a.attributeId.None? ==> r == "date_undefined"
  {
    if Present(a.tagName) then a.tagName.value else "date_" + ToText(OptStr(a.attributeId))
  }

  /** The date patch on one attribute. */
  function UpgradeAttribute(a: Attribute): (r: Attribute)
    ensures |r.right| == |a.right|
    ensures IsDateControl(r) <==> IsDateControl(a)
    ensures IsDateControl(a) ==> Present(FirstRightTagName(r))
    ensures !IsDateControl(a) || Present(FirstRightTagName(a)) ==> r == a
    ensures IsDateControl(a) && !Present(FirstRightTagName(a)) ==>
      FirstRightTagName(r) == Some(DateTagName(a)) && r.right[0] == a.right[0].(tagName := r.right[0].tagName)
      && r.right[1..] == a.right[1..] && r.(right := a.right) == a
  {
    if IsDateControl(a) && !Present(a.right[0].tagName) then
      a.(right := a.right[0 := a.right[0].(tagName := Some(DateTagName(a)))])
    else a
  }

  function UpgradeAll(attributes: seq<Attribute>): (r: seq<Attribute>)
    ensures |r| == |attributes|
    ensures forall j :: 0 <= j < |attributes| ==> r[j] == UpgradeAttribute(attributes[j])
  {
    seq(|attributes|, j requires 0 <= j < |attributes| => UpgradeAttribute(attributes[j]))
  }

  function UpgradeSection(s: Section): (r: Section)
    ensures |r.attributes| == |s.attributes|
    ensures forall j :: 0 <= j < |s.attributes| ==> r.attributes[j] == UpgradeAttribute(s.attributes[j])
    ensures r.(attributes := s.attributes) == s
  {
    s.(attributes := UpgradeAll(s.attributes))
  }

  /** The top-level sections after the date patch; inner sections are not visited. */
  function UpgradeSections(ss: seq<Section>): (r: seq<Section>)
    ensures |r| == |ss|
    ensures forall i :: 0 <= i < |ss| ==> r[i] == UpgradeSection(ss[i])
  {
    seq(|ss|, i requires 0 <= i < |ss| => UpgradeSection(ss[i]))
  }

  predicate IsCustom(a: Attribute) { a.kind == Some("Custom") }

  predicate HasCustomIn(attributes: seq<Attribute>) {
    exists j :: 0 <= j < |attributes| && IsCustom(attributes[j])
  }

  /** Some top-level attribute has `type === 'Custom'`. */
  predicate HasCustomAttribute(ss: seq<Section>) {
    exists i :: 0 <= i < |ss| && HasCustomIn(ss[i].attributes)
  }

  /** `objectIdx.customAttributes` after the upgrade: a falsy list becomes `[]` when a Custom attribute exists. */
  function UpgradeCustomList(ss: seq<Section>, customAttributes: Value): (r: Value)
    ensures HasCustomAttribute(ss) ==> Truthy(r)
    ensures Truthy(customAttributes) || !HasCustomAttribute(ss) ==> r == customAttributes
  {
    if HasCustomAttribute(ss) && !Truthy(customAttributes) then Arr([]) else customAttributes
  }

  /** The layout after the upgrade; a layout without sections is left alone. */
  function UpgradeLayout(webLayout: Option<WebLayout>): Option<WebLayout> {
    if webLayout.Some? && webLayout.value.sections.Some? then
      Some(webLayout.value.(sections := Some(UpgradeSections(webLayout.value.sections.value))))
    else webLayout
  }

  /** The custom list after the upgrade; a layout without sections leaves it alone. */
  function UpgradeList(webLayout: Option<WebLayout>, customAttributes: Value): Value {
    if webLayout.Some? && webLayout.value.sections.Some? then
      UpgradeCustomList(webLayout.value.sections.value, customAttributes)
    else customAttributes
  }

  /**
   * `upgradeWebLayout(webLayout, objectIdx, ...)`: `webLayout` is the
   * layout, `customAttributes` the record's `customAttributes` property;
   * both new values are returned.
   */
  method UpgradeWebLayout(webLayout: Option<WebLayout>, customAttributes: Value)
    returns (upgraded: Option<WebLayout>, list: Value)
    ensures upgraded == UpgradeLayout(webLayout)
    ensures list == UpgradeList(webLayout, customAttributes)
  {
    upgraded, list := webLayout, customAttributes;
    if webLayout.None? || webLayout.value.sections.None? {
      return;
    }
    var sections := webLayout.value.sections.value;
    var original := sections;
    var i := 0;
    while i < |sections|
      invariant 0 <= i <= |sections| == |original|
      invariant forall k :: 0 <= k < i ==> sections[k] == UpgradeSection(original[k])
      invariant forall k :: i <= k < |sections| ==> sections[k] == original[k]
      invariant list == (if HasCustomAttribute(original[..i]) && !Truthy(customAttributes) then Arr([]) else customAttributes)
    {
      var section := sections[i];
      var attributes;
      attributes, list := UpgradeAttributes(section.attributes, list);
      HasCustomSnoc(original, i);
      sections := sections[i := section.(attributes := attributes)];
      i := i + 1;
    }
    assert original[..i] == original;
    assert sections == UpgradeSections(original);
    upgraded := Some(webLayout.value.(sections := Some(sections)));
  }

  /** The inner loop of `upgradeWebLayout` over one section's attributes. */
  method UpgradeAttributes(attributes: seq<Attribute>, list: Value) returns (upgraded: seq<Attribute>, list': Value)
    ensures upgraded == UpgradeAll(attributes)
    ensures list' == if HasCustomIn(attributes) && !Truthy(list) then Arr([]) else list
  {
    upgraded, list' := attributes, list;
    var j := 0;
    while j < |attributes|
      invariant 0 <= j <= |upgraded| == |attributes|
      invariant forall k :: 0 <= k < j ==> upgraded[k] == UpgradeAttribute(attributes[k])
      invariant forall k :: j <= k < |upgraded| ==> upgraded[k] == attributes[k]
      invariant list' == if HasCustomIn(attributes[..j]) && !Truthy(list) then Arr([]) else list
    {
      var attribute := PatchDateControl(upgraded[j]);
      HasCustomInSnoc(attributes, j);
      if attribute.kind == Some("Custom") && !Truthy(list') {
        list' := Arr([]);
      }
      upgraded := upgraded[j := attribute];
      j := j + 1;
    }
    assert attributes[..j] == attributes;
  }

  /** The date-field step of `upgradeWebLayout` on one attribute. */
  method PatchDateControl(attribute: Attribute) returns (r: Attribute)
    ensures r == UpgradeAttribute(attribute)
  {
    r := attribute;
    if |attribute.right| > 0 {
      var right := attribute.right[0];
      if right.tag == Some("date") || right.tag == Some("dateTime") {
        if !Present(right.tagName) {
          right := right.(tagName := Some(DateTagName(attribute)));
          r := attribute.(right := attribute.right[0 := right]);
        }
      }
    }
  }

  lemma HasCustomInSnoc(attributes: seq<Attribute>, j: nat)
    requires j < |attributes|
    ensures HasCustomIn(attributes[..j + 1]) <==> HasCustomIn(attributes[..j]) || IsCustom(attributes[j])
  {
    var p, q := attributes[..j], attributes[..j + 1];
    assert forall k :: 0 <= k < j ==> q[k] == p[k];
    assert q[j] == attributes[j];
  }

  lemma HasCustomSnoc(ss: seq<Section>, i: nat)
    requires i < |ss|
    ensures HasCustomAttribute(ss[..i + 1]) <==> HasCustomAttribute(ss[..i]) || HasCustomIn(ss[i].attributes)
  {
    var p, q := ss[..i], ss[..i + 1];
    assert forall k :: 0 <= k < i ==> q[k] == p[k];
    assert q[i] == ss[i];
  }

  /** Upgrading twice is upgrading once, for the layout and for the list. */
  lemma UpgradeIdempotent(webLayout: Option<WebLayout>, customAttributes: Value)
    ensures UpgradeLayout(UpgradeLayout(webLayout)) == UpgradeLayout(webLayout)
    ensures UpgradeList(UpgradeLayout(webLayout), UpgradeList(webLayout, customAttributes))
      == UpgradeList(webLayout, customAttributes)
  {
    if webLayout.Some? && webLayout.value.sections.Some? {
      var ss := webLayout.value.sections.value;
      var us := UpgradeSections(ss);
      assert UpgradeSections(us) == us by {
        forall i | 0 <= i < |us|
          ensures UpgradeSection(us[i]) == us[i]
        {
          var s := us[i];
          assert forall j :: 0 <= j < |s.attributes| ==> UpgradeAttribute(s.attributes[j]) == s.attributes[j];
        }
      }
      KindsKept(ss);
    }
  }

  /** The upgrade does not change any attribute's `type`. */
  lemma KindsKept(ss: seq<Section>)
    ensures HasCustomAttribute(UpgradeSections(ss)) <==> HasCustomAttribute(ss)
  {
    var us := UpgradeSections(ss);
    forall i | 0 <= i < |ss|
      ensures HasCustomIn(us[i].attributes) <==> HasCustomIn(ss[i].attributes)
    {
      assert forall j :: 0 <= j < |ss[i].attributes| ==> IsCustom(us[i].attributes[j]) == IsCustom(ss[i].attributes[j]);
    }
  }
}
