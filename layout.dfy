/**
 * The layout the form engine renders: sections holding attributes, inner
 * sections and table columns. Only the properties that the modelled code
 * reads or writes are kept; a property the source reads from a nested object
 * is flattened into one field (`label.modifiedLabel` is `labelModified`,
 * `displayType.typeName` is `displayTypeName`,
 * `associatedField.referenceAttributeId` is `referenceAttributeId`).
 */
module Layout {
  import opened Wrappers
  import opened JsValues

  /** One element of an attribute's `right` list: the bound input control. */
  datatype Right = Right(
    tag: Option<string>,
    tagName: Option<string>,
    /** `options` when it is an array; any other value reads as absent */
    options: Option<seq<Value>>)

  datatype Attribute = Attribute(
    attributeId: Option<string>,
    id: Option<string>,
    tagName: Option<string>,
    attributeTag: Option<string>,
    tag: Option<string>,
    /** the source's `type` property: "Custom", "Standard", ... */
    kind: Option<string>,
    right: seq<Right>,
    isMandatory: Value,
    disableField: Value,
    isDisabled: Value,
    labelModified: Option<string>,
    labelName: Option<string>,
    attributeName: Option<string>,
    min: Option<real>,
    max: Option<real>,
    maxLength: Option<int>,
    minLength: Option<int>,
    isTableAttribute: bool,
    lineType: Option<string>,
    /** `options` when it is an array; any other value reads as absent */
    options: Option<seq<Value>>,
    displayTypeName: Option<string>,
    /** truthiness of `formulaType` */
    formulaType: bool,
    referenceAttributeId: Option<string>,
    /** truthiness of `emailAddress` */
    emailAddress: bool,
    /** truthiness of `multiple` */
    multiple: bool,
    /** the property a tag list reads an option's value from */
    valueField: Option<string>,
    /** the property a tag list reads an option's label from */
    displayField: Option<string>,
    /**
     * the names of the further properties that the type checks read only
     * for their truthiness and that are truthy here: `addressList`,
     * `isAddressAttribute`, `referenceObject`, `associatedField`, `formula`,
     * `phoneNumbers`, `emailAddresses`, `phoneType`, `customAttributeId`
     */
    truthyProps: set<string>)

  datatype Column = Column(attributes: seq<Attribute>)

  datatype Section = Section(
    sectionId: Option<string>,
    id: Option<string>,
    sectionType: Option<string>,
    /** the source's `type` property: "Standard", "Custom", "RelatedObject" */
    kind: Option<string>,
    attributes: seq<Attribute>,
    sections: seq<Section>,
    columns: seq<Column>,
    isEnabled: Value,
    isVisible: Value,
    lineType: Option<string>,
    /** `mode` when it is an array of mode names */
    mode: Option<seq<string>>,
    /** the position stamped by the sections index builder */
    index: Option<nat>)

  /** `WEB_LAYOUT`: `sections` is `None` when absent or not an array. */
  datatype WebLayout = WebLayout(sections: Option<seq<Section>>, objectId: Value)

  /** An attribute with every property absent. */
  const BlankAttribute := Attribute(
    None, None, None, None, None, None, [], Undefined, Undefined, Undefined,
    None, None, None, None, None, None, None, false, None, None, None,
    false, None, false, false, None, None, {})

  /** A section with every property absent. */
  const BlankSection := Section(
    None, None, None, None, [], [], [], Undefined, Undefined, None, None, None)

  /** `attribute.right?.[0]?.tagName` */
  function FirstRightTagName(a: Attribute): Option<string> {
    if |a.right| > 0 then a.right[0].tagName else None
  }

  /** `attribute.right?.[0]?.tag` */
  function FirstRightTag(a: Attribute): Option<string> {
    if |a.right| > 0 then a.right[0].tag else None
  }
}
