/**
 * src/shared/utils/attributeUtils.js: reading and writing an attribute's
 * value in the record, the attribute flags and getters, per-attribute
 * validation, and the searches over a section tree.
 */
module AttributeUtils {
  import opened Wrappers
  import opened JsText
  import opened JsValues
  import opened Layout
  import opened KeyedFolds
  import opened Seqs

  // =====================================================================
  // Tag-name resolution and the record

  /**
   * The key a value is stored under: `attribute.tagName ||
   * attribute.right?.[0]?.tagName`, `None` when neither is a non-empty
   * string.
   */
  function ResolveTagName(a: Attribute): (r: Option<string>)
    ensures r.Some? ==> r.value != ""
    ensures Present(a.tagName) ==> r == a.tagName
    ensures !Present(a.tagName) ==> (r.Some? <==> Present(FirstRightTagName(a)))
    ensures r.Some? ==> r == a.tagName || r == FirstRightTagName(a)
  {
    var t := OrStr(a.tagName, FirstRightTagName(a));
    if Present(t) then t else None
  }

  /** `getAttributeValue(attribute, formData, rowIndex)`; `None` stands for null. */
  function GetAttributeValue(attribute: Option<Attribute>, formData: Option<map<string, Value>>, rowIndex: Option<nat>): Value
  {
    if attribute.None? || formData.None? then Null
    else
      var a := attribute.value;
      var fd := Obj(formData.value);
      match ResolveTagName(a)
      case None => Null
      case Some(tagName) =>
        if rowIndex.Some? && a.isTableAttribute && Present(a.lineType)
          && Truthy(Prop(fd, a.lineType.value))
          && Truthy(Index(Prop(fd, a.lineType.value), rowIndex.value))
        then Prop(Index(Prop(fd, a.lineType.value), rowIndex.value), tagName)
        else Prop(fd, tagName)
  }

  /**
   * The outcome of a write: the new record, or `Failed` when the source
   * would assign a property of a primitive (a TypeError in strict mode) or
   * a named property of an array, which the model does not represent.
   */
  datatype WriteResult = Written(record: map<string, Value>) | Failed

  /** `c[i] = x` for a container `c`; `None` when `c` is not an object. */
  function SetAt(c: Value, i: nat, x: Value): (r: Option<Value>)
    ensures r.Some? <==> c.Arr? || c.Obj?
    ensures r.Some? ==> Index(r.value, i) == x
    ensures r.Some? ==> forall j: nat :: j != i && (c.Obj? || j < |c.items|) ==> Index(r.value, j) == Index(c, j)
  {
    match c
    case Arr(items) =>
      var r := Arr(SetIndex(items, i, x));
      IndexArr(SetIndex(items, i, x), i);
      forall j: nat | j != i && j < |items|
        ensures Index(r, j) == Index(c, j)
      {
        IndexArr(SetIndex(items, i, x), j);
        IndexArr(items, j);
      }
      Some(r)
    case Obj(m) =>
      forall j: nat | j != i
        ensures Index(Obj(m[NatToString(i) := x]), j) == Index(c, j)
      {
        if NatToString(j) == NatToString(i) {
          NatToStringInjective(i, j);
        }
      }
      Some(Obj(m[NatToString(i) := x]))
    case _ => None
  }

  /**
   * `formData[lineType][rowIndex][tagName] = value`, creating the row list
   * when `formData[lineType]` is falsy and the row object when the row is
   * falsy.
   */
  function WriteRow(fd: map<string, Value>, lineType: string, i: nat, tagName: string, value: Value): WriteResult
  {
    var c0 := Prop(Obj(fd), lineType);
    var c := if Truthy(c0) then c0 else Arr([]);
    var cr := if Truthy(Index(c, i)) then Some(c) else SetAt(c, i, Obj(map[]));
    match cr
    case None => Failed
    case Some(c1) =>
      match Index(c1, i)
      case Obj(row) =>
        (match SetAt(c1, i, Obj(row[tagName := value]))
         case Some(c2) => Written(fd[lineType := c2])
         case None => Failed)
      case _ => Failed
  }

  /** `setAttributeValue(attribute, formData, value, rowIndex)` on a record that is present. */
  function WriteValue(attribute: Option<Attribute>, fd: map<string, Value>, value: Value, rowIndex: Option<nat>): WriteResult
  {
    if attribute.None? then Written(fd)
    else
      var a := attribute.value;
      match ResolveTagName(a)
      case None => Written(fd)
      case Some(tagName) =>
        if rowIndex.Some? && a.isTableAttribute then
          if Present(a.lineType) then WriteRow(fd, a.lineType.value, rowIndex.value, tagName, value)
          else Written(fd)
        else Written(fd[tagName := value])
  }

  /** The record object that `setAttributeValue` updates in place. */
  class FormData {
    var fields: map<string, Value>

    constructor (fields0: map<string, Value>)
      ensures fields == fields0
    {
      fields := fields0;
    }
  }

  /**
   * `setAttributeValue`: writes into the record object and returns it.
   * `failed` reports a write that `WriteValue` gives as `Failed`: one that
   * throws in strict mode, or a named property set on an array row, which
   * the value model cannot hold. Either way the record is left as it was.
   */
  method SetAttributeValue(attribute: Option<Attribute>, formData: FormData?, value: Value, rowIndex: Option<nat>)
    returns (r: FormData?, failed: bool)
    modifies formData
    ensures r == formData
    ensures formData == null ==> !failed
    ensures formData != null ==> failed == WriteValue(attribute, old(formData.fields), value, rowIndex).Failed?
    ensures formData != null && !failed ==> formData.fields == WriteValue(attribute, old(formData.fields), value, rowIndex).record
    ensures formData != null && failed ==> formData.fields == old(formData.fields)
  {
    r, failed := formData, false;
    if formData != null {
      match WriteValue(attribute, formData.fields, value, rowIndex)
      case Written(record) =>
        formData.fields := record;
      case Failed =>
        failed := true;
    }
  }

  /**
   * Without an attribute, a record or a tag name the read yields null and
   * the write leaves the record as it was.
   */
  lemma MissingInputs(attribute: Option<Attribute>, formData: Option<map<string, Value>>, value: Value, rowIndex: Option<nat>)
    requires attribute.None? || formData.None? || ResolveTagName(attribute.value).None?
    ensures GetAttributeValue(attribute, formData, rowIndex) == Null
    ensures formData.Some? ==> WriteValue(attribute, formData.value, value, rowIndex) == Written(formData.value)
  {
  }

  /**
   * A write outside a table row stores the value under the tag name and
   * nowhere else, and reading it back yields the value.
   */
  lemma PlainRoundTrip(a: Attribute, fd: map<string, Value>, value: Value, rowIndex: Option<nat>)
    requires ResolveTagName(a).Some?
    requires rowIndex.None? || !a.isTableAttribute
    ensures WriteValue(Some(a), fd, value, rowIndex).Written?
    ensures var fd' := WriteValue(Some(a), fd, value, rowIndex).record;
      && GetAttributeValue(Some(a), Some(fd'), rowIndex) == value
      && fd'.Keys == fd.Keys + {ResolveTagName(a).value}
      && forall k :: k in fd && k != ResolveTagName(a).value ==> fd'[k] == fd[k]
  {
  }

  /**
   * A table write with a row index but no line type changes nothing; the
   * read then falls back to the top-level value.
   */
  lemma TableWriteWithoutLineType(a: Attribute, fd: map<string, Value>, value: Value, i: nat)
    requires ResolveTagName(a).Some? && a.isTableAttribute && !Present(a.lineType)
    ensures WriteValue(Some(a), fd, value, Some(i)) == Written(fd)
    ensures GetAttributeValue(Some(a), Some(fd), Some(i)) == Prop(Obj(fd), ResolveTagName(a).value)
  {
  }

  /**
   * A table write fails exactly when the row list or the row is a truthy
   * value that is not an object; the row list is created when falsy, the
   * row object when falsy.
   */
  lemma TableWriteFailure(fd: map<string, Value>, lineType: string, i: nat, tagName: string, value: Value)
    ensures var c0 := Prop(Obj(fd), lineType);
      var row := Index(c0, i);
      WriteRow(fd, lineType, i, tagName, value).Failed? <==>
        (Truthy(c0) && !(c0.Arr? || c0.Obj?)) || (Truthy(c0) && Truthy(row) && !row.Obj?)
  {
    var c0 := Prop(Obj(fd), lineType);
    if !Truthy(c0) {
      IndexArr([], i);
    }
  }

  /**
   * Round trip for a table write: when it succeeds the read at the same
   * row yields the value, only `fd[lineType]` changes, and within it only
   * row `i`, and within the row only `tagName`.
   */
  lemma TableRoundTrip(a: Attribute, fd: map<string, Value>, value: Value, i: nat)
    requires ResolveTagName(a).Some? && a.isTableAttribute && Present(a.lineType)
    requires WriteValue(Some(a), fd, value, Some(i)).Written?
    ensures var fd' := WriteValue(Some(a), fd, value, Some(i)).record;
      var lt := a.lineType.value;
      var t := ResolveTagName(a).value;
      && GetAttributeValue(Some(a), Some(fd'), Some(i)) == value
      && fd'.Keys == fd.Keys + {lt}
      && (forall k :: k in fd && k != lt ==> fd'[k] == fd[k])
      && (Index(fd'[lt], i).Obj? && Prop(Index(fd'[lt], i), t) == value)
      && (forall k :: k != t ==> Prop(Index(fd'[lt], i), k) == (if Truthy(Index(Prop(Obj(fd), lt), i)) then Prop(Index(Prop(Obj(fd), lt), i), k) else Undefined))
      && (forall j: nat :: j != i && Truthy(Prop(Obj(fd), lt)) && (fd[lt].Obj? || j < |fd[lt].items|) ==> Index(fd'[lt], j) == Index(fd[lt], j))
  {
    var lt := a.lineType.value;
    var t := ResolveTagName(a).value;
    var fd' := WriteValue(Some(a), fd, value, Some(i)).record;
    RowWrite(fd, lt, i, t, value);
    assert fd' == WriteRow(fd, lt, i, t, value).record;
  }

  /** `TableRoundTrip` for the row write itself, one step at a time. */
  lemma RowWrite(fd: map<string, Value>, lt: string, i: nat, t: string, value: Value)
    requires WriteRow(fd, lt, i, t, value).Written?
    ensures var fd' := WriteRow(fd, lt, i, t, value).record;
      var c0 := Prop(Obj(fd), lt);
      && lt in fd' && fd'.Keys == fd.Keys + {lt}
      && (forall k :: k in fd && k != lt ==> fd'[k] == fd[k])
      && Truthy(fd'[lt])
      && (Index(fd'[lt], i).Obj? && Prop(Index(fd'[lt], i), t) == value)
      && (forall k :: k != t ==> Prop(Index(fd'[lt], i), k) == (if Truthy(Index(c0, i)) then Prop(Index(c0, i), k) else Undefined))
      && (forall j: nat :: j != i && Truthy(c0) && (fd[lt].Obj? || j < |fd[lt].items|) ==> Index(fd'[lt], j) == Index(fd[lt], j))
  {
    var c0 := Prop(Obj(fd), lt);
    var c := if Truthy(c0) then c0 else Arr([]);
    if !Truthy(c0) {
      IndexArr([], i);
    }
    var cr := if Truthy(Index(c, i)) then Some(c) else SetAt(c, i, Obj(map[]));
    var c1 := cr.value;
    var row := Index(c1, i).fields;
    assert row == if Truthy(Index(c, i)) then Index(c, i).fields else map[];
    var c2 := SetAt(c1, i, Obj(row[t := value])).value;
    assert WriteRow(fd, lt, i, t, value).record == fd[lt := c2];
    assert Index(c2, i) == Obj(row[t := value]);
  }

  // =====================================================================
  // Flags and getters

  /** `isMandatory`: the flag is `true` or `"true"`. */
  predicate IsMandatory(a: Option<Attribute>) {
    a.Some? && (a.value.isMandatory == Bool(true) || a.value.isMandatory == Str("true"))
  }

  /** `isDisabled`: `disableField` is `true` or `"true"`. */
  predicate IsDisabled(a: Option<Attribute>) {
    a.Some? && (a.value.disableField == Bool(true) || a.value.disableField == Str("true"))
  }

  /** `isEnabled(object)` for an attribute or section given as a value. */
  predicate IsEnabled(obj: Value) {
    Truthy(obj) && Prop(obj, "isEnabled") != Bool(false) && Prop(obj, "isEnabled") != Str("false")
  }

  /**
   * The boolean-or-string flags accept only `true` and `"true"`: other
   * truthy values such as `1` or `"yes"` do not set them.
   */
  lemma FlagsAcceptOnlyTrue(a: Attribute)
    ensures IsMandatory(Some(a)) ==> Truthy(a.isMandatory)
    ensures !IsMandatory(Some(a.(isMandatory := Num(1.0))))
    ensures !IsMandatory(Some(a.(isMandatory := Str("yes"))))
    ensures IsDisabled(Some(a)) ==> Truthy(a.disableField)
    ensures !IsDisabled(Some(a.(disableField := Str("TRUE"))))
    ensures !IsMandatory(None) && !IsDisabled(None)
  {
  }

  /**
   * Enabled is the default: an object is disabled only by `false` or
   * `"false"`, so an absent flag and falsy flags such as `0`, `""` or
   * `null` leave it enabled; a missing object is not enabled.
   */
  lemma EnabledByDefault(m: map<string, Value>, flag: Value)
    requires flag != Bool(false) && flag != Str("false")
    ensures IsEnabled(Obj(m["isEnabled" := flag]))
    ensures "isEnabled" !in m ==> IsEnabled(Obj(m))
    ensures !IsEnabled(Obj(m["isEnabled" := Bool(false)])) && !IsEnabled(Obj(m["isEnabled" := Str("false")]))
    ensures !IsEnabled(Null) && !IsEnabled(Undefined)
  {
  }

  /** `getAttributeLabel`: modified label, then label name, then attribute name, then "". */
  function GetAttributeLabel(a: Option<Attribute>): string {
    if a.None? then ""
    else if Present(a.value.labelModified) then a.value.labelModified.value
    else if Present(a.value.labelName) then a.value.labelName.value
    else if Present(a.value.attributeName) then a.value.attributeName.value
    else ""
  }

  /** `getAttributeId`: `attributeId || id || ''`. */
  function GetAttributeId(a: Option<Attribute>): string {
    if a.None? then ""
    else if Present(a.value.attributeId) then a.value.attributeId.value
    else if Present(a.value.id) then a.value.id.value
    else ""
  }

  /** `getTagName(attribute, i)`: `right[i].tagName` whenever `right[i]` exists, else `tagName`. */
  function GetTagName(a: Option<Attribute>, i: nat): Option<string> {
    if a.None? then None
    else if i < |a.value.right| then a.value.right[i].tagName
    else a.value.tagName
  }

  /** `getTag(attribute, i)`: `right[i].tag` whenever `right[i]` exists, else `attributeTag || tag`. */
  function GetTag(a: Option<Attribute>, i: nat): Option<string> {
    if a.None? then None
    else if i < |a.value.right| then a.value.right[i].tag
    else OrStr(a.value.attributeTag, a.value.tag)
  }

  /**
   * `getTagName` and the key values are stored under resolve in opposite
   * orders: the first takes `right[0].tagName` whenever `right[0]` exists,
   * the second the attribute's own non-empty `tagName` first.
   */
  lemma TagNameOrders(a: Attribute)
    ensures |a.right| > 0 ==> GetTagName(Some(a), 0) == a.right[0].tagName
    ensures |a.right| == 0 ==> GetTagName(Some(a), 0) == a.tagName
    ensures |a.right| > 0 && Present(a.tagName) && a.right[0].tagName != a.tagName ==>
      GetTagName(Some(a), 0) != ResolveTagName(a)
    ensures |a.right| == 0 && Present(a.tagName) ==> GetTagName(Some(a), 0) == ResolveTagName(a)
  {
  }

  /**
   * `getTag` lets `right[i]` hide the attribute's own tag even when the
   * right element has no tag; with no right element the own tag applies.
   */
  lemma GetTagPrecedence(a: Attribute, i: nat)
    ensures i < |a.right| && a.right[i].tag.None? ==> GetTag(Some(a), i).None?
    ensures i >= |a.right| && Present(a.attributeTag) ==> GetTag(Some(a), i) == a.attributeTag
    ensures i >= |a.right| && !Present(a.attributeTag) ==> GetTag(Some(a), i) == a.tag
  {
  }

  // Type predicates used by validation.

  predicate TagIs(a: Attribute, t: string) { GetTag(Some(a), 0) == Some(t) || FirstRightTag(a) == Some(t) }

  predicate IsNumberAttribute(a: Attribute) { TagIs(a, "number") }

  predicate IsCurrencyAttribute(a: Attribute) { TagIs(a, "currency") || a.displayTypeName == Some("Currency") }

  const StringTypes: seq<string> := ["input", "textarea", "date", "dateTime", "time", "formula"]

  predicate IsStringAttribute(a: Attribute) {
    (GetTag(Some(a), 0).Some? && GetTag(Some(a), 0).value in StringTypes)
    || (FirstRightTag(a).Some? && FirstRightTag(a).value in StringTypes)
  }

  predicate IsEmailAttribute(a: Attribute) { GetTag(Some(a), 0) == Some("email") || a.emailAddress }

  /**
   * The type predicates read the resolved tag; when `right[0]` exists,
   * its tag alone decides them and the second test adds nothing.
   */
  lemma TypePredicatesFollowRightTag(a: Attribute)
    requires |a.right| > 0
    ensures IsNumberAttribute(a) <==> a.right[0].tag == Some("number")
    ensures IsStringAttribute(a) <==> a.right[0].tag.Some? && a.right[0].tag.value in StringTypes
    ensures IsEmailAttribute(a) <==> a.right[0].tag == Some("email") || a.emailAddress
  {
  }

  /** `isCheckboxAttribute` */
  predicate IsCheckboxAttribute(a: Attribute) { TagIs(a, "check") || TagIs(a, "checkbox") }

  /** `isRadioAttribute` */
  predicate IsRadioAttribute(a: Attribute) { TagIs(a, "radio") }

  /** `isSelectAttribute` */
  predicate IsSelectAttribute(a: Attribute) { TagIs(a, "select") }

  /** `isDateAttribute` */
  predicate IsDateAttribute(a: Attribute) { TagIs(a, "date") }

  /** `isDateTimeAttribute` */
  predicate IsDateTimeAttribute(a: Attribute) { TagIs(a, "dateTime") }

  /** `isTextareaAttribute` */
  predicate IsTextareaAttribute(a: Attribute) { TagIs(a, "textarea") || TagIs(a, "simpleTextarea") }

  /** `isDurationAttribute` */
  predicate IsDurationAttribute(a: Attribute) { TagIs(a, "duration") }

  /** `isSalutationAttribute` */
  predicate IsSalutationAttribute(a: Attribute) { TagIs(a, "salutation") }

  /** `isToggleAttribute`: the resolved tag only. */
  predicate IsToggleAttribute(a: Attribute) { GetTag(Some(a), 0) in {Some("toggle"), Some("on_off")} }

  /** `isTagsAttribute`: the resolved tag only. */
  predicate IsTagsAttribute(a: Attribute) { GetTag(Some(a), 0) in {Some("select_search"), Some("tags")} }

  /** `isFileUploadAttribute`: the resolved tag only. */
  predicate IsFileUploadAttribute(a: Attribute) {
    GetTag(Some(a), 0) in {Some("fileUpload"), Some("upload"), Some("imageUpload")}
  }

  /** `isAddressAttribute`, as a truth value. */
  predicate IsAddressAttribute(a: Attribute) { "addressList" in a.truthyProps || "isAddressAttribute" in a.truthyProps }

  /** `isReferenceAttribute`, as a truth value. */
  predicate IsReferenceAttribute(a: Attribute) {
    GetTag(Some(a), 0) in {Some("reference"), Some("finkey"), Some("account")}
    || "referenceObject" in a.truthyProps || "associatedField" in a.truthyProps
  }

  /** `isFormulaAttribute`, as a truth value. */
  predicate IsFormulaAttribute(a: Attribute) {
    GetTag(Some(a), 0) == Some("formula") || a.formulaType || "formula" in a.truthyProps
  }

  /** `isPhoneEmailAttribute`, as a truth value. */
  predicate IsPhoneEmailAttribute(a: Attribute) {
    GetTag(Some(a), 0) == Some("phoneEmail") || "phoneNumbers" in a.truthyProps || "emailAddresses" in a.truthyProps
  }

  /** `isPhoneAttribute`, as a truth value. */
  predicate IsPhoneAttribute(a: Attribute) {
    GetTag(Some(a), 0) in {Some("phone"), Some("fax")} || "phoneType" in a.truthyProps
  }

  /** `isCustomAttribute`: type `Custom`, or no type and a truthy `customAttributeId`. */
  predicate IsCustomAttribute(a: Attribute) {
    a.kind == Some("Custom") || (!Present(a.kind) && "customAttributeId" in a.truthyProps)
  }

  /** `isStandardAttribute` */
  predicate IsStandardAttribute(a: Attribute) { a.kind == Some("Standard") }

  /** `isCombinedAttribute`: several right elements, and neither a checkbox nor a radio. */
  predicate IsCombinedAttribute(a: Attribute) { !IsCheckboxAttribute(a) && !IsRadioAttribute(a) && |a.right| > 1 }

  const NumericTypes: seq<string> := ["currency", "number", "formula"]

  /** `isNumericAttribute` */
  predicate IsNumericAttribute(a: Attribute) {
    (GetTag(Some(a), 0).Some? && GetTag(Some(a), 0).value in NumericTypes)
    || (FirstRightTag(a).Some? && FirstRightTag(a).value in NumericTypes)
  }

  /** The kinds of input that the tag alone decides. */
  datatype TagKind =
    | CheckboxKind | RadioKind | SelectKind | NumberKind | DateKind | DateTimeKind
    | TextareaKind | DurationKind | SalutationKind | ToggleKind | TagsKind | FileUploadKind

  /** The kind each tag names: a table independent of the predicates. */
  function KindOfTag(t: string): Option<TagKind> {
    match t
    case "check" | "checkbox" => Some(CheckboxKind)
    case "radio" => Some(RadioKind)
    case "select" => Some(SelectKind)
    case "number" => Some(NumberKind)
    case "date" => Some(DateKind)
    case "dateTime" => Some(DateTimeKind)
    case "textarea" | "simpleTextarea" => Some(TextareaKind)
    case "duration" => Some(DurationKind)
    case "salutation" => Some(SalutationKind)
    case "toggle" | "on_off" => Some(ToggleKind)
    case "select_search" | "tags" => Some(TagsKind)
    case "fileUpload" | "upload" | "imageUpload" => Some(FileUploadKind)
    case _ => None
  }

  /** The type check for kind `k`. */
  predicate HasKind(a: Attribute, k: TagKind) {
    match k
    case CheckboxKind => IsCheckboxAttribute(a)
    case RadioKind => IsRadioAttribute(a)
    case SelectKind => IsSelectAttribute(a)
    case NumberKind => IsNumberAttribute(a)
    case DateKind => IsDateAttribute(a)
    case DateTimeKind => IsDateTimeAttribute(a)
    case TextareaKind => IsTextareaAttribute(a)
    case DurationKind => IsDurationAttribute(a)
    case SalutationKind => IsSalutationAttribute(a)
    case ToggleKind => IsToggleAttribute(a)
    case TagsKind => IsTagsAttribute(a)
    case FileUploadKind => IsFileUploadAttribute(a)
  }

  /**
   * Every tag-decided type check holds exactly when the resolved tag (the
   * tag of `right[0]` when that exists, the own tag otherwise) names its
   * kind; so at most one of them holds, and the `right?.[0]?.tag` test
   * some of them add never changes the verdict.
   */
  lemma OneTagKind(a: Attribute, k: TagKind, k2: TagKind)
    ensures HasKind(a, k) <==> GetTag(Some(a), 0).Some? && KindOfTag(GetTag(Some(a), 0).value) == Some(k)
    ensures HasKind(a, k) && HasKind(a, k2) ==> k == k2
  {
    TagIsResolved(a);
  }

  /** `tag === t || right?.[0]?.tag === t` is the test of the resolved tag alone. */
  lemma TagIsResolved(a: Attribute)
    ensures forall t :: TagIs(a, t) <==> GetTag(Some(a), 0) == Some(t)
  {
  }

  /**
   * The numeric check covers the number, currency and formula tags, but
   * not a currency given only by its display type; a formula is both
   * numeric and a string.
   */
  lemma NumericKinds(a: Attribute)
    ensures IsNumericAttribute(a) <==> TagIs(a, "number") || TagIs(a, "currency") || TagIs(a, "formula")
    ensures IsNumberAttribute(a) ==> IsNumericAttribute(a)
    ensures var c := BlankAttribute.(displayTypeName := Some("Currency"));
      IsCurrencyAttribute(c) && !IsNumericAttribute(c)
    ensures var f := BlankAttribute.(tag := Some("formula"));
      IsNumericAttribute(f) && IsStringAttribute(f) && IsFormulaAttribute(f)
  {
    TagIsResolved(a);
    var f := BlankAttribute.(tag := Some("formula"));
    assert GetTag(Some(f), 0) == Some("formula");
  }

  /**
   * A combined attribute has at least two right elements and a first
   * tag that is neither a checkbox nor a radio tag; two right elements
   * with any other first tag make one.
   */
  lemma CombinedSpec(a: Attribute)
    ensures IsCombinedAttribute(a) <==>
      |a.right| >= 2 && a.right[0].tag !in {Some("check"), Some("checkbox"), Some("radio")}
  {
    TagIsResolved(a);
  }

  /**
   * The custom check takes a typeless attribute with a custom id as
   * custom; standard and custom exclude each other, and a type such as
   * `RelatedObject` is neither.
   */
  lemma AttributeOrigin(a: Attribute)
    ensures !(IsStandardAttribute(a) && IsCustomAttribute(a))
    ensures !Present(a.kind) ==> (IsCustomAttribute(a) <==> "customAttributeId" in a.truthyProps)
    ensures a.kind == Some("RelatedObject") ==> !IsStandardAttribute(a) && !IsCustomAttribute(a)
  {
  }

  /** `isTableSection`: type `table`, or a `lineType` that is present. */
  predicate IsTableSection(s: Option<Section>) {
    s.Some? && (s.value.sectionType == Some("table") || s.value.lineType.Some?)
  }

  /** `isFormSection`: no section type, the empty one, or `form-grid`. */
  predicate IsFormSection(s: Option<Section>) {
    s.Some? && s.value.sectionType in {None, Some(""), Some("form-grid")}
  }

  /** `isStandardSection` */
  predicate IsStandardSection(s: Option<Section>) { s.Some? && s.value.kind == Some("Standard") }

  /** `isCustomSection`: no type, or type `Custom`. */
  predicate IsCustomSection(s: Option<Section>) {
    s.Some? && (!Present(s.value.kind) || s.value.kind == Some("Custom"))
  }

  /**
   * The section checks: a `table` section is never a form section, yet a
   * section with a `lineType` and no section type is both; standard and
   * custom exclude each other, a typeless section is custom, and a
   * `RelatedObject` section is neither; a missing section is none of them.
   */
  lemma SectionKinds(s: Section)
    ensures s.sectionType == Some("table") ==> IsTableSection(Some(s)) && !IsFormSection(Some(s))
    ensures s.sectionType.None? && s.lineType.Some? ==> IsTableSection(Some(s)) && IsFormSection(Some(s))
    ensures s.sectionType.None? && s.lineType.None? ==> !IsTableSection(Some(s)) && IsFormSection(Some(s))
    ensures !(IsStandardSection(Some(s)) && IsCustomSection(Some(s)))
    ensures !Present(s.kind) ==> IsCustomSection(Some(s))
    ensures s.kind == Some("RelatedObject") ==> !IsStandardSection(Some(s)) && !IsCustomSection(Some(s))
    ensures !IsTableSection(None) && !IsFormSection(None) && !IsStandardSection(None) && !IsCustomSection(None)
  {
  }

  // =====================================================================
  // Per-attribute validation

  datatype ValidationError =
    | Required(labelText: string)
    | BelowMin(labelText: string, min: real)
    | AboveMax(labelText: string, max: real)
    | TooLong(labelText: string, maxLength: int)
    | TooShort(labelText: string, minLength: int)
    | InvalidEmail(labelText: string)
    | InvalidUrl(labelText: string)

  /** The message text the source pushes for each error. */
  function Message(e: ValidationError): string {
    match e
    case Required(l) => l + " is required"
    case BelowMin(l, m) => l + " must be at least " + RealToString(m)
    case AboveMax(l, m) => l + " must be at most " + RealToString(m)
    case TooLong(l, n) => l + " must be at most " + IntToString(n) + " characters"
    case TooShort(l, n) => l + " must be at least " + IntToString(n) + " characters"
    case InvalidEmail(l) => l + " must be a valid email address"
    case InvalidUrl(l) => l + " must be a valid URL"
  }

  /** A missing value for a mandatory check: null, undefined, "" or []. */
  predicate IsBlank(v: Value) { IsNullish(v) || v == Str("") || v == Arr([]) }

  predicate NotSpaceOrAt(c: char) { c != '@' && !IsSpace(c) }

  /**
   * The language of `/^[^\s@]+@[^\s@]+\.[^\s@]+$/`: one `@` with a
   * non-empty part before it, and after it a `.` with non-empty parts on
   * both sides; no white space and no other `@` anywhere.
   */
  predicate EmailShaped(s: string) {
    exists i, j :: 0 < i && i + 1 < j && j + 1 < |s| && s[i] == '@' && s[j] == '.'
      && (forall k :: 0 <= k < |s| && k != i ==> NotSpaceOrAt(s[k]))
      && !IsSpace(s[i])
  }

  /** The number `validateAttribute` compares: the value itself or `parseFloat(String(value))`. */
  function NumericValue(value: Value, parseFloat: string -> Option<real>): Option<real> {
    if value.Num? then Some(value.n) else parseFloat(ToText(value))
  }

  function RequiredErrors(a: Attribute, value: Value): seq<ValidationError> {
    if IsMandatory(Some(a)) && IsBlank(value) then [Required(GetAttributeLabel(Some(a)))] else []
  }

  function RangeErrors(a: Attribute, value: Value, parseFloat: string -> Option<real>): seq<ValidationError> {
    var lbl := GetAttributeLabel(Some(a));
    if !(IsNumberAttribute(a) || IsCurrencyAttribute(a)) then []
    else match NumericValue(value, parseFloat)
      case None => []
      case Some(n) =>
        (if a.min.Some? && n < a.min.value then [BelowMin(lbl, a.min.value)] else [])
        + (if a.max.Some? && n > a.max.value then [AboveMax(lbl, a.max.value)] else [])
  }

  function LengthErrors(a: Attribute, value: Value): seq<ValidationError> {
    var lbl := GetAttributeLabel(Some(a));
    if !(IsStringAttribute(a) && value.Str?) then []
    else
      (if a.maxLength.Some? && a.maxLength.value != 0 && |value.s| > a.maxLength.value then [TooLong(lbl, a.maxLength.value)] else [])
      + (if a.minLength.Some? && a.minLength.value != 0 && |value.s| < a.minLength.value then [TooShort(lbl, a.minLength.value)] else [])
  }

  function EmailErrors(a: Attribute, value: Value): seq<ValidationError> {
    if IsEmailAttribute(a) && Truthy(value) && !EmailShaped(ToText(value)) then [InvalidEmail(GetAttributeLabel(Some(a)))] else []
  }

  /**
   * The link check: `new URL(value.startsWith('http') ? value : 'https://' + value)`;
   * a non-string value throws inside the `try`, which also reports the error.
   */
  function UrlErrors(a: Attribute, value: Value, urlValid: string -> bool): seq<ValidationError> {
    if GetTag(Some(a), 0) == Some("link") && Truthy(value) then
      var ok := value.Str? && urlValid(if StartsWith(value.s, "http") then value.s else "https://" + value.s);
      if ok then [] else [InvalidUrl(GetAttributeLabel(Some(a)))]
    else []
  }

  /**
   * `validateAttribute(attribute, value)`: the error list, in the order
   * mandatory, min, max, max length, min length, email, URL.
   * `parseFloat` and the URL constructor's acceptance are parameters.
   */
  function ValidateAttribute(a: Attribute, value: Value, parseFloat: string -> Option<real>, urlValid: string -> bool): seq<ValidationError>
  {
    RequiredErrors(a, value) + RangeErrors(a, value, parseFloat) + LengthErrors(a, value)
    + EmailErrors(a, value) + UrlErrors(a, value, urlValid)
  }

  /**
   * What one error of `validateAttribute` says about the attribute and the
   * value: length errors only for string-kind attributes holding a string
   * longer or shorter than a non-zero bound; range errors only for number
   * and currency attributes whose value reads as a number beyond a bound;
   * a URL error only for a truthy value of a link attribute; every error
   * carries the attribute's label.
   */
  predicate ErrorMeaning(a: Attribute, value: Value, parseFloat: string -> Option<real>, e: ValidationError) {
    && e.labelText == GetAttributeLabel(Some(a))
    && (e.Required? ==> IsMandatory(Some(a)) && IsBlank(value))
    && (e.TooLong? ==> IsStringAttribute(a) && value.Str? && a.maxLength == Some(e.maxLength) && |value.s| > e.maxLength)
    && (e.TooShort? ==> IsStringAttribute(a) && value.Str? && a.minLength == Some(e.minLength) && |value.s| < e.minLength)
    && (e.BelowMin? ==> RangeChecked(a, value, parseFloat) && a.min == Some(e.min) && NumericValue(value, parseFloat).value < e.min)
    && (e.AboveMax? ==> RangeChecked(a, value, parseFloat) && a.max == Some(e.max) && NumericValue(value, parseFloat).value > e.max)
    && (e.InvalidEmail? ==> IsEmailAttribute(a) && Truthy(value) && !EmailShaped(ToText(value)))
    && (e.InvalidUrl? ==> GetTag(Some(a), 0) == Some("link") && Truthy(value))
  }

  /** The range test applies: a number or currency attribute whose value reads as a number. */
  predicate RangeChecked(a: Attribute, value: Value, parseFloat: string -> Option<real>) {
    (IsNumberAttribute(a) || IsCurrencyAttribute(a)) && NumericValue(value, parseFloat).Some?
  }

  /**
   * `validateAttribute`: a required error iff the attribute is mandatory
   * and the value blank; an email error iff the attribute is an email kind
   * and the value is truthy and not shaped like an address; and every
   * error reported means what `ErrorMeaning` says.
   */
  lemma ValidateAttributeSpec(a: Attribute, value: Value, parseFloat: string -> Option<real>, urlValid: string -> bool)
    ensures Required(GetAttributeLabel(Some(a))) in ValidateAttribute(a, value, parseFloat, urlValid)
      <==> IsMandatory(Some(a)) && IsBlank(value)
    ensures InvalidEmail(GetAttributeLabel(Some(a))) in ValidateAttribute(a, value, parseFloat, urlValid)
      <==> IsEmailAttribute(a) && Truthy(value) && !EmailShaped(ToText(value))
    ensures forall e :: e in ValidateAttribute(a, value, parseFloat, urlValid) ==> ErrorMeaning(a, value, parseFloat, e)
  {
    var r1 := RequiredErrors(a, value);
    var r2 := RangeErrors(a, value, parseFloat);
    var r3 := LengthErrors(a, value);
    var r4 := EmailErrors(a, value);
    var r5 := UrlErrors(a, value, urlValid);
    var errs := ValidateAttribute(a, value, parseFloat, urlValid);
    assert errs == r1 + r2 + r3 + r4 + r5;
    forall e | e in errs
      ensures ErrorMeaning(a, value, parseFloat, e)
      ensures e.Required? ==> e in r1
      ensures e.InvalidEmail? ==> e in r4
    {
      RangeErrorsSpec(a, value, parseFloat, e);
      LengthErrorsSpec(a, value, parseFloat, e);
    }
  }

  lemma RangeErrorsSpec(a: Attribute, value: Value, parseFloat: string -> Option<real>, e: ValidationError)
    ensures e in RangeErrors(a, value, parseFloat) ==> (e.BelowMin? || e.AboveMax?) && ErrorMeaning(a, value, parseFloat, e)
  {
  }

  lemma LengthErrorsSpec(a: Attribute, value: Value, parseFloat: string -> Option<real>, e: ValidationError)
    ensures e in LengthErrors(a, value) ==> (e.TooLong? || e.TooShort?) && ErrorMeaning(a, value, parseFloat, e)
  {
  }

  /** A few concrete addresses against the email pattern. */
  lemma EmailExamples()
    ensures EmailShaped("a@b.c")
    ensures !EmailShaped("a@b")
    ensures !EmailShaped("a b@c.d")
    ensures !EmailShaped("a@@b.c")
  {
    var s := "a@b.c";
    assert s[1] == '@' && s[3] == '.';
    assert forall k :: 0 <= k < |s| && k != 1 ==> NotSpaceOrAt(s[k]);
    var t := "a b@c.d";
    assert t[1] == ' ';
    var u := "a@@b.c";
    assert u[1] == '@' && u[2] == '@';
  }

  // =====================================================================
  // Mandatory-field validation

  /** The check applied to one attribute of the record. */
  type Validator = Attribute -> seq<ValidationError>

  /** `validateAttribute(attribute, getAttributeValue(attribute, formData), formData)`. */
  function ValidateInRecord(a: Attribute, formData: map<string, Value>, parseFloat: string -> Option<real>, urlValid: string -> bool): seq<ValidationError> {
    ValidateAttribute(a, GetAttributeValue(Some(a), Some(formData), None), parseFloat, urlValid)
  }

  function RecordValidator(formData: map<string, Value>, parseFloat: string -> Option<real>, urlValid: string -> bool): Validator {
    a => ValidateInRecord(a, formData, parseFloat, urlValid)
  }

  /** Which attributes a validation pass looks at, and the key it files their errors under. */
  type Filter = Attribute -> bool
  type KeyOf = Attribute -> string

  /** The mandatory check looks at mandatory attributes only. */
  predicate MandatoryOnly(a: Attribute) { IsMandatory(Some(a)) }

  /** `getAttributeId(attribute)` as the key of an attribute. */
  function AttributeKey(a: Attribute): string { GetAttributeId(Some(a)) }

  /** One attribute's entry in a validation pass: it is looked at and its error list is non-empty. */
  predicate Failure(a: Attribute, validate: Validator, keep: Filter, key: KeyOf, k: string, errs: seq<ValidationError>) {
    keep(a) && k == key(a) && errs == validate(a) && |errs| > 0
  }

  /** The (key, errors) pairs a validation pass stores, over the direct attributes of each section in order. */
  function FailurePairs(sections: seq<Section>, validate: Validator, keep: Filter, key: KeyOf): seq<(string, seq<ValidationError>)>
    decreases |sections|
  {
    if sections == [] then []
    else FailurePairs(sections[..|sections| - 1], validate, keep, key) + FailurePairsOf(sections[|sections| - 1].attributes, validate, keep, key)
  }

  function FailurePairsOf(attrs: seq<Attribute>, validate: Validator, keep: Filter, key: KeyOf): seq<(string, seq<ValidationError>)>
    decreases |attrs|
  {
    if attrs == [] then []
    else
      var a := attrs[|attrs| - 1];
      FailurePairsOf(attrs[..|attrs| - 1], validate, keep, key)
      + (if keep(a) && |validate(a)| > 0 then [(key(a), validate(a))] else [])
  }

  /**
   * `validateMandatoryFields(sections, formData)`: the error map keyed by
   * `getAttributeId`, filled in section and attribute order.
   */
  method ValidateMandatoryFields(sections: seq<Section>, formData: map<string, Value>,
                                 parseFloat: string -> Option<real>, urlValid: string -> bool)
    returns (errors: map<string, seq<ValidationError>>)
    ensures errors == Put(map[], FailurePairs(sections, RecordValidator(formData, parseFloat, urlValid), MandatoryOnly, AttributeKey))
  {
    ghost var validate := RecordValidator(formData, parseFloat, urlValid);
    errors := map[];
    var i := 0;
    while i < |sections|
      invariant 0 <= i <= |sections|
      invariant errors == Put(map[], FailurePairs(sections[..i], validate, MandatoryOnly, AttributeKey))
    {
      var attrs := sections[i].attributes;
      ghost var before := errors;
      var j := 0;
      while j < |attrs|
        invariant 0 <= j <= |attrs|
        invariant errors == Put(before, FailurePairsOf(attrs[..j], validate, MandatoryOnly, AttributeKey))
      {
        var a := attrs[j];
        FailurePairsOfSnoc(before, attrs, j, validate, MandatoryOnly, AttributeKey);
        if IsMandatory(Some(a)) {
          var errs := ValidateInRecord(a, formData, parseFloat, urlValid);
          if |errs| > 0 {
            errors := errors[GetAttributeId(Some(a)) := errs];
          }
        }
        j := j + 1;
      }
      assert attrs[..|attrs|] == attrs;
      assert sections[..i + 1][..i] == sections[..i];
      PutAppend(map[], FailurePairs(sections[..i], validate, MandatoryOnly, AttributeKey), FailurePairsOf(attrs, validate, MandatoryOnly, AttributeKey));
      i := i + 1;
    }
    assert sections[..|sections|] == sections;
  }

  /** One more attribute scanned: its entry, if any, is stored after the others. */
  lemma FailurePairsOfSnoc(m: map<string, seq<ValidationError>>, attrs: seq<Attribute>, j: nat, validate: Validator, keep: Filter, key: KeyOf)
    requires j < |attrs|
    ensures Put(m, FailurePairsOf(attrs[..j + 1], validate, keep, key))
      == var p := Put(m, FailurePairsOf(attrs[..j], validate, keep, key));
         if keep(attrs[j]) && |validate(attrs[j])| > 0 then p[key(attrs[j]) := validate(attrs[j])] else p
  {
    var a := attrs[j];
    assert attrs[..j + 1][..j] == attrs[..j];
    var pre := FailurePairsOf(attrs[..j], validate, keep, key);
    var step := if keep(a) && |validate(a)| > 0 then [(key(a), validate(a))] else [];
    assert FailurePairsOf(attrs[..j + 1], validate, keep, key) == pre + step;
    PutAppend(m, pre, step);
    if step != [] {
      assert step[..0] == [];
    }
  }

  /**
   * The pairs of a validation pass are exactly the direct attributes of
   * the given sections that it looks at and that fail validation, under
   * their key; nested sections are not scanned. For the mandatory check:
   * only mandatory attributes with a non-empty error list, keyed by
   * `getAttributeId`.
   */
  lemma FailurePairsMember(sections: seq<Section>, validate: Validator, keep: Filter, key: KeyOf, k: string, errs: seq<ValidationError>)
    ensures (k, errs) in FailurePairs(sections, validate, keep, key) <==> FailsIn(sections, validate, keep, key, k, errs)
  {
    if (k, errs) in FailurePairs(sections, validate, keep, key) {
      FailurePairsSound(sections, validate, keep, key, k, errs);
    }
    if FailsIn(sections, validate, keep, key, k, errs) {
      FailurePairsComplete(sections, validate, keep, key, k, errs);
    }
  }

  /** Some direct attribute of the sections is a failure with this key and list. */
  predicate FailsIn(sections: seq<Section>, validate: Validator, keep: Filter, key: KeyOf, k: string, errs: seq<ValidationError>) {
    exists i, j :: 0 <= i < |sections| && 0 <= j < |sections[i].attributes|
      && Failure(sections[i].attributes[j], validate, keep, key, k, errs)
  }

  lemma {:induction false} FailurePairsSound(sections: seq<Section>, validate: Validator, keep: Filter, key: KeyOf, k: string, errs: seq<ValidationError>)
    requires (k, errs) in FailurePairs(sections, validate, keep, key)
    ensures FailsIn(sections, validate, keep, key, k, errs)
    decreases |sections|
  {
    var n := |sections| - 1;
    if (k, errs) in FailurePairs(sections[..n], validate, keep, key) {
      FailurePairsSound(sections[..n], validate, keep, key, k, errs);
      var i, j :| 0 <= i < n && 0 <= j < |sections[..n][i].attributes|
        && Failure(sections[..n][i].attributes[j], validate, keep, key, k, errs);
      assert sections[..n][i] == sections[i];
    } else {
      FailurePairsOfMember(sections[n].attributes, validate, keep, key, k, errs);
      var j :| 0 <= j < |sections[n].attributes| && Failure(sections[n].attributes[j], validate, keep, key, k, errs);
    }
  }

  lemma {:induction false} FailurePairsComplete(sections: seq<Section>, validate: Validator, keep: Filter, key: KeyOf, k: string, errs: seq<ValidationError>)
    requires FailsIn(sections, validate, keep, key, k, errs)
    ensures (k, errs) in FailurePairs(sections, validate, keep, key)
    decreases |sections|
  {
    var n := |sections| - 1;
    var i, j :| 0 <= i < |sections| && 0 <= j < |sections[i].attributes|
      && Failure(sections[i].attributes[j], validate, keep, key, k, errs);
    if i < n {
      assert sections[..n][i] == sections[i];
      FailurePairsComplete(sections[..n], validate, keep, key, k, errs);
    } else {
      FailurePairsOfMember(sections[n].attributes, validate, keep, key, k, errs);
    }
  }

  lemma {:induction false} FailurePairsOfMember(attrs: seq<Attribute>, validate: Validator, keep: Filter, key: KeyOf, k: string, errs: seq<ValidationError>)
    ensures (k, errs) in FailurePairsOf(attrs, validate, keep, key) <==>
      exists j :: 0 <= j < |attrs| && Failure(attrs[j], validate, keep, key, k, errs)
    decreases |attrs|
  {
    if attrs != [] {
      var n := |attrs| - 1;
      FailurePairsOfMember(attrs[..n], validate, keep, key, k, errs);
      var a := attrs[n];
      var last := if keep(a) && |validate(a)| > 0 then [(key(a), validate(a))] else [];
      assert FailurePairsOf(attrs, validate, keep, key) == FailurePairsOf(attrs[..n], validate, keep, key) + last;
      assert (k, errs) in last <==> Failure(a, validate, keep, key, k, errs);
      AnyFailureStep(attrs, validate, keep, key, k, errs);
    }
  }

  /** Some attribute of the list fails with key `k` and errors `errs`. */
  ghost predicate AnyFailure(attrs: seq<Attribute>, validate: Validator, keep: Filter, key: KeyOf, k: string, errs: seq<ValidationError>) {
    exists j :: 0 <= j < |attrs| && Failure(attrs[j], validate, keep, key, k, errs)
  }

  /** A failure in a list is one in all but its last attribute, or in the last. */
  lemma AnyFailureStep(attrs: seq<Attribute>, validate: Validator, keep: Filter, key: KeyOf, k: string, errs: seq<ValidationError>)
    requires attrs != []
    ensures var n := |attrs| - 1;
      AnyFailure(attrs, validate, keep, key, k, errs) <==>
        AnyFailure(attrs[..n], validate, keep, key, k, errs) || Failure(attrs[n], validate, keep, key, k, errs)
  {
    var n := |attrs| - 1;
    if AnyFailure(attrs, validate, keep, key, k, errs) {
      var j :| 0 <= j < |attrs| && Failure(attrs[j], validate, keep, key, k, errs);
      if j < n {
        assert attrs[..n][j] == attrs[j];
      }
    }
    if AnyFailure(attrs[..n], validate, keep, key, k, errs) {
      var j :| 0 <= j < n && Failure(attrs[..n][j], validate, keep, key, k, errs);
      assert attrs[..n][j] == attrs[j];
    }
  }

  // =====================================================================
  // Searches over the section tree

  /** The attributes of a section tree in pre-order: a section's own attributes, then its inner sections'. */
  function Flatten(sections: seq<Section>): seq<Attribute>
    decreases sections
  {
    if sections == [] then []
    else sections[0].attributes + Flatten(sections[0].sections) + Flatten(sections[1..])
  }

  lemma {:induction false} FlattenAppend(a: seq<Section>, b: seq<Section>)
    ensures Flatten(a + b) == Flatten(a) + Flatten(b)
    decreases |a|
  {
    if a == [] {
      assert a + b == b;
    } else {
      assert (a + b)[1..] == a[1..] + b;
      FlattenAppend(a[1..], b);
    }
  }

  /** The position of the first attribute of a list whose `getAttributeId` is `id`, or the length. */
  function FirstIdIndex(xs: seq<Attribute>, id: string): (k: nat)
    ensures k <= |xs|
    ensures forall j :: 0 <= j < k ==> GetAttributeId(Some(xs[j])) != id
    ensures k < |xs| ==> GetAttributeId(Some(xs[k])) == id
  {
    if xs == [] then 0
    else if GetAttributeId(Some(xs[0])) == id then 0
    else
      var k := FirstIdIndex(xs[1..], id);
      assert forall j :: 1 <= j < |xs| ==> xs[j] == xs[1..][j - 1];
      1 + k
  }

  /** The first attribute of a list whose `getAttributeId` is `id`. */
  function FindById(xs: seq<Attribute>, id: string): Option<Attribute> {
    var k := FirstIdIndex(xs, id);
    if k < |xs| then Some(xs[k]) else None
  }

  lemma {:induction false} FirstIdIndexAppend(a: seq<Attribute>, b: seq<Attribute>, id: string)
    ensures FirstIdIndex(a + b, id) == if FirstIdIndex(a, id) < |a| then FirstIdIndex(a, id) else |a| + FirstIdIndex(b, id)
    decreases |a|
  {
    if a == [] {
      assert a + b == b;
    } else {
      assert (a + b)[0] == a[0];
      assert (a + b)[1..] == a[1..] + b;
      FirstIdIndexAppend(a[1..], b, id);
    }
  }

  lemma FindByIdAppend(a: seq<Attribute>, b: seq<Attribute>, id: string)
    ensures FindById(a + b, id) == if FindById(a, id).Some? then FindById(a, id) else FindById(b, id)
  {
    FirstIdIndexAppend(a, b, id);
    var k := FirstIdIndex(a, id);
    if k < |a| {
      assert (a + b)[k] == a[k];
    } else {
      var kb := FirstIdIndex(b, id);
      if kb < |b| {
        assert (a + b)[|a| + kb] == b[kb];
      }
    }
  }

  /**
   * `getAttributeById(sections, id)`: the first attribute with that id in
   * pre-order, a section's own attributes before its inner sections'.
   */
  function GetAttributeById(sections: seq<Section>, id: string): (r: Option<Attribute>)
    ensures r == FindById(Flatten(sections), id)
    decreases sections
  {
    if sections == [] then None
    else
      var s := sections[0];
      FindByIdAppend(s.attributes + Flatten(s.sections), Flatten(sections[1..]), id);
      FindByIdAppend(s.attributes, Flatten(s.sections), id);
      match FindById(s.attributes, id)
      case Some(a) => Some(a)
      case None =>
        match GetAttributeById(s.sections, id)
        case Some(a) => Some(a)
        case None => GetAttributeById(sections[1..], id)
  }

  /** The attributes of a list whose `getTag` is `tag`, in order. */
  function WithTag(xs: seq<Attribute>, tag: Option<string>): seq<Attribute>
  {
    if xs == [] then []
    else if GetTag(Some(xs[0]), 0) == tag then [xs[0]] + WithTag(xs[1..], tag)
    else WithTag(xs[1..], tag)
  }

  /** The selection keeps exactly the attributes with the tag, in their order. */
  lemma {:induction false} WithTagSpec(xs: seq<Attribute>, tag: Option<string>)
    ensures Subseq(WithTag(xs, tag), xs)
    ensures forall a :: a in WithTag(xs, tag) <==> a in xs && GetTag(Some(a), 0) == tag
  {
    if xs != [] {
      WithTagSpec(xs[1..], tag);
      assert xs == [xs[0]] + xs[1..];
    }
  }

  lemma {:induction false} WithTagAppend(a: seq<Attribute>, b: seq<Attribute>, tag: Option<string>)
    ensures WithTag(a + b, tag) == WithTag(a, tag) + WithTag(b, tag)
    decreases |a|
  {
    if a == [] {
      assert a + b == b;
    } else {
      assert (a + b)[0] == a[0];
      assert (a + b)[1..] == a[1..] + b;
      WithTagAppend(a[1..], b, tag);
    }
  }

  /**
   * `getAttributesByTag(sections, tag)`: every attribute whose `getTag`
   * is `tag`, in pre-order.
   */
  method GetAttributesByTag(sections: seq<Section>, tag: Option<string>) returns (results: seq<Attribute>)
    ensures results == WithTag(Flatten(sections), tag)
    decreases sections
  {
    results := [];
    var i := 0;
    while i < |sections|
      invariant 0 <= i <= |sections|
      invariant results == WithTag(Flatten(sections[..i]), tag)
    {
      var s := sections[i];
      ghost var before := results;
      var j := 0;
      while j < |s.attributes|
        invariant 0 <= j <= |s.attributes|
        invariant results == before + WithTag(s.attributes[..j], tag)
      {
        WithTagSnoc(s.attributes, j, tag);
        if GetTag(Some(s.attributes[j]), 0) == tag {
          results := results + [s.attributes[j]];
        }
        j := j + 1;
      }
      assert s.attributes[..j] == s.attributes;
      var nested := GetAttributesByTag(s.sections, tag);
      results := results + nested;
      WithTagFlattenSnoc(sections, i, tag);
      i := i + 1;
    }
    assert sections[..i] == sections;
  }

  lemma WithTagSnoc(xs: seq<Attribute>, j: nat, tag: Option<string>)
    requires j < |xs|
    ensures WithTag(xs[..j + 1], tag) == WithTag(xs[..j], tag) + (if GetTag(Some(xs[j]), 0) == tag then [xs[j]] else [])
  {
    WithTagAppend(xs[..j], [xs[j]], tag);
    assert xs[..j + 1] == xs[..j] + [xs[j]];
  }

  lemma WithTagFlattenSnoc(sections: seq<Section>, i: nat, tag: Option<string>)
    requires i < |sections|
    ensures WithTag(Flatten(sections[..i + 1]), tag)
      == WithTag(Flatten(sections[..i]), tag) + WithTag(sections[i].attributes, tag) + WithTag(Flatten(sections[i].sections), tag)
  {
    var s := sections[i];
    assert sections[..i + 1] == sections[..i] + [s];
    FlattenAppend(sections[..i], [s]);
    assert Flatten([s]) == s.attributes + Flatten(s.sections) + Flatten([]);
    assert Flatten([s]) == s.attributes + Flatten(s.sections);
    WithTagAppend(Flatten(sections[..i]), Flatten([s]), tag);
    WithTagAppend(s.attributes, Flatten(s.sections), tag);
  }

  /** The section's `mode` list, when present, names the mode. */
  predicate ModeAllows(s: Section, mode: string) {
    s.mode.None? || mode in s.mode.value
  }

  /**
   * `getValidSections(sections, mode)`: `[]` when the input is not an
   * array; otherwise the sections whose `mode` list is absent or contains
   * the mode, in their original order.
   */
  function GetValidSections(sections: Option<seq<Section>>, mode: string): (r: seq<Section>)
    ensures sections.None? ==> r == []
    ensures sections.Some? ==> Subseq(r, sections.value)
    ensures sections.Some? ==> forall s :: s in r <==> s in sections.value && ModeAllows(s, mode)
  {
    match sections
    case None => []
    case Some(ss) => KeepAllowed(ss, mode)
  }

  function KeepAllowed(ss: seq<Section>, mode: string): (r: seq<Section>)
    ensures Subseq(r, ss)
    ensures forall s :: s in r <==> s in ss && ModeAllows(s, mode)
  {
    if ss == [] then []
    else if ModeAllows(ss[0], mode) then [ss[0]] + KeepAllowed(ss[1..], mode)
    else KeepAllowed(ss[1..], mode)
  }
}
