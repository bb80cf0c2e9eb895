/**
 * The choice of the input component for an attribute, and the props the
 * renderer hands it: a fixed table from tags to components, consulted with
 * a fixed precedence, and a props object built from the caller's options
 * and the attribute.
 */
module FieldRendererService {
  import opened Wrappers
  import opened JsValues
  import opened Layout

  datatype Component =
    | TextField | SelectField | DateField | TextAreaField | CheckboxField | NumberField
    | CurrencyField | LinkField | EmailField | PhoneField | RadioField | ToggleField
    | TagsField | DateTimeField | TimeField | SalutationField | MultiSelectField
    | PercentageField | DurationField | FileUploadField | PhoneEmailField | AddressField
    | ReferenceField | FormulaField

  /** `fieldComponentMap[tag]`: the table is set once and never updated; `None` for a tag it lacks. */
  function ComponentFor(tag: string): Option<Component> {
    match tag
    case "input" => Some(TextField)
    case "text" => Some(TextField)
    case "label" => Some(TextField)
    case "number" => Some(NumberField)
    case "currency" => Some(CurrencyField)
    case "link" => Some(LinkField)
    case "email" => Some(EmailField)
    case "phone" => Some(PhoneField)
    case "fax" => Some(PhoneField)
    case "select" => Some(SelectField)
    case "select_dropdown" => Some(SelectField)
    case "select_search" => Some(TagsField)
    case "tags" => Some(TagsField)
    case "multiSelect" => Some(MultiSelectField)
    case "multiObjectList" => Some(MultiSelectField)
    case "date" => Some(DateField)
    case "dateTime" => Some(DateTimeField)
    case "time" => Some(TimeField)
    case "textarea" => Some(TextAreaField)
    case "simpleTextarea" => Some(TextAreaField)
    case "check" => Some(CheckboxField)
    case "checkbox" => Some(CheckboxField)
    case "radio" => Some(RadioField)
    case "toggle" => Some(ToggleField)
    case "on_off" => Some(ToggleField)
    case "salutation" => Some(SalutationField)
    case "phoneEmail" => Some(PhoneEmailField)
    case "address" => Some(AddressField)
    case "reference" => Some(ReferenceField)
    case "finkey" => Some(ReferenceField)
    case "account" => Some(ReferenceField)
    case "conKey" => Some(ReferenceField)
    case "referenceField" => Some(ReferenceField)
    case "formula" => Some(FormulaField)
    case "duration" => Some(DurationField)
    case "fileUpload" => Some(FileUploadField)
    case "upload" => Some(FileUploadField)
    case "imageUpload" => Some(FileUploadField)
    case "percentage" => Some(PercentageField)
    case "numberwithlabel" => Some(NumberField)
    case "counter" => Some(NumberField)
    case "emailAutoComplete" => Some(EmailField)
    case "app_select" => Some(SelectField)
    case "combo" => Some(SelectField)
    case "button" => Some(TextField)
    case "image" => Some(FileUploadField)
    case "term" => Some(TextField)
    case "qr" => Some(TextField)
    case "textLink" => Some(TextField)
    case _ => None
  }

  /** `attribute.attributeTag || attribute.tag || attribute.type` */
  function OwnTag(a: Attribute): Option<string> { OrStr(OrStr(a.attributeTag, a.tag), a.kind) }

  /** `tag && this.fieldComponentMap[tag]` is truthy. */
  predicate Registered(tag: Option<string>) { Present(tag) && ComponentFor(tag.value).Some? }

  /** `getFieldComponent(attribute)`: `None` stands for `null`. */
  function GetFieldComponent(attribute: Option<Attribute>): (r: Option<Component>)
    ensures r.None? <==> attribute.None?
  {
    if attribute.None? then None
    else
      var a := attribute.value;
      var tag := OwnTag(a);
      var rightTag := FirstRightTag(a);
      if a.displayTypeName == Some("Currency") then Some(CurrencyField)
      else if Registered(rightTag) then ComponentFor(rightTag.value)
      else if Registered(tag) then ComponentFor(tag.value)
      else if tag == Some("formula") || a.formulaType then Some(FormulaField)
      else Some(TextField)
  }

  /**
   * The precedence of `getFieldComponent`: the Currency display type wins
   * over every tag; a registered `right[0].tag` wins over the attribute's
   * own tag; an unregistered tag gives the formula field when the
   * attribute has a formula type and the text field otherwise. The
   * `tag === 'formula'` test never decides, since `formula` is registered.
   */
  lemma ComponentPrecedence(a: Attribute)
    ensures a.displayTypeName == Some("Currency") ==> GetFieldComponent(Some(a)) == Some(CurrencyField)
    ensures a.displayTypeName != Some("Currency") && Registered(FirstRightTag(a)) ==>
      GetFieldComponent(Some(a)) == ComponentFor(FirstRightTag(a).value)
    ensures a.displayTypeName != Some("Currency") && !Registered(FirstRightTag(a)) && Registered(OwnTag(a)) ==>
      GetFieldComponent(Some(a)) == ComponentFor(OwnTag(a).value)
    ensures a.displayTypeName != Some("Currency") && !Registered(FirstRightTag(a)) && !Registered(OwnTag(a)) ==>
      GetFieldComponent(Some(a)) == Some(if a.formulaType then FormulaField else TextField)
  {
    assert ComponentFor("formula").Some?;
  }

  /** An attribute whose only tag is `t`, with no display type and no formula type, gets the table's component for `t`. */
  lemma TagSelects(a: Attribute, t: string)
    requires a.displayTypeName != Some("Currency") && !Registered(FirstRightTag(a))
    requires OwnTag(a) == Some(t) && ComponentFor(t).Some? && t != ""
    ensures GetFieldComponent(Some(a)) == ComponentFor(t)
    ensures t == "select_search" || t == "tags" ==> GetFieldComponent(Some(a)) == Some(TagsField)
    ensures t == "check" || t == "checkbox" ==> GetFieldComponent(Some(a)) == Some(CheckboxField)
  {
  }

  // ---------------------------------------------------------------------
  // Props

  /** The components that receive an option list. */
  predicate TakesOptions(c: Component) {
    c == SelectField || c == CheckboxField || c == RadioField || c == MultiSelectField || c == TagsField
  }

  /** An array property that may be absent, as a value. */
  function OptArr(o: Option<seq<Value>>): (v: Value)
    ensures Truthy(v) <==> o.Some?
  {
    if o.Some? then Arr(o.value) else Undefined
  }

  /** `options.options || attribute.options || attribute.right[0].options || []` */
  function ChoiceOptions(options: map<string, Value>, a: Attribute): Value {
    var right := if |a.right| > 0 then a.right[0].options else None;
    Or(Prop(Obj(options), "options"), Or(OptArr(a.options), Or(OptArr(right), Arr([]))))
  }

  /**
   * The props `renderField` passes besides `attribute`, `value`, `onChange`
   * and `mode`: `disabled` and `className` with their defaults, then every
   * property of `options` spread over them, then the option list of a
   * choice component. `None` stands for `null` (no attribute).
   */
  function RenderProps(attribute: Option<Attribute>, options: map<string, Value>): (r: Option<map<string, Value>>)
    ensures r.None? <==> attribute.None?
  {
    match GetFieldComponent(attribute)
    case None => None
    case Some(c) =>
      var a := attribute.value;
      var base := map[
        "disabled" := Or(Or(Prop(Obj(options), "disabled"), a.disableField), Bool(false)),
        "className" := Or(Prop(Obj(options), "className"), Str(""))];
      var spread := base + options;
      Some(if TakesOptions(c) then spread["options" := ChoiceOptions(options, a)] else spread)
  }

  /**
   * A key the caller passes in `options` overrides the default even when
   * it is falsy (`disabled: false` beats a disabled attribute); without it
   * `disabled` is truthy iff the attribute's `disableField` is, and
   * `className` is `''`. Every other key of `options` except `options`
   * reaches the props unchanged.
   */
  lemma PropsDefaults(a: Attribute, options: map<string, Value>)
    ensures var p := RenderProps(Some(a), options).value;
      "disabled" in p && "className" in p
      && ("disabled" in options ==> p["disabled"] == options["disabled"])
      && ("disabled" !in options ==> (Truthy(p["disabled"]) <==> Truthy(a.disableField)))
      && ("className" !in options ==> p["className"] == Str(""))
      && (forall k :: k in options && k != "options" ==> k in p && p[k] == options[k])
  {
  }

  /**
   * A choice component always receives an option list: the first truthy
   * of the caller's, the attribute's, `right[0]`'s and `[]`. Any other
   * component gets `options` only from the caller.
   */
  lemma PropsOptions(a: Attribute, options: map<string, Value>)
    ensures var p := RenderProps(Some(a), options).value;
      var c := GetFieldComponent(Some(a)).value;
      TakesOptions(c) ==>
        "options" in p && Truthy(p["options"])
        && (Truthy(Prop(Obj(options), "options")) ==> p["options"] == options["options"])
        && (!Truthy(Prop(Obj(options), "options")) && a.options.Some? ==> p["options"] == Arr(a.options.value))
        && (!Truthy(Prop(Obj(options), "options")) && a.options.None? && (|a.right| == 0 || a.right[0].options.None?)
            ==> p["options"] == Arr([]))
    ensures var p := RenderProps(Some(a), options).value;
      !TakesOptions(GetFieldComponent(Some(a)).value) ==> ("options" in p <==> "options" in options)
  {
  }
}
