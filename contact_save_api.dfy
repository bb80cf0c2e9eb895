/**
 * The payload of a contact save: the nine standard fields with their
 * defaults, and one custom-attribute entry for every other filled-in key
 * of the form, in key order.
 */
module ContactSaveApi {
  import opened Wrappers
  import opened JsValues
  import opened Seqs

  /** The keys `buildCustomAttributes` skips, as the standard fields of the payload. */
  const StandardKeys: seq<string> :=
    ["firstName", "lastName", "title", "jobTitle", "description",
     "phoneNumbers", "emailAddresses", "addresses", "labels"]

  /** `[...standard fields].includes(key)` */
  predicate Skipped(key: string) { key in StandardKeys }

  /** The standard fields that default to `''`. */
  const TextKeys: seq<string> := StandardKeys[..5]

  /** The standard fields that default to `[]`. */
  const ListKeys: seq<string> := StandardKeys[5..]

  /**
   * `{ customAttributeTagName: key, customAttributeName: key,
   * customAttributeValue: value, [key]: value }`: the computed property
   * comes last, so a key equal to one of the three names overrides it.
   */
  function Entry(key: string, value: Value): Value {
    Obj(map["customAttributeTagName" := Str(key), "customAttributeName" := Str(key),
            "customAttributeValue" := value][key := value])
  }

  /** The entry the loop body pushes for `key`, if any. */
  function EntryOf(formData: map<string, Value>): string -> Option<Value> {
    key => if Skipped(key) || !Filled(Prop(Obj(formData), key)) then None
           else Some(Entry(key, Prop(Obj(formData), key)))
  }

  /** `buildCustomAttributes(formData)` over the keys `keys`, in their order. */
  function CustomAttributes(keys: seq<string>, formData: map<string, Value>): seq<Value> {
    Collect(keys, EntryOf(formData))
  }

  /** `buildCustomAttributes(formData, configData)`; `keys` is `Object.keys(formData)`. */
  method BuildCustomAttributes(formData: map<string, Value>, keys: seq<string>) returns (customAttributes: seq<Value>)
    requires KeyOrder(keys, formData)
    ensures customAttributes == CustomAttributes(keys, formData)
  {
    customAttributes := [];
    var i := 0;
    while i < |keys|
      invariant 0 <= i <= |keys|
      invariant customAttributes == CustomAttributes(keys[..i], formData)
    {
      var key := keys[i];
      assert key in keys;
      var value := formData[key];
      CustomStep(keys, i, formData);
      if !Skipped(key) && Filled(value) {
        customAttributes := customAttributes + [Entry(key, value)];
      }
      i := i + 1;
    }
    assert keys[..|keys|] == keys;
  }

  /** One key more: its entry, if any, comes after those of the keys before it. */
  lemma CustomStep(keys: seq<string>, i: nat, formData: map<string, Value>)
    requires i < |keys| && keys[i] in formData
    ensures var key := keys[i];
      CustomAttributes(keys[..i + 1], formData) == CustomAttributes(keys[..i], formData)
        + (if Skipped(key) || !Filled(formData[key]) then [] else [Entry(key, formData[key])])
  {
    CollectStep(keys, i, EntryOf(formData));
  }

  /**
   * An entry carries its value under `customAttributeValue` and under its
   * own key, and names its key under `customAttributeTagName` and
   * `customAttributeName` unless the key is that very name.
   */
  lemma EntryFields(key: string, value: Value)
    ensures var e := Entry(key, value);
      Prop(e, key) == value
      && Prop(e, "customAttributeValue") == value
      && Prop(e, "customAttributeTagName") == (if key == "customAttributeTagName" then value else Str(key))
      && Prop(e, "customAttributeName") == (if key == "customAttributeName" then value else Str(key))
  {
  }

  /**
   * The custom attributes follow the key order and never outnumber the
   * keys; an entry is there iff some key is not a standard field, its
   * value is filled in (not `undefined`, `null` or `''`) and the entry is
   * the one built from that key and value.
   */
  lemma CustomAttributesSpec(keys1: seq<string>, keys2: seq<string>, formData: map<string, Value>, e: Value)
    ensures CustomAttributes(keys1 + keys2, formData) == CustomAttributes(keys1, formData) + CustomAttributes(keys2, formData)
    ensures |CustomAttributes(keys1, formData)| <= |keys1|
    ensures e in CustomAttributes(keys1, formData) <==>
      exists i :: 0 <= i < |keys1| && keys1[i] !in StandardKeys && Filled(Prop(Obj(formData), keys1[i]))
                  && e == Entry(keys1[i], Prop(Obj(formData), keys1[i]))
  {
    var f := EntryOf(formData);
    CollectAppend(keys1, keys2, f);
    CollectMembers(keys1, f, e);
  }

  /** A form holding only standard fields, or only empty values, has no custom attributes. */
  lemma NothingToAdd(keys: seq<string>, formData: map<string, Value>)
    requires forall i :: 0 <= i < |keys| ==> keys[i] in StandardKeys || !Filled(Prop(Obj(formData), keys[i]))
    ensures CustomAttributes(keys, formData) == []
  {
    if CustomAttributes(keys, formData) != [] {
      var e := CustomAttributes(keys, formData)[0];
      CustomAttributesSpec(keys, [], formData, e);
    }
  }

  /** The default of a standard field: `[]` for the four lists, `''` otherwise. */
  function Default(key: string): (r: Value)
    ensures r == Arr([]) || r == Str("")
  {
    match key
    case "phoneNumbers" | "emailAddresses" | "addresses" | "labels" => Arr([])
    case _ => Str("")
  }

  /** `buildContactData(formData, configData)`; the configuration is not consulted. */
  function BuildContactData(formData: map<string, Value>, keys: seq<string>): map<string, Value> {
    (map k | k in StandardKeys :: Or(Prop(Obj(formData), k), Default(k)))
      ["customAttributes" := Arr(CustomAttributes(keys, formData))]
  }

  /** The five text fields default to `''`, the four lists to `[]`. */
  lemma DefaultsSpec(k: string)
    ensures k in TextKeys ==> Default(k) == Str("")
    ensures k in ListKeys ==> Default(k) == Arr([])
  {
    assert TextKeys == ["firstName", "lastName", "title", "jobTitle", "description"];
    assert ListKeys == ["phoneNumbers", "emailAddresses", "addresses", "labels"];
  }

  /**
   * The payload holds exactly the standard fields and the custom
   * attributes; every standard field is the form's value when that is
   * truthy and otherwise its default, so none is `undefined` or `null`;
   * the custom attributes are those of the form.
   */
  lemma ContactDataSpec(formData: map<string, Value>, keys: seq<string>, k: string)
    ensures var r := BuildContactData(formData, keys);
      (k in r <==> k in StandardKeys || k == "customAttributes")
      && (k in StandardKeys ==>
            r[k] == (if Truthy(Prop(Obj(formData), k)) then formData[k] else Default(k)) && !IsNullish(r[k]))
      && r["customAttributes"] == Arr(CustomAttributes(keys, formData))
  {
    assert "customAttributes" !in StandardKeys;
  }

  /**
   * A custom attribute is never tagged with a standard field's name, as
   * long as the form has no key `customAttributeTagName`: that key's entry
   * carries the key's value as its tag name.
   */
  lemma StandardNotCustom(keys: seq<string>, formData: map<string, Value>, k: string)
    requires k in StandardKeys && "customAttributeTagName" !in formData
    ensures forall e :: e in CustomAttributes(keys, formData) ==> Prop(e, "customAttributeTagName") != Str(k)
  {
    forall e | e in CustomAttributes(keys, formData)
      ensures Prop(e, "customAttributeTagName") != Str(k)
    {
      CustomAttributesSpec(keys, [], formData, e);
      var i :| 0 <= i < |keys| && keys[i] !in StandardKeys && Filled(Prop(Obj(formData), keys[i]))
               && e == Entry(keys[i], Prop(Obj(formData), keys[i]));
      assert keys[i] != k;
      EntryFields(keys[i], Prop(Obj(formData), keys[i]));
    }
  }

  /** The exception: a `customAttributeTagName` key holding `'firstName'` gives an entry tagged `firstName`. */
  lemma TagNameOverridden()
    ensures var form := map["customAttributeTagName" := Str("firstName")];
      var c := CustomAttributes(["customAttributeTagName"], form);
      |c| == 1 && Prop(c[0], "customAttributeTagName") == Str("firstName")
  {
    var key := "customAttributeTagName";
    var form := map[key := Str("firstName")];
    assert key !in StandardKeys;
    SingleKey(key, form);
    EntryFields(key, Str("firstName"));
  }

  /** A lone filled-in key that is not standard gives exactly its entry. */
  lemma SingleKey(key: string, formData: map<string, Value>)
    requires key !in StandardKeys && Filled(Prop(Obj(formData), key))
    ensures CustomAttributes([key], formData) == [Entry(key, Prop(Obj(formData), key))]
  {
    assert [key][..0] == [] && [key][..1] == [key];
    CollectStep([key], 0, EntryOf(formData));
  }
}
