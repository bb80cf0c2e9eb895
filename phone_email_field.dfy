/**
 * The combined phone and email input. Its state is two lists, phone
 * entries and email entries; every handler replaces one of them and
 * reports both to `onChange`.
 */
module PhoneEmailField {
  import opened JsValues
  import opened Seqs

  /** `value?.[key] || []`, for a value whose lists are arrays. */
  function ListOf(value: Value, key: string): seq<Value> {
    var v := Prop(value, key);
    if v.Arr? then v.items else []
  }

  /**
   * `const list = [...old]; if (!list[index]) list[index] = {};` followed
   * by one property write per entry of `fields`. A truthy entry that is not
   * a plain object takes no property.
   */
  function SetEntry(list: seq<Value>, index: nat, fields: map<string, Value>): (r: seq<Value>)
    ensures |r| == if index < |list| then |list| else index + 1
    ensures forall k :: 0 <= k < |list| && k != index ==> r[k] == list[k]
    ensures var e := if index < |list| then list[index] else Undefined;
      (!Truthy(e) || e.Obj?) ==> forall key :: key in fields ==> Prop(r[index], key) == fields[key]
    ensures var e := if index < |list| then list[index] else Undefined;
      e.Obj? ==> forall key :: key in e.fields && key !in fields ==> Prop(r[index], key) == e.fields[key]
  {
    var e := if index < |list| && Truthy(list[index]) then list[index] else Obj(map[]);
    SetIndex(list, index, if e.Obj? then Obj(e.fields + fields) else e)
  }

  /** The phone list after `handlePhoneChange(phoneValue, phoneIndex, phoneType)`. */
  function WithPhone(phones: seq<Value>, phoneIndex: nat, phoneValue: Value, phoneType: Value): seq<Value> {
    SetEntry(phones, phoneIndex, map["phoneNumber" := phoneValue, "phoneType" := phoneType])
  }

  /** The email list after `handleEmailChange(emailValue, emailIndex)`. */
  function WithEmail(emails: seq<Value>, emailIndex: nat, emailValue: Value): seq<Value> {
    SetEntry(emails, emailIndex, map["emailAddress" := emailValue])
  }

  /** `{ phoneNumber: '', phoneType: 'mobile' }` */
  const NewPhone := Obj(map["phoneNumber" := Str(""), "phoneType" := Str("mobile")])

  /** `{ emailAddress: '' }` */
  const NewEmail := Obj(map["emailAddress" := Str("")])

  /** `{ phoneNumbers, emailAddresses }`, as passed to `onChange`. */
  function Emitted(phones: seq<Value>, emails: seq<Value>): Value {
    Obj(map["phoneNumbers" := Arr(phones), "emailAddresses" := Arr(emails)])
  }

  /**
   * A phone change writes the number and the type into the entry at the
   * index, which is created when it is missing or falsy, and keeps the
   * entry's other properties and every other entry.
   */
  lemma PhoneChangeSpec(phones: seq<Value>, phoneIndex: nat, phoneValue: Value, phoneType: Value)
    requires phoneIndex >= |phones| || !Truthy(phones[phoneIndex]) || phones[phoneIndex].Obj?
    ensures var r := WithPhone(phones, phoneIndex, phoneValue, phoneType);
      |r| == (if phoneIndex < |phones| then |phones| else phoneIndex + 1)
      && Prop(r[phoneIndex], "phoneNumber") == phoneValue
      && Prop(r[phoneIndex], "phoneType") == phoneType
      && (forall k :: 0 <= k < |phones| && k != phoneIndex ==> r[k] == phones[k])
  {
  }

  /** An email change writes the address into the entry at the index, created when missing, and keeps every other entry. */
  lemma EmailChangeSpec(emails: seq<Value>, emailIndex: nat, emailValue: Value)
    requires emailIndex >= |emails| || !Truthy(emails[emailIndex]) || emails[emailIndex].Obj?
    ensures var r := WithEmail(emails, emailIndex, emailValue);
      |r| == (if emailIndex < |emails| then |emails| else emailIndex + 1)
      && Prop(r[emailIndex], "emailAddress") == emailValue
      && (forall k :: 0 <= k < |emails| && k != emailIndex ==> r[k] == emails[k])
  {
  }

  /** Removing the entry just added gives the list back. */
  lemma RemoveUndoesAdd(list: seq<Value>, entry: Value)
    ensures Without(list + [entry], |list|) == list
  {
    assert (list + [entry])[..|list|] == list;
  }

  /** The state of one field: its phone list and its email list. */
  class PhoneEmailState {
    var phoneNumbers: seq<Value>
    var emailAddresses: seq<Value>

    /** The initial state: `value?.phoneNumbers || []` and `value?.emailAddresses || []`. */
    constructor (value: Value)
      ensures phoneNumbers == ListOf(value, "phoneNumbers")
      ensures emailAddresses == ListOf(value, "emailAddresses")
    {
      phoneNumbers := ListOf(value, "phoneNumbers");
      emailAddresses := ListOf(value, "emailAddresses");
    }

    /** `handlePhoneChange(phoneValue, phoneIndex, phoneType)`: returns what is passed to `onChange`. */
    method HandlePhoneChange(phoneValue: Value, phoneIndex: nat, phoneType: Value) returns (emitted: Value)
      modifies this
      ensures phoneNumbers == WithPhone(old(phoneNumbers), phoneIndex, phoneValue, phoneType)
      ensures emailAddresses == old(emailAddresses)
      ensures emitted == Emitted(phoneNumbers, emailAddresses)
    {
      phoneNumbers := WithPhone(phoneNumbers, phoneIndex, phoneValue, phoneType);
      emitted := Emitted(phoneNumbers, emailAddresses);
    }

    /** `handleEmailChange(emailValue, emailIndex)` */
    method HandleEmailChange(emailValue: Value, emailIndex: nat) returns (emitted: Value)
      modifies this
      ensures emailAddresses == WithEmail(old(emailAddresses), emailIndex, emailValue)
      ensures phoneNumbers == old(phoneNumbers)
      ensures emitted == Emitted(phoneNumbers, emailAddresses)
    {
      emailAddresses := WithEmail(emailAddresses, emailIndex, emailValue);
      emitted := Emitted(phoneNumbers, emailAddresses);
    }

    /** `addPhone()`: a blank mobile entry at the end. */
    method AddPhone() returns (emitted: Value)
      modifies this
      ensures phoneNumbers == old(phoneNumbers) + [NewPhone]
      ensures emailAddresses == old(emailAddresses)
      ensures emitted == Emitted(phoneNumbers, emailAddresses)
    {
      phoneNumbers := phoneNumbers + [NewPhone];
      emitted := Emitted(phoneNumbers, emailAddresses);
    }

    /** `addEmail()`: a blank entry at the end. */
    method AddEmail() returns (emitted: Value)
      modifies this
      ensures emailAddresses == old(emailAddresses) + [NewEmail]
      ensures phoneNumbers == old(phoneNumbers)
      ensures emitted == Emitted(phoneNumbers, emailAddresses)
    {
      emailAddresses := emailAddresses + [NewEmail];
      emitted := Emitted(phoneNumbers, emailAddresses);
    }

    /** `removePhone(index)`: every entry but the one at `index`, in order. */
    method RemovePhone(index: int) returns (emitted: Value)
      modifies this
      ensures phoneNumbers == Without(old(phoneNumbers), index)
      ensures emailAddresses == old(emailAddresses)
      ensures emitted == Emitted(phoneNumbers, emailAddresses)
    {
      phoneNumbers := Without(phoneNumbers, index);
      emitted := Emitted(phoneNumbers, emailAddresses);
    }

    /** `removeEmail(index)` */
    method RemoveEmail(index: int) returns (emitted: Value)
      modifies this
      ensures emailAddresses == Without(old(emailAddresses), index)
      ensures phoneNumbers == old(phoneNumbers)
      ensures emitted == Emitted(phoneNumbers, emailAddresses)
    {
      emailAddresses := Without(emailAddresses, index);
      emitted := Emitted(phoneNumbers, emailAddresses);
    }
  }
}
