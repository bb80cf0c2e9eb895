/**
 * The postal address input: a record of five text fields edited one field
 * at a time, a state list narrowed to the chosen country, and a one-line
 * rendering for view mode.
 */
module AddressField {
  import opened Wrappers
  import opened JsValues
  import opened Seqs

  /** The fields in the order view mode lists them. */
  const AddressKeys: seq<string> := ["street", "city", "state", "zipCode", "country"]

  /** The record with every field `''`. */
  const BlankAddress: map<string, Value> :=
    map["street" := Str(""), "city" := Str(""), "state" := Str(""), "zipCode" := Str(""), "country" := Str("")]

  /** `value || { street: '', ... }`, for a value that is an object when truthy. */
  function InitialAddress(value: Value): (r: map<string, Value>)
    ensures Truthy(value) && value.Obj? ==> r == value.fields
    ensures !Truthy(value) ==> forall k :: k in AddressKeys ==> k in r && r[k] == Str("")
  {
    if Truthy(value) && value.Obj? then value.fields else BlankAddress
  }

  /** What `handleFieldChange` produces: the new record, and the value passed to `onCountryChange` if it is called. */
  datatype FieldChange = FieldChange(address: map<string, Value>, countryChanged: Option<Value>)

  /** `handleFieldChange(field, fieldValue)` */
  function HandleFieldChange(address: map<string, Value>, field: string, fieldValue: Value, hasCountryCallback: bool): FieldChange {
    FieldChange(address[field := fieldValue], if field == "country" && hasCountryCallback then Some(fieldValue) else None)
  }

  /**
   * A change sets the named field and keeps every other field; the country
   * callback fires, with the new value, exactly when the field is
   * `country` and a callback is given.
   */
  lemma FieldChangeSpec(address: map<string, Value>, field: string, fieldValue: Value, hasCountryCallback: bool)
    ensures var r := HandleFieldChange(address, field, fieldValue, hasCountryCallback);
      r.address.Keys == address.Keys + {field}
      && r.address[field] == fieldValue
      && (forall k :: k in address && k != field ==> r.address[k] == address[k])
      && (r.countryChanged.Some? <==> field == "country" && hasCountryCallback)
      && (r.countryChanged.Some? ==> r.countryChanged.value == fieldValue)
  {
  }

  /** `address.country` */
  function Country(address: map<string, Value>): Value {
    Prop(Obj(address), "country")
  }

  /** `s => s.countryId === country` */
  function InCountry(country: Value): Value -> bool {
    s => Prop(s, "countryId") == country
  }

  /**
   * The state list shown after the country effect: the given states of
   * the chosen country when a country is set and a callback exists,
   * otherwise the list shown before.
   */
  function CurrentStates(current: seq<Value>, states: seq<Value>, address: map<string, Value>, hasCountryCallback: bool): seq<Value> {
    if Truthy(Country(address)) && hasCountryCallback then Select(states, InCountry(Country(address))) else current
  }

  /**
   * With a country and a callback, the states shown are exactly those
   * whose `countryId` is the country, in the given order; otherwise the
   * list does not change.
   */
  lemma CurrentStatesSpec(current: seq<Value>, states: seq<Value>, address: map<string, Value>, hasCountryCallback: bool, s: Value)
    ensures var r := CurrentStates(current, states, address, hasCountryCallback);
      (Truthy(Country(address)) && hasCountryCallback ==>
        Subseq(r, states)
        && multiset(r)[s] == if Prop(s, "countryId") == Country(address) then multiset(states)[s] else 0)
      && (!(Truthy(Country(address)) && hasCountryCallback) ==> r == current)
  {
    SelectSubseq(states, InCountry(Country(address)));
    SelectCounts(states, InCountry(Country(address)), s);
  }

  /** `Boolean` as a filter. */
  function IsTruthy(): Value -> bool {
    v => Truthy(v)
  }

  /** The five fields, in order, as read from the record. */
  function Fields(address: map<string, Value>): (r: seq<Value>)
    ensures |r| == 5
    ensures forall i :: 0 <= i < 5 ==> r[i] == Prop(Obj(address), AddressKeys[i])
  {
    seq(5, i requires 0 <= i < 5 => Prop(Obj(address), AddressKeys[i]))
  }

  /** `parts.join(sep)` for parts that are neither null nor undefined. */
  function Join(parts: seq<Value>, sep: string): string
    decreases |parts|
  {
    if parts == [] then ""
    else if |parts| == 1 then ToText(parts[0])
    else ToText(parts[0]) + sep + Join(parts[1..], sep)
  }

  /** View mode's text; `None` for the dash shown when no field is set. */
  function ViewText(address: map<string, Value>): (r: Option<string>)
    ensures r.None? <==> forall i :: 0 <= i < 5 ==> !Truthy(Fields(address)[i])
  {
    var parts := Select(Fields(address), IsTruthy());
    SelectEmpty(Fields(address), IsTruthy());
    if parts == [] then None else Some(Join(parts, ", "))
  }

  /** A fully filled address reads `street, city, state, zipCode, country`. */
  lemma ViewTextFull(street: string, city: string, state: string, zipCode: string, country: string)
    requires street != "" && city != "" && state != "" && zipCode != "" && country != ""
    ensures ViewText(map["street" := Str(street), "city" := Str(city), "state" := Str(state),
                         "zipCode" := Str(zipCode), "country" := Str(country)])
      == Some(street + ", " + city + ", " + state + ", " + zipCode + ", " + country)
  {
    var address := map["street" := Str(street), "city" := Str(city), "state" := Str(state),
                        "zipCode" := Str(zipCode), "country" := Str(country)];
    var p := [Str(street), Str(city), Str(state), Str(zipCode), Str(country)];
    FullFields(street, city, state, zipCode, country);
    SelectAll(p, IsTruthy());
    JoinFive(street, city, state, zipCode, country);
  }

  /** The fields of a record holding the five texts. */
  lemma FullFields(street: string, city: string, state: string, zipCode: string, country: string)
    ensures Fields(map["street" := Str(street), "city" := Str(city), "state" := Str(state),
                       "zipCode" := Str(zipCode), "country" := Str(country)])
      == [Str(street), Str(city), Str(state), Str(zipCode), Str(country)]
  {
  }

  /** Five texts joined with `", "`. */
  lemma JoinFive(street: string, city: string, state: string, zipCode: string, country: string)
    ensures Join([Str(street), Str(city), Str(state), Str(zipCode), Str(country)], ", ")
      == street + ", " + city + ", " + state + ", " + zipCode + ", " + country
  {
    var p := [Str(street), Str(city), Str(state), Str(zipCode), Str(country)];
    var sep := ", ";
    assert Join(p[4..], sep) == country;
    assert Join(p[3..], sep) == zipCode + sep + country by {
      assert p[3..][1..] == p[4..];
    }
    assert Join(p[2..], sep) == state + sep + zipCode + sep + country by {
      assert p[2..][1..] == p[3..];
    }
    assert Join(p[1..], sep) == city + sep + state + sep + zipCode + sep + country by {
      assert p[1..][1..] == p[2..];
    }
  }

  /** Two lists that agree on which elements are truthy, and on those elements, keep the same truthy elements. */
  lemma {:induction false} SelectTruthyAgree(s: seq<Value>, t: seq<Value>)
    requires |s| == |t|
    requires forall i :: 0 <= i < |s| ==> (Truthy(s[i]) <==> Truthy(t[i])) && (Truthy(s[i]) ==> s[i] == t[i])
    ensures Select(s, IsTruthy()) == Select(t, IsTruthy())
    decreases |s|
  {
    if s != [] {
      var n := |s| - 1;
      SelectTruthyAgree(s[..n], t[..n]);
    }
  }

  /**
   * A blank field reads like a missing one: whatever falsy value a field
   * holds (`''`, `null`, `undefined`, `0`, ...), the view text is the one
   * of the record without that field.
   */
  lemma ViewTextBlankIsAbsent(address: map<string, Value>, k: string, blank: Value)
    requires !Truthy(blank)
    ensures ViewText(address[k := blank]) == ViewText(address - {k})
  {
    SelectTruthyAgree(Fields(address[k := blank]), Fields(address - {k}));
  }

  /** Only one list element is truthy: the truthy elements are that one. */
  lemma {:induction false} SelectOnlyTruthy(s: seq<Value>, k: nat)
    requires k < |s| && Truthy(s[k])
    requires forall i :: 0 <= i < |s| && i != k ==> !Truthy(s[i])
    ensures Select(s, IsTruthy()) == [s[k]]
    decreases |s|
  {
    var n := |s| - 1;
    if k < n {
      SelectOnlyTruthy(s[..n], k);
    } else {
      SelectEmpty(s[..n], IsTruthy());
    }
  }

  /** With a single field filled in, view mode shows exactly that field's text, with no separator. */
  lemma ViewTextSingle(k: nat, v: string)
    requires k < 5 && v != ""
    ensures ViewText(map[AddressKeys[k] := Str(v)]) == Some(v)
  {
    var address := map[AddressKeys[k] := Str(v)];
    assert forall i :: 0 <= i < 5 && i != k ==> AddressKeys[i] != AddressKeys[k];
    SelectOnlyTruthy(Fields(address), k);
  }
}
