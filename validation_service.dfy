/**
 * Whole-form validation: the mandatory pre-check followed by a full check
 * of every direct attribute of every section, merged into one error map.
 */
module ValidationService {
  import opened Wrappers
  import opened JsValues
  import opened Layout
  import opened KeyedFolds
  import opened AttributeUtils

  /** The `{ isValid, errors }` object `validateForm` returns. */
  datatype FormValidation = FormValidation(isValid: bool, errors: map<string, seq<ValidationError>>)

  /** The map `validateMandatoryFields` returns, which `validateForm` then extends. */
  function ValidateMandatoryResult(sections: seq<Section>, formData: map<string, Value>,
                                   parseFloat: string -> Option<real>, urlValid: string -> bool): map<string, seq<ValidationError>>
  {
    Put(map[], FailurePairs(sections, RecordValidator(formData, parseFloat, urlValid), MandatoryOnly, AttributeKey))
  }

  /** The full check looks at every attribute. */
  predicate AnyAttribute(a: Attribute) { true }

  /**
   * `attribute.attributeId || attribute.id` used as a property key: an
   * absent result becomes the key "undefined".
   */
  function FormKey(a: Attribute): string {
    match OrStr(a.attributeId, a.id)
    case Some(k) => k
    case None => "undefined"
  }

  /** The error map `validateForm` builds: the mandatory map, then every failing attribute under `FormKey`. */
  function FormErrors(sections: seq<Section>, formData: map<string, Value>,
                      parseFloat: string -> Option<real>, urlValid: string -> bool): map<string, seq<ValidationError>>
  {
    var validate := RecordValidator(formData, parseFloat, urlValid);
    Put(Put(map[], FailurePairs(sections, validate, MandatoryOnly, AttributeKey)),
        FailurePairs(sections, validate, AnyAttribute, FormKey))
  }

  /**
   * `validateForm(sections, formData)`: the mandatory map is extended in
   * place, one entry per failing direct attribute; the form is valid iff
   * no key was stored.
   */
  method ValidateForm(sections: seq<Section>, formData: map<string, Value>,
                      parseFloat: string -> Option<real>, urlValid: string -> bool)
    returns (r: FormValidation)
    ensures r.errors == FormErrors(sections, formData, parseFloat, urlValid)
    ensures r.isValid <==> r.errors == map[]
  {
    ghost var validate := RecordValidator(formData, parseFloat, urlValid);
    var errors := ValidateMandatoryFields(sections, formData, parseFloat, urlValid);
    ghost var mandatory := errors;
    var i := 0;
    while i < |sections|
      invariant 0 <= i <= |sections|
      invariant errors == Put(mandatory, FailurePairs(sections[..i], validate, AnyAttribute, FormKey))
    {
      var attrs := sections[i].attributes;
      ghost var before := errors;
      var j := 0;
      while j < |attrs|
        invariant 0 <= j <= |attrs|
        invariant errors == Put(before, FailurePairsOf(attrs[..j], validate, AnyAttribute, FormKey))
      {
        var a := attrs[j];
        FailurePairsOfSnoc(before, attrs, j, validate, AnyAttribute, FormKey);
        var errs := ValidateInRecord(a, formData, parseFloat, urlValid);
        if |errs| > 0 {
          errors := errors[FormKey(a) := errs];
        }
        j := j + 1;
      }
      assert attrs[..|attrs|] == attrs;
      assert sections[..i + 1][..i] == sections[..i];
      PutAppend(mandatory, FailurePairs(sections[..i], validate, AnyAttribute, FormKey), FailurePairsOf(attrs, validate, AnyAttribute, FormKey));
      i := i + 1;
    }
    assert sections[..|sections|] == sections;
    assert |errors| == 0 <==> errors == map[];
    r := FormValidation(|errors| == 0, errors);
  }

  /** `hasErrors(result)` */
  predicate HasErrors(v: FormValidation) { !v.isValid }

  /** `getErrorMessage(attributeId, result)`: the first message stored under the id, `None` for null. */
  function GetErrorMessage(attributeId: string, v: FormValidation): (r: Option<string>)
    ensures r.Some? ==> attributeId in v.errors && |v.errors[attributeId]| > 0
  {
    if attributeId in v.errors && |v.errors[attributeId]| > 0 then Some(Message(v.errors[attributeId][0])) else None
  }

  /** Some failing direct attribute of the given sections. */
  predicate SomeFailure(sections: seq<Section>, validate: Validator) {
    exists i, j :: 0 <= i < |sections| && 0 <= j < |sections[i].attributes| && |validate(sections[i].attributes[j])| > 0
  }

  /** A pair list built from failures is empty iff no looked-at attribute fails. */
  lemma FailurePairsEmpty(sections: seq<Section>, validate: Validator, keep: Filter, key: KeyOf)
    ensures FailurePairs(sections, validate, keep, key) == [] <==>
      !exists i, j :: 0 <= i < |sections| && 0 <= j < |sections[i].attributes|
        && keep(sections[i].attributes[j]) && |validate(sections[i].attributes[j])| > 0
  {
    var ps := FailurePairs(sections, validate, keep, key);
    if ps != [] {
      FailurePairsMember(sections, validate, keep, key, ps[0].0, ps[0].1);
    }
    if exists i, j :: 0 <= i < |sections| && 0 <= j < |sections[i].attributes| && keep(sections[i].attributes[j]) && |validate(sections[i].attributes[j])| > 0 {
      var i, j :| 0 <= i < |sections| && 0 <= j < |sections[i].attributes| && keep(sections[i].attributes[j]) && |validate(sections[i].attributes[j])| > 0;
      var a := sections[i].attributes[j];
      FailurePairsMember(sections, validate, keep, key, key(a), validate(a));
    }
  }

  /**
   * The form is valid iff no direct attribute of any section fails the
   * full check; the mandatory pre-check cannot fail on its own, because
   * every attribute it looks at is looked at again.
   */
  lemma ValidIffNoFailure(sections: seq<Section>, formData: map<string, Value>,
                          parseFloat: string -> Option<real>, urlValid: string -> bool)
    ensures FormErrors(sections, formData, parseFloat, urlValid) == map[]
      <==> !SomeFailure(sections, RecordValidator(formData, parseFloat, urlValid))
  {
    var validate := RecordValidator(formData, parseFloat, urlValid);
    var mp := FailurePairs(sections, validate, MandatoryOnly, AttributeKey);
    var fp := FailurePairs(sections, validate, AnyAttribute, FormKey);
    FailurePairsEmpty(sections, validate, MandatoryOnly, AttributeKey);
    FailurePairsEmpty(sections, validate, AnyAttribute, FormKey);
    if fp != [] {
      PutLookup(Put(map[], mp), fp, fp[0].0);
    } else if mp != [] {
      assert false;
    }
  }

  /**
   * Where the full check stored an entry it replaces the pre-check's: the
   * list under a key is that of the last failing attribute with that key;
   * a pre-check entry survives only under a key the full check never used.
   */
  lemma FormErrorsLookup(sections: seq<Section>, formData: map<string, Value>,
                         parseFloat: string -> Option<real>, urlValid: string -> bool, k: string)
    ensures k in KeysOf(FailurePairs(sections, RecordValidator(formData, parseFloat, urlValid), AnyAttribute, FormKey))
      ==> (k in FormErrors(sections, formData, parseFloat, urlValid)
           && FormErrors(sections, formData, parseFloat, urlValid)[k]
              == LastFor(FailurePairs(sections, RecordValidator(formData, parseFloat, urlValid), AnyAttribute, FormKey), k))
    ensures k !in KeysOf(FailurePairs(sections, RecordValidator(formData, parseFloat, urlValid), AnyAttribute, FormKey))
      ==> (k in FormErrors(sections, formData, parseFloat, urlValid) <==> k in ValidateMandatoryResult(sections, formData, parseFloat, urlValid))
    ensures k !in KeysOf(FailurePairs(sections, RecordValidator(formData, parseFloat, urlValid), AnyAttribute, FormKey))
        && k in FormErrors(sections, formData, parseFloat, urlValid)
      ==> FormErrors(sections, formData, parseFloat, urlValid)[k] == ValidateMandatoryResult(sections, formData, parseFloat, urlValid)[k]
  {
    var validate := RecordValidator(formData, parseFloat, urlValid);
    var mp := FailurePairs(sections, validate, MandatoryOnly, AttributeKey);
    var fp := FailurePairs(sections, validate, AnyAttribute, FormKey);
    PutLookup(Put(map[], mp), fp, k);
  }

  /** Every list in the merged map is non-empty. */
  lemma FormErrorsNonEmpty(sections: seq<Section>, formData: map<string, Value>,
                           parseFloat: string -> Option<real>, urlValid: string -> bool, k: string)
    requires k in FormErrors(sections, formData, parseFloat, urlValid)
    ensures |FormErrors(sections, formData, parseFloat, urlValid)[k]| > 0
  {
    var validate := RecordValidator(formData, parseFloat, urlValid);
    var mp := FailurePairs(sections, validate, MandatoryOnly, AttributeKey);
    var fp := FailurePairs(sections, validate, AnyAttribute, FormKey);
    PutLookup(Put(map[], mp), fp, k);
    PutLookup(map[], mp, k);
    if k in KeysOf(fp) {
      FailurePairsMember(sections, validate, AnyAttribute, FormKey, k, LastFor(fp, k));
    } else {
      FailurePairsMember(sections, validate, MandatoryOnly, AttributeKey, k, LastFor(mp, k));
    }
  }

  /** On a validation result, an id has a message iff it has an entry, and `hasErrors` iff some attribute fails. */
  lemma ResultQueries(sections: seq<Section>, formData: map<string, Value>,
                      parseFloat: string -> Option<real>, urlValid: string -> bool, k: string)
    ensures var errors := FormErrors(sections, formData, parseFloat, urlValid);
      var v := FormValidation(errors == map[], errors);
      && (GetErrorMessage(k, v).Some? <==> k in errors)
      && (k in errors ==> GetErrorMessage(k, v) == Some(Message(errors[k][0])))
      && (HasErrors(v) <==> SomeFailure(sections, RecordValidator(formData, parseFloat, urlValid)))
  {
    if k in FormErrors(sections, formData, parseFloat, urlValid) {
      FormErrorsNonEmpty(sections, formData, parseFloat, urlValid, k);
    }
    ValidIffNoFailure(sections, formData, parseFloat, urlValid);
  }

  // ---------------------------------------------------------------------
  // The two passes file an id-less attribute under different keys.

  /** A mandatory attribute with neither `attributeId` nor `id`. */
  const Unnamed := BlankAttribute.(isMandatory := Bool(true), tagName := Some("x"))

  /**
   * As written, a blank mandatory attribute without ids is reported twice:
   * under "" by the pre-check and under "undefined" by the full check, so
   * the merged map is not the full check's map.
   */
  lemma UnnamedReportedTwice(parseFloat: string -> Option<real>, urlValid: string -> bool)
    ensures var sections := [BlankSection.(attributes := [Unnamed])];
      var errors := FormErrors(sections, map[], parseFloat, urlValid);
      && "" in errors && "undefined" in errors
      && errors != Put(map[], FailurePairs(sections, RecordValidator(map[], parseFloat, urlValid), AnyAttribute, FormKey))
  {
    var sections := [BlankSection.(attributes := [Unnamed])];
    var validate := RecordValidator(map[], parseFloat, urlValid);
    var errs := [Required("")];
    var mp := [("", errs)];
    var fp := [("undefined", errs)];
    UnnamedPairs(parseFloat, urlValid);
    assert [("", errs)][..0] == [] && [("undefined", errs)][..0] == [];
    assert FormErrors(sections, map[], parseFloat, urlValid) == Put(Put(map[], mp), fp);
    assert Put(map[], mp) == map["" := errs];
    assert Put(map["" := errs], fp) == map["" := errs, "undefined" := errs];
    assert Put(map[], fp) == map["undefined" := errs];
  }

  /** What each pass finds in the form holding only `Unnamed`. */
  lemma UnnamedPairs(parseFloat: string -> Option<real>, urlValid: string -> bool)
    ensures var sections := [BlankSection.(attributes := [Unnamed])];
      var validate := RecordValidator(map[], parseFloat, urlValid);
      FailurePairs(sections, validate, AnyAttribute, FormKey) == [("undefined", [Required("")])]
      && FailurePairs(sections, validate, MandatoryOnly, AttributeKey) == [("", [Required("")])]
  {
    var sections := [BlankSection.(attributes := [Unnamed])];
    var validate := RecordValidator(map[], parseFloat, urlValid);
    var errs := [Required("")];
    assert GetAttributeValue(Some(Unnamed), Some(map[]), None) == Undefined;
    assert validate(Unnamed) == errs;
    var mp := [("", errs)];
    var fp := [("undefined", errs)];
    assert sections[..0] == [] && [Unnamed][..0] == [] && mp[..0] == [] && fp[..0] == [];
    assert FormKey(Unnamed) == "undefined" && AttributeKey(Unnamed) == "";
    assert AnyAttribute(Unnamed) && MandatoryOnly(Unnamed);
    assert FailurePairsOf([Unnamed], validate, AnyAttribute, FormKey) == fp;
    assert FailurePairsOf([Unnamed], validate, MandatoryOnly, AttributeKey) == mp;
    assert FailurePairs(sections, validate, AnyAttribute, FormKey) == fp;
    assert FailurePairs(sections, validate, MandatoryOnly, AttributeKey) == mp;
  }

  /** The error map when both passes key by `getAttributeId`. */
  function FormErrorsById(sections: seq<Section>, formData: map<string, Value>,
                          parseFloat: string -> Option<real>, urlValid: string -> bool): map<string, seq<ValidationError>>
  {
    var validate := RecordValidator(formData, parseFloat, urlValid);
    Put(Put(map[], FailurePairs(sections, validate, MandatoryOnly, AttributeKey)),
        FailurePairs(sections, validate, AnyAttribute, AttributeKey))
  }

  /**
   * Keyed consistently, the pre-check is subsumed: the merged map is the
   * full check's map, so every failing attribute appears under one key.
   */
  lemma FormErrorsByIdIsFullCheck(sections: seq<Section>, formData: map<string, Value>,
                                  parseFloat: string -> Option<real>, urlValid: string -> bool)
    ensures FormErrorsById(sections, formData, parseFloat, urlValid)
      == Put(map[], FailurePairs(sections, RecordValidator(formData, parseFloat, urlValid), AnyAttribute, AttributeKey))
  {
    var validate := RecordValidator(formData, parseFloat, urlValid);
    var mp := FailurePairs(sections, validate, MandatoryOnly, AttributeKey);
    var fp := FailurePairs(sections, validate, AnyAttribute, AttributeKey);
    var lhs := FormErrorsById(sections, formData, parseFloat, urlValid);
    var rhs := Put(map[], fp);
    forall k
      ensures k in lhs <==> k in rhs
      ensures k in lhs ==> lhs[k] == rhs[k]
    {
      PutLookup(Put(map[], mp), fp, k);
      PutLookup(map[], mp, k);
      PutLookup(map[], fp, k);
      if k in KeysOf(mp) {
        var e := LastFor(mp, k);
        FailurePairsMember(sections, validate, MandatoryOnly, AttributeKey, k, e);
        FailurePairsMember(sections, validate, AnyAttribute, AttributeKey, k, e);
      }
    }
  }
}
