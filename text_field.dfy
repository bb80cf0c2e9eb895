/**
 * The single-line text input: every change is filtered by the field's
 * data-type rule, then case-converted, then cut to the attribute's
 * maximum length; a paste is filtered and converted and reported only
 * when that changed it.
 */
module TextField {
  import opened Wrappers
  import opened JsValues
  import opened JsText
  import opened Layout
  import opened FieldUtils

  /** `rule?.isEnabled && rule?.type`: whether a data-type or case rule applies. */
  predicate Active(rule: Option<DataTypeRule>) {
    rule.Some? && rule.value.isEnabled && rule.value.kind.Some? && rule.value.kind.value != ""
  }

  /** The data-type step of both handlers. */
  function Filter(text: string, dataTypeRule: Option<DataTypeRule>): string {
    if Active(dataTypeRule) then ValidateDataType(text, dataTypeRule.value.kind) else text
  }

  /** The case-conversion step of both handlers. */
  function Convert(text: string, caseConversion: Option<DataTypeRule>): string {
    if Active(caseConversion) then ApplyCaseConversion(text, caseConversion.value.kind) else text
  }

  /** Filter, then convert: what both handlers do before the length check. */
  function Process(text: string, dataTypeRule: Option<DataTypeRule>, caseConversion: Option<DataTypeRule>): string {
    Convert(Filter(text, dataTypeRule), caseConversion)
  }

  /** `attribute?.maxLength`, when it is truthy (present and not 0). */
  predicate HasMaxLength(attribute: Option<Attribute>) {
    attribute.Some? && attribute.value.maxLength.Some? && attribute.value.maxLength.value != 0
  }

  /** The value `handleChange` passes to `onChange` for the input text `input`. */
  function HandleChange(input: string, attribute: Option<Attribute>,
                        dataTypeRule: Option<DataTypeRule>, caseConversion: Option<DataTypeRule>): string
  {
    var text := Process(input, dataTypeRule, caseConversion);
    if HasMaxLength(attribute) && |text| > attribute.value.maxLength.value
    then SliceTo(text, attribute.value.maxLength.value)
    else text
  }

  /**
   * The length rule of a change: the emitted text is a prefix of the
   * filtered and converted text; with a positive maximum it is that text
   * cut to the maximum, with no maximum (or `0`) it is the whole text. A
   * negative maximum passes the `length >` test and `slice` then counts
   * from the end, dropping that many characters.
   */
  lemma ChangeLength(input: string, attribute: Option<Attribute>,
                     dataTypeRule: Option<DataTypeRule>, caseConversion: Option<DataTypeRule>)
    ensures var p := Process(input, dataTypeRule, caseConversion);
      var r := HandleChange(input, attribute, dataTypeRule, caseConversion);
      r == p[..|r|]
      && (!HasMaxLength(attribute) ==> r == p)
      && (HasMaxLength(attribute) && attribute.value.maxLength.value > 0 ==>
            |r| == (if |p| < attribute.value.maxLength.value then |p| else attribute.value.maxLength.value))
      && (HasMaxLength(attribute) && attribute.value.maxLength.value < 0 ==>
            |r| == (if |p| + attribute.value.maxLength.value > 0 then |p| + attribute.value.maxLength.value else 0))
  {
  }

  /**
   * The filter's guarantee survives the later steps: when the data-type
   * rule applies and names a character class, every emitted character
   * belongs to it, whatever the case conversion.
   */
  lemma ChangeKeepsRule(input: string, attribute: Option<Attribute>,
                        dataTypeRule: Option<DataTypeRule>, caseConversion: Option<DataTypeRule>, rule: CharRule)
    requires Active(dataTypeRule) && RuleOf(dataTypeRule.value.kind.value) == Some(rule)
    ensures var r := HandleChange(input, attribute, dataTypeRule, caseConversion);
      forall i :: 0 <= i < |r| ==> Allowed(rule, r[i])
  {
    var f := Filter(input, dataTypeRule);
    assert forall i :: 0 <= i < |f| ==> Allowed(rule, f[i]);
    if Active(caseConversion) {
      ConversionKeepsAllowed(f, caseConversion.value.kind, rule);
    }
    ChangeLength(input, attribute, dataTypeRule, caseConversion);
  }

  /**
   * The order of the steps matters: with the Alphabet filter and Title
   * Case, typing `_a` emits `A`; converting before filtering would have
   * emitted `a`, since `_` starts the Title Case word.
   */
  lemma FilterBeforeConversion()
    ensures var alpha := Some(DataTypeRule(true, Some("ALPHABET")));
      var title := Some(DataTypeRule(true, Some("Title Case")));
      HandleChange("_a", None, alpha, title) == "A"
      && Filter(Convert("_a", title), alpha) == "a"
  {
    var alpha := Some(DataTypeRule(true, Some("ALPHABET")));
    var title := Some(DataTypeRule(true, Some("Title Case")));
    AlphabetExample();
    TitleExample();
    assert Process("_a", alpha, title) == "A";
  }

  /** The Alphabet filter drops the `_` of `_a`. */
  lemma AlphabetExample()
    ensures Filter("_a", Some(DataTypeRule(true, Some("ALPHABET")))) == "a"
  {
    assert Keep("_", AlphabetRule) == "" by {
      assert "_"[..0] == "";
    }
    assert Keep("_a", AlphabetRule) == "a" by {
      assert "_a"[..1] == "_";
    }
  }

  /** Title Case upper-cases `a` and leaves `_a` alone, `_` being a word character. */
  lemma TitleExample()
    ensures Convert("a", Some(DataTypeRule(true, Some("Title Case")))) == "A"
    ensures Convert("_a", Some(DataTypeRule(true, Some("Title Case")))) == "_a"
  {
    assert SpaceAt("") == 0;
    assert TitleCase("a") == "A" by {
      assert "a"[1..] == "";
    }
    assert TitleCase("_a") == "_a" by {
      assert "_a"[1..] == "a";
      assert SpaceAt("a") == 1;
      assert "_a"[1..2] == "a";
      assert "_a"[2..] == "";
    }
  }

  /** Filtering and converting a second time changes nothing. */
  lemma ProcessIdempotent(text: string, dataTypeRule: Option<DataTypeRule>, caseConversion: Option<DataTypeRule>)
    ensures Process(Process(text, dataTypeRule, caseConversion), dataTypeRule, caseConversion)
      == Process(text, dataTypeRule, caseConversion)
  {
    var f := Filter(text, dataTypeRule);
    var p := Convert(f, caseConversion);
    if Active(dataTypeRule) && text != "" && RuleOf(dataTypeRule.value.kind.value).Some? {
      var rule := RuleOf(dataTypeRule.value.kind.value).value;
      if Active(caseConversion) {
        ConversionKeepsAllowed(f, caseConversion.value.kind, rule);
      }
      KeepFixed(p, rule);
      assert Filter(p, dataTypeRule) == p;
    } else {
      ValidateDataTypeIdempotent(text, if dataTypeRule.Some? then dataTypeRule.value.kind else None);
      assert Filter(f, dataTypeRule) == f;
      if Active(caseConversion) {
        ConversionIdempotent(f, caseConversion.value.kind);
      }
      assert Convert(f, caseConversion) == p;
      assert Filter(p, dataTypeRule) == p || p == f;
    }
    if Active(caseConversion) {
      ConversionIdempotent(f, caseConversion.value.kind);
    }
  }

  /** `handlePaste`: the value passed to `onChange`, or `None` when nothing is emitted. */
  function HandlePaste(pasted: string, dataTypeRule: Option<DataTypeRule>, caseConversion: Option<DataTypeRule>): (r: Option<string>)
    ensures r.Some? ==> r.value != pasted
  {
    var text := Process(pasted, dataTypeRule, caseConversion);
    if text != pasted then Some(text) else None
  }

  /**
   * A paste is reported iff filtering and converting changed it, and then
   * with the same text a change would emit when no maximum length applies;
   * the reported text, pasted again, is not reported.
   */
  lemma PasteSettles(pasted: string, attribute: Option<Attribute>,
                     dataTypeRule: Option<DataTypeRule>, caseConversion: Option<DataTypeRule>)
    ensures var r := HandlePaste(pasted, dataTypeRule, caseConversion);
      (r.None? <==> Process(pasted, dataTypeRule, caseConversion) == pasted)
      && (r.Some? && !HasMaxLength(attribute) ==> r.value == HandleChange(pasted, attribute, dataTypeRule, caseConversion))
      && (r.Some? ==> HandlePaste(r.value, dataTypeRule, caseConversion).None?)
  {
    ProcessIdempotent(pasted, dataTypeRule, caseConversion);
  }

  /** `disabled || attribute?.isDisabled === true`: only the boolean `true` disables from the attribute. */
  predicate IsDisabled(disabled: Value, attribute: Option<Attribute>) {
    Truthy(disabled) || (attribute.Some? && attribute.value.isDisabled == Bool(true))
  }

  /** `handleKeyPress` calls the key check only for an enabled rule. */
  predicate KeyPressBlocks(key: string, dataTypeRule: Option<DataTypeRule>) {
    dataTypeRule.Some? && dataTypeRule.value.isEnabled && PreventsKey(key, dataTypeRule)
  }

  /**
   * A typed character the key check lets through also passes the change
   * filter unchanged, and one it blocks the filter would remove.
   */
  lemma KeyPressAgreesWithChange(c: char, dataTypeRule: Option<DataTypeRule>)
    ensures !KeyPressBlocks([c], dataTypeRule) ==> Filter([c], dataTypeRule) == [c]
    ensures KeyPressBlocks([c], dataTypeRule) ==> Filter([c], dataTypeRule) == []
  {
    KeyPressMatchesFilter([c], dataTypeRule);
    if Active(dataTypeRule) && RuleOf(dataTypeRule.value.kind.value).Some? {
      var rule := RuleOf(dataTypeRule.value.kind.value).value;
      assert [c][..0] == [];
      assert Keep([c], rule) == if Allowed(rule, c) then [c] else [];
    }
  }
}
