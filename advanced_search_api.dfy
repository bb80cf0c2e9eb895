/**
 * The request side of an advanced search: the criteria become flat query
 * parameters `criteria[i].attributeId`, `criteria[i].operator` and
 * `criteria[i].value`; the reply says whether more records follow.
 */
module AdvancedSearchApi {
  import opened Wrappers
  import opened JsValues
  import opened JsText
  import opened BaseApi

  /** The three properties of a criterion that become parameters. */
  const Fields: seq<string> := ["attributeId", "operator", "value"]

  /** `` `criteria[${index}].${field}` `` */
  function ParamKey(index: nat, field: string): string {
    "criteria[" + (NatToString(index) + ("]." + field))
  }

  /** `criterion[field] || ''` */
  function ParamValue(criterion: Value, field: string): (r: Value)
    ensures Truthy(r) ==> r == Prop(criterion, field)
    ensures !Truthy(Prop(criterion, field)) ==> r == Str("")
  {
    Or(Prop(criterion, field), Str(""))
  }

  /** The parameters the `forEach` has written after the criteria `items`. */
  function ParamsOf(items: seq<Value>): map<string, Value>
    decreases |items|
  {
    if items == [] then map[]
    else
      var n := |items| - 1;
      var c := items[n];
      ParamsOf(items[..n])[ParamKey(n, "attributeId") := ParamValue(c, "attributeId")]
                          [ParamKey(n, "operator") := ParamValue(c, "operator")]
                          [ParamKey(n, "value") := ParamValue(c, "value")]
  }

  /** Some criterion is `null` or `undefined`, so reading its `attributeId` throws. */
  predicate HasNullish(items: seq<Value>) {
    exists j :: 0 <= j < |items| && IsNullish(items[j])
  }

  /**
   * `buildSearchParams(searchCriteria)`; `None` stands for the `TypeError`
   * of a nullish argument or a nullish criterion.
   */
  function SearchParams(searchCriteria: Value): Option<map<string, Value>> {
    if IsNullish(searchCriteria) then None
    else
      var criteria := Prop(searchCriteria, "criteria");
      if Truthy(criteria) && criteria.Arr? then
        if HasNullish(criteria.items) then None else Some(ParamsOf(criteria.items))
      else Some(map[])
  }

  /** `buildSearchParams(searchCriteria)`, filling `params` criterion by criterion. */
  method BuildSearchParams(searchCriteria: Value) returns (params: Option<map<string, Value>>)
    ensures params == SearchParams(searchCriteria)
  {
    if IsNullish(searchCriteria) {
      return None;
    }
    var p: map<string, Value> := map[];
    var criteria := Prop(searchCriteria, "criteria");
    if Truthy(criteria) && criteria.Arr? {
      var items := criteria.items;
      var i := 0;
      while i < |items|
        invariant 0 <= i <= |items|
        invariant p == ParamsOf(items[..i])
        invariant forall j :: 0 <= j < i ==> !IsNullish(items[j])
      {
        var criterion := items[i];
        if IsNullish(criterion) {
          return None;
        }
        assert items[..i + 1][..i] == items[..i];
        p := p[ParamKey(i, "attributeId") := Or(Prop(criterion, "attributeId"), Str(""))];
        p := p[ParamKey(i, "operator") := Or(Prop(criterion, "operator"), Str(""))];
        p := p[ParamKey(i, "value") := Or(Prop(criterion, "value"), Str(""))];
        i := i + 1;
      }
      assert items[..|items|] == items;
    }
    return Some(p);
  }

  /** Two digit strings each followed by `]` agree when the whole strings do. */
  lemma DigitsBeforeBracket(a: string, b: string, x: string, y: string)
    requires AllDigits(a) && AllDigits(b)
    requires a + ("]" + x) == b + ("]" + y)
    ensures a == b && x == y
  {
    var s := a + ("]" + x);
    var t := b + ("]" + y);
    BracketAt(a, x);
    BracketAt(b, y);
    if |a| < |b| {
      assert false;
    } else if |b| < |a| {
      assert false;
    }
    assert a == s[..|a|] && b == t[..|b|];
    assert x == s[|a| + 1..] && y == t[|b| + 1..];
  }

  /** In digits followed by `]`, the first `]` stands right after the digits. */
  lemma BracketAt(a: string, x: string)
    requires AllDigits(a)
    ensures var s := a + ("]" + x);
      s[|a|] == ']' && forall i :: 0 <= i < |a| ==> s[i] != ']'
  {
    var s := a + ("]" + x);
    forall i | 0 <= i < |a| ensures s[i] != ']' {
      assert s[i] == a[i];
    }
  }

  /** Different criteria or different fields never share a parameter name. */
  lemma ParamKeyInjective(i: nat, j: nat, f: string, g: string)
    requires ParamKey(i, f) == ParamKey(j, g)
    ensures i == j && f == g
  {
    var p := "criteria[";
    assert ParamKey(i, f)[|p|..] == NatToString(i) + ("]" + ("." + f));
    assert ParamKey(j, g)[|p|..] == NatToString(j) + ("]" + ("." + g));
    DigitsBeforeBracket(NatToString(i), NatToString(j), "." + f, "." + g);
    assert f == ("." + f)[1..] && g == ("." + g)[1..];
    NatToStringInjective(i, j);
  }

  /** `k` is one of the three parameter names of criterion `i`. */
  predicate KeyOf(k: string, i: nat) {
    k == ParamKey(i, "attributeId") || k == ParamKey(i, "operator") || k == ParamKey(i, "value")
  }

  /** `k` is a parameter name of one of the first `n` criteria. */
  ghost predicate Named(k: string, n: nat) {
    exists i :: 0 <= i < n && KeyOf(k, i)
  }

  /** The names of `n + 1` criteria are those of the first `n` and those of criterion `n`. */
  lemma NamedStep(k: string, n: nat)
    ensures Named(k, n + 1) <==> Named(k, n) || KeyOf(k, n)
  {
    if Named(k, n + 1) && !KeyOf(k, n) {
      var i :| 0 <= i < n + 1 && KeyOf(k, i);
      assert 0 <= i < n && KeyOf(k, i);
    }
    if Named(k, n) {
      var i :| 0 <= i < n && KeyOf(k, i);
      assert 0 <= i < n + 1 && KeyOf(k, i);
    }
  }

  /**
   * Every parameter belongs to one criterion and one of the three fields:
   * a key is set iff it names some criterion's `attributeId`, `operator`
   * or `value`.
   */
  lemma {:induction false} ParamsKeys(items: seq<Value>, k: string)
    ensures k in ParamsOf(items) <==> exists i :: 0 <= i < |items| && KeyOf(k, i)
    decreases |items|
  {
    if items != [] {
      var n := |items| - 1;
      ParamsKeys(items[..n], k);
      ParamsStep(items, k);
      NamedStep(k, n);
      assert Named(k, |items|) <==> k in ParamsOf(items);
    }
  }

  /** The last criterion adds its three names to those before it. */
  lemma ParamsStep(items: seq<Value>, k: string)
    requires items != []
    ensures k in ParamsOf(items) <==> k in ParamsOf(items[..|items| - 1]) || KeyOf(k, |items| - 1)
  {
    var n := |items| - 1;
    ParamsUnfold(items);
    ThreeWrites(ParamsOf(items[..n]), ParamKey(n, "attributeId"), ParamKey(n, "operator"), ParamKey(n, "value"),
      ParamValue(items[n], "attributeId"), ParamValue(items[n], "operator"), ParamValue(items[n], "value"), k);
  }

  /** `ParamsOf` one criterion at a time. */
  lemma ParamsUnfold(items: seq<Value>)
    requires items != []
    ensures var n := |items| - 1;
      ParamsOf(items) == ParamsOf(items[..n])[ParamKey(n, "attributeId") := ParamValue(items[n], "attributeId")]
                                             [ParamKey(n, "operator") := ParamValue(items[n], "operator")]
                                             [ParamKey(n, "value") := ParamValue(items[n], "value")]
  {
  }

  /** A lookup after three writes finds the last write to that key, or the old entry. */
  lemma ThreeWrites(m: map<string, Value>, ka: string, kb: string, kc: string, va: Value, vb: Value, vc: Value, k: string)
    ensures var m' := m[ka := va][kb := vb][kc := vc];
      (k in m' <==> k in m || k == ka || k == kb || k == kc)
      && (k in m' ==> m'[k] == if k == kc then vc else if k == kb then vb else if k == ka then va else m[k])
  {
  }

  /** Three writes add their three keys. */
  lemma ThreeWritesKeys(m: map<string, Value>, ka: string, kb: string, kc: string, va: Value, vb: Value, vc: Value)
    ensures m[ka := va][kb := vb][kc := vc].Keys == m.Keys + {ka, kb, kc}
  {
  }

  /** Different criteria or different fields give different names. */
  lemma KeysDiffer(i: nat, j: nat, f: string, g: string)
    requires i != j || f != g
    ensures ParamKey(i, f) != ParamKey(j, g)
  {
    if ParamKey(i, f) == ParamKey(j, g) {
      ParamKeyInjective(i, j, f, g);
    }
  }

  /** Each criterion's field is sent under its own name, or `''` when it is falsy. */
  lemma {:induction false} ParamsValue(items: seq<Value>, i: nat, f: string)
    requires i < |items| && f in Fields
    ensures ParamKey(i, f) in ParamsOf(items)
    ensures ParamsOf(items)[ParamKey(i, f)] == ParamValue(items[i], f)
    decreases |items|
  {
    var n := |items| - 1;
    var k := ParamKey(i, f);
    ParamsUnfold(items);
    ThreeWrites(ParamsOf(items[..n]), ParamKey(n, "attributeId"), ParamKey(n, "operator"), ParamKey(n, "value"),
      ParamValue(items[n], "attributeId"), ParamValue(items[n], "operator"), ParamValue(items[n], "value"), k);
    if i < n {
      ParamsValue(items[..n], i, f);
      assert items[..n][i] == items[i];
      KeysDiffer(n, i, "attributeId", f);
      KeysDiffer(n, i, "operator", f);
      KeysDiffer(n, i, "value", f);
    } else if f == "attributeId" {
      KeysDiffer(n, n, "value", f);
      KeysDiffer(n, n, "operator", f);
    } else if f == "operator" {
      KeysDiffer(n, n, "value", f);
    }
  }

  /** The three names of the criterion at `n` are distinct and not among those of the criteria before it. */
  lemma FreshKeys(items: seq<Value>, n: nat)
    requires n == |items|
    ensures forall k :: KeyOf(k, n) ==> k !in ParamsOf(items)
    ensures |{ParamKey(n, "attributeId"), ParamKey(n, "operator"), ParamKey(n, "value")}| == 3
  {
    forall k | KeyOf(k, n) ensures k !in ParamsOf(items) {
      ParamsKeys(items, k);
      if k in ParamsOf(items) {
        var i :| 0 <= i < n && KeyOf(k, i);
        SameCriterion(k, i, n);
      }
    }
    if ParamKey(n, "attributeId") == ParamKey(n, "operator") {
      ParamKeyInjective(n, n, "attributeId", "operator");
    }
    if ParamKey(n, "attributeId") == ParamKey(n, "value") {
      ParamKeyInjective(n, n, "attributeId", "value");
    }
    if ParamKey(n, "operator") == ParamKey(n, "value") {
      ParamKeyInjective(n, n, "operator", "value");
    }
  }

  /** A name belongs to one criterion only. */
  lemma SameCriterion(k: string, i: nat, j: nat)
    requires KeyOf(k, i) && KeyOf(k, j)
    ensures i == j
  {
    var f := if k == ParamKey(i, "attributeId") then "attributeId" else if k == ParamKey(i, "operator") then "operator" else "value";
    var g := if k == ParamKey(j, "attributeId") then "attributeId" else if k == ParamKey(j, "operator") then "operator" else "value";
    ParamKeyInjective(i, j, f, g);
  }

  /** There are exactly three parameters per criterion. */
  lemma {:induction false} ParamsCount(items: seq<Value>)
    ensures |ParamsOf(items).Keys| == 3 * |items|
    decreases |items|
  {
    if items != [] {
      var n := |items| - 1;
      var before := ParamsOf(items[..n]).Keys;
      ParamsCount(items[..n]);
      FreshKeys(items[..n], n);
      var added := {ParamKey(n, "attributeId"), ParamKey(n, "operator"), ParamKey(n, "value")};
      assert before * added == {};
      ParamsUnfold(items);
      ThreeWritesKeys(ParamsOf(items[..n]), ParamKey(n, "attributeId"), ParamKey(n, "operator"), ParamKey(n, "value"),
        ParamValue(items[n], "attributeId"), ParamValue(items[n], "operator"), ParamValue(items[n], "value"));
    }
  }

  /**
   * Without a `criteria` array the parameters are empty; with one they
   * are defined iff no criterion is nullish, and then hold three
   * parameters per criterion.
   */
  lemma SearchParamsSpec(searchCriteria: Value)
    ensures var criteria := Prop(searchCriteria, "criteria");
      (!IsNullish(searchCriteria) && !criteria.Arr? ==> SearchParams(searchCriteria) == Some(map[]))
      && (criteria.Arr? ==>
            (SearchParams(searchCriteria).Some? <==> !HasNullish(criteria.items))
            && (SearchParams(searchCriteria).Some? ==>
                  |SearchParams(searchCriteria).value.Keys| == 3 * |criteria.items|))
  {
    var criteria := Prop(searchCriteria, "criteria");
    if criteria.Arr? {
      ParamsCount(criteria.items);
    }
  }

  // ---------------------------------------------------------------------
  // The reply

  /** `{ data, countOfRecords, hasMore }` */
  datatype SearchResult = SearchResult(data: seq<Value>, countOfRecords: Value, hasMore: bool)

  /** The result of a search that started at `startIndex` and got the reply `response`. */
  function ResultOf(startIndex: int, response: Value): SearchResult {
    var results := ExtractData(response);
    var count := Or(Prop(response, "countOfRecords"), Num(0.0));
    SearchResult(results, count, count.Num? && (startIndex + |results|) as real < count.n)
  }

  /**
   * More records follow iff the records seen so far, from `startIndex`
   * through this page, fall short of the reported count; a reply without
   * a count has none after a page that starts at or after the first
   * record.
   */
  lemma HasMoreSpec(startIndex: int, response: Value)
    ensures var r := ResultOf(startIndex, response);
      (r.hasMore ==> r.countOfRecords.Num? && ((startIndex + |r.data|) as real) < r.countOfRecords.n)
      && (r.countOfRecords.Num? && ((startIndex + |r.data|) as real) < r.countOfRecords.n ==> r.hasMore)
      && (!Truthy(Prop(response, "countOfRecords")) && startIndex >= 0 ==> !r.hasMore)
      && r.data == ExtractData(response)
  {
  }
}
