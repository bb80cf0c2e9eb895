/**
 * The JavaScript values the form engine stores in records, layouts and
 * option lists, with the language rules it relies on: truthiness, `||`,
 * property reads, array growth on write and string coercion.
 */
module JsValues {
  import opened Wrappers
  import opened JsText

  /** A JSON-like JavaScript value. NaN is not represented. */
  datatype Value =
    | Undefined
    | Null
    | Bool(b: bool)
    | Num(n: real)
    | Str(s: string)
    | Arr(items: seq<Value>)
    | Obj(fields: map<string, Value>)

  /** JavaScript truthiness. */
  predicate Truthy(v: Value) {
    match v
    case Undefined => false
    case Null => false
    case Bool(b) => b
    case Num(n) => n != 0.0
    case Str(s) => s != ""
    case Arr(_) => true
    case Obj(_) => true
  }

  /** `v === null || v === undefined` */
  predicate IsNullish(v: Value) { v.Undefined? || v.Null? }

  /** `v !== undefined && v !== null && v !== ''`: a filled-in form value. */
  predicate Filled(v: Value) { !IsNullish(v) && v != Str("") }

  /** `a || b`: the first operand when it is truthy, otherwise the second. */
  function Or(a: Value, b: Value): (r: Value)
    ensures r == a || r == b
    ensures Truthy(r) <==> Truthy(a) || Truthy(b)
  {
    if Truthy(a) then a else b
  }

  /** A string property that may be absent, as a value. */
  function OptStr(o: Option<string>): (v: Value)
    ensures o.None? <==> v.Undefined?
  {
    match o
    case None => Undefined
    case Some(s) => Str(s)
  }

  /** Truthiness of a string property that may be absent. */
  predicate Present(o: Option<string>) { o.Some? && o.value != "" }

  /** `a || b` on two string properties. */
  function OrStr(a: Option<string>, b: Option<string>): (r: Option<string>)
    ensures r == a || r == b
    ensures Present(r) <==> Present(a) || Present(b)
  {
    if Present(a) then a else b
  }

  /** `o === s` for a string property that may be absent. */
  predicate Is(o: Option<string>, s: string) { o == Some(s) }

  /** `keys` is `Object.keys(m)`: every key of `m` exactly once, in some order. */
  ghost predicate KeyOrder<V>(keys: seq<string>, m: map<string, V>) {
    (forall i, j :: 0 <= i < j < |keys| ==> keys[i] != keys[j])
    && (forall k :: k in m <==> k in keys)
  }

  /** `v[key]` for a property that is not inherited. */
  function Prop(v: Value, key: string): Value {
    match v
    case Obj(m) => if key in m then m[key] else Undefined
    case Arr(items) =>
      (match ParseIndex(key)
       case Some(k) => if k < |items| then items[k] else Undefined
       case None => if key == "length" then Num(|items| as real) else Undefined)
    case Str(s) =>
      (match ParseIndex(key)
       case Some(k) => if k < |s| then Str([s[k]]) else Undefined
       case None => if key == "length" then Num(|s| as real) else Undefined)
    case _ => Undefined
  }

  /** `v[i]` for a numeric index. */
  function Index(v: Value, i: nat): Value {
    Prop(v, NatToString(i))
  }

  lemma IndexArr(items: seq<Value>, i: nat)
    ensures Index(Arr(items), i) == if i < |items| then items[i] else Undefined
  {
    ParseIndexOfNatToString(i);
  }

  /**
   * `a[i] = x` on an array: past the end the array grows to length `i + 1`,
   * the holes reading as `undefined`.
   */
  function SetIndex(items: seq<Value>, i: nat, x: Value): (r: seq<Value>)
    ensures |r| == if i < |items| then |items| else i + 1
    ensures r[i] == x
    ensures forall k :: 0 <= k < |items| && k != i ==> r[k] == items[k]
    ensures forall k :: |items| <= k < |r| && k != i ==> r[k] == Undefined
  {
    if i < |items| then items[i := x]
    else items + seq(i - |items|, _ => Undefined) + [x]
  }

  /** `String(v)`. */
  function ToText(v: Value): string {
    match v
    case Undefined => "undefined"
    case Null => "null"
    case Bool(b) => if b then "true" else "false"
    case Num(n) => RealToString(n)
    case Str(s) => s
    case Arr(items) => JoinText(items)
    case Obj(_) => "[object Object]"
  }

  /** `items.join(",")`, where null and undefined elements print as "". */
  function JoinText(items: seq<Value>): string
    decreases items
  {
    if items == [] then ""
    else
      var last := items[|items| - 1];
      var text := if IsNullish(last) then "" else ToText(last);
      if |items| == 1 then text else JoinText(items[..|items| - 1]) + "," + text
  }
}
