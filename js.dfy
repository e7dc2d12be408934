/**
 * JavaScript values as the scrapers handle them: the result of `JSON.parse`, the loosely
 * typed objects the scrapers return, and the few operators the code applies to them
 * (truthiness, `||`, property access with and without `?.`, `String(v)`, `join`).
 */
module Js {
  import opened Options
  import opened Text

  /** A JavaScript value. Numbers are integers; objects keep their own properties in order. */
  datatype Value =
    | Undefined
    | Null
    | Bool(b: bool)
    | Num(n: int)
    | Str(s: string)
    | Arr(items: seq<Value>)
    | Obj(fields: seq<(string, Value)>)

  /** A scraped record: the keys it has and their values (`'k' in rec` is `k in rec`). */
  type Record = map<string, Value>

  /** The outcome of an expression that may throw (a `TypeError` on a nullish base). */
  datatype Eval<T> = Throws | Returns(value: T)

  /** JavaScript truthiness: `false`, `0`, `''`, `null` and `undefined` are falsy. */
  predicate Truthy(v: Value) {
    match v
    case Undefined => false
    case Null => false
    case Bool(b) => b
    case Num(n) => n != 0
    case Str(s) => s != ""
    case Arr(_) => true
    case Obj(_) => true
  }

  predicate IsNullish(v: Value) {
    v.Undefined? || v.Null?
  }

  /** `a || b` */
  function Or(a: Value, b: Value): (r: Value)
    ensures Truthy(a) ==> r == a
    ensures !Truthy(a) ==> r == b
  {
    if Truthy(a) then a else b
  }

  /** `rec.k`: the value of key `k`, `undefined` when the record lacks it. */
  function Field(rec: Record, k: string): Value {
    if k in rec then rec[k] else Undefined
  }

  /** The value bound to `k`; when `JSON.parse` meets a key twice the last binding wins. */
  function Lookup(fields: seq<(string, Value)>, k: string): Value {
    if fields == [] then Undefined
    else if fields[|fields| - 1].0 == k then fields[|fields| - 1].1
    else Lookup(fields[..|fields| - 1], k)
  }

  /** `v.k` on a value that is not `null` or `undefined`; only objects have the named
      properties the scrapers read. */
  function Get(v: Value, k: string): Value {
    if v.Obj? then Lookup(v.fields, k) else Undefined
  }

  /** `v.k`, which throws when `v` is `null` or `undefined`. */
  function Prop(v: Value, k: string): (r: Eval<Value>)
    ensures r.Throws? <==> IsNullish(v)
  {
    if IsNullish(v) then Throws else Returns(Get(v, k))
  }

  /** `v?.k` */
  function OptProp(v: Value, k: string): (r: Value)
    ensures IsNullish(v) ==> r == Undefined
    ensures !IsNullish(v) ==> r == Get(v, k)
  {
    if IsNullish(v) then Undefined else Get(v, k)
  }

  /** `a[0]` of an array. */
  function First(items: seq<Value>): Value {
    if items == [] then Undefined else items[0]
  }

  /** `String(v)`, as template literals and `join` apply it. */
  function ToStr(v: Value): string {
    match v
    case Undefined => "undefined"
    case Null => "null"
    case Bool(b) => if b then "true" else "false"
    case Num(n) => IntToString(n)
    case Str(s) => s
    case Arr(items) => JoinElements(items, ",")
    case Obj(_) => "[object Object]"
  }

  /** `items.join(sep)`: `null` and `undefined` elements become `''`. */
  function JoinElements(items: seq<Value>, sep: string): string {
    Join(seq(|items|, k requires 0 <= k < |items| =>
      if IsNullish(items[k]) then "" else ToStr(items[k])), sep)
  }

  /** `a.some(p)` for a test that may throw: stops at the first element that passes
      or throws. */
  function AnyPasses(items: seq<Value>, test: Value -> Eval<bool>): (r: Eval<bool>)
    ensures r == Returns(false) ==> forall k :: 0 <= k < |items| ==> test(items[k]) == Returns(false)
    ensures r == Returns(true) ==> exists k :: 0 <= k < |items| && test(items[k]) == Returns(true)
  {
    if items == [] then Returns(false)
    else match test(items[0])
      case Throws => Throws
      case Returns(true) => Returns(true)
      case Returns(false) =>
        var rest := AnyPasses(items[1..], test);
        assert rest == Returns(true) ==> exists k :: 0 <= k < |items| - 1 && test(items[1..][k]) == Returns(true);
        rest
  }

  /** `some` finds a passing element when nothing before it throws. */
  lemma {:induction false} AnyPassesFinds(items: seq<Value>, test: Value -> Eval<bool>, k: nat)
    requires k < |items| && test(items[k]) == Returns(true)
    requires forall j :: 0 <= j < k ==> test(items[j]).Returns?
    ensures AnyPasses(items, test) == Returns(true)
  {
    if k > 0 && test(items[0]) != Returns(true) {
      assert forall j :: 0 <= j < k - 1 ==> items[1..][j] == items[j + 1];
      AnyPassesFinds(items[1..], test, k - 1);
    }
  }

  /** `some` throws at a throwing element when every element before it fails. */
  lemma {:induction false} AnyPassesThrows(items: seq<Value>, test: Value -> Eval<bool>, k: nat)
    requires k < |items| && test(items[k]).Throws?
    requires forall j :: 0 <= j < k ==> test(items[j]) == Returns(false)
    ensures AnyPasses(items, test).Throws?
  {
    if k > 0 {
      assert forall j :: 0 <= j < k - 1 ==> items[1..][j] == items[j + 1];
      AnyPassesThrows(items[1..], test, k - 1);
    }
  }

  /** A key bound last reads as that binding; any other key reads past it. */
  lemma LookupAppend(fields: seq<(string, Value)>, k: string, v: Value, q: string)
    ensures Lookup(fields + [(k, v)], q) == if q == k then v else Lookup(fields, q)
  {
    var all := fields + [(k, v)];
    assert all[..|all| - 1] == fields;
  }
}
