/**
 * JavaScript values as the source receives them from `JSON.parse` or a request
 * body, with the operations the source applies to "unknown" data: truthiness,
 * `typeof`, property access (which throws on `null` and `undefined`), `?.`,
 * `??` and template-literal rendering.
 */
module JsValues {
  import opened Common
  import Text

  /** Numbers are integers here: no field the model inspects carries a fraction. */
  datatype Value =
    | Undefined
    | Null
    | Bool(b: bool)
    | Num(n: int)
    | Str(s: string)
    | Arr(items: seq<Value>)
    | Obj(fields: map<string, Value>)

  /** The value is not one of `undefined`, `null`, `false`, `0`, `''`. */
  predicate Truthy(v: Value) {
    match v
    case Undefined => false
    case Null => false
    case Bool(b) => b
    case Num(n) => n != 0
    case Str(s) => s != ""
    case Arr(_) => true
    case Obj(_) => true
  }

  /** `typeof v === 'object'`, which holds for `null` and arrays as well. */
  predicate IsObjectType(v: Value) {
    v.Null? || v.Arr? || v.Obj?
  }

  /** `v[key]`: `None` when it throws a TypeError (`v` is `null` or `undefined`). */
  function Prop(v: Value, key: string): (r: Option<Value>)
    ensures r.None? <==> v.Undefined? || v.Null?
    ensures r.Some? && r.value != Undefined ==> v.Obj? && key in v.fields && r.value == v.fields[key]
  {
    match v
    case Undefined => None
    case Null => None
    case Obj(fields) => Some(Get(fields, key))
    case _ => Some(Undefined)
  }

  /** `o[key]` on an object: a missing key reads as `undefined`. */
  function Get(fields: map<string, Value>, key: string): Value {
    if key in fields then fields[key] else Undefined
  }

  /** `v?.key`: never throws; `undefined` when `v` is `null` or `undefined`. */
  function OptionalProp(v: Value, key: string): Value {
    match Prop(v, key)
    case Some(r) => r
    case None => Undefined
  }

  /** `v ?? fallback`. */
  function Nullish(v: Value, fallback: Value): (r: Value)
    ensures r == v || r == fallback
    ensures (!r.Undefined? && !r.Null?) || r == fallback
  {
    if v.Undefined? || v.Null? then fallback else v
  }

  /** `typeof v === 'string' ? v : undefined`. */
  function AsString(v: Value): (r: Option<string>)
    ensures r.Some? <==> v.Str?
    ensures r.Some? ==> v == Str(r.value)
  {
    if v.Str? then Some(v.s) else None
  }

  /** `${v}` in a template literal. */
  function Render(v: Value): string
    decreases v, 1
  {
    match v
    case Undefined => "undefined"
    case Null => "null"
    case Bool(b) => if b then "true" else "false"
    case Num(n) => Text.IntToString(n)
    case Str(s) => s
    case Arr(items) => RenderItems(v, items)
    case Obj(_) => "[object Object]"
  }

  /** `Array.prototype.join(',')`, which writes `null` and `undefined` as empty. */
  function RenderItems(whole: Value, items: seq<Value>): string
    requires forall x :: x in items ==> x < whole
    decreases whole, 0, |items|
  {
    if items == [] then ""
    else
      assert items[0] in items;
      assert forall x :: x in items[1..] ==> x in items;
      var first := if items[0].Undefined? || items[0].Null? then "" else Render(items[0]);
      if |items| == 1 then first else first + "," + RenderItems(whole, items[1..])
  }

  /** A number renders as its decimal digits. */
  lemma RenderNat(n: nat)
    ensures Render(Num(n)) == Text.NatToString(n)
    ensures Text.ParseInt(Render(Num(n))) == Some(n)
  {
    Text.ParseIntOfNatToString(n);
  }
}
