/**
  JavaScript values as the question generators and the question fetcher see them
  after `JSON.parse`, with the few operators they apply: truthiness, optional
  property access, `??` and `String(v)`, including the TypeError `String(v)` throws.
  Numbers are integers.
 */
module JsValue {
  import Wrappers

  /** A JavaScript value; `Undefined` is what reading a missing property gives. */
  datatype Value =
    | Undefined
    | Null
    | Bool(b: bool)
    | Num(n: int)
    | Str(s: string)
    | Arr(items: seq<Value>)
    | Obj(fields: map<string, Value>)

  /** JavaScript truthiness: `undefined`, `null`, `false`, `0` and `""` are falsy. */
  predicate Truthy(v: Value) {
    match v
    case Undefined => false
    case Null => false
    case Bool(b) => b
    case Num(n) => n != 0
    case Str(s) => s != ""
    case Arr(_) => true
    case Obj(_) => true
  }

  /** `null` or `undefined`, the values `??` and `?.` treat as missing. */
  predicate Nullish(v: Value) {
    v.Undefined? || v.Null?
  }

  /** A list of JavaScript strings. */
  function Strs(xs: seq<string>): (r: seq<Value>)
    ensures |r| == |xs| && forall i :: 0 <= i < |xs| ==> r[i] == Str(xs[i])
  {
    seq(|xs|, i requires 0 <= i < |xs| => Str(xs[i]))
  }

  /** `v?.key`: the own property `key` of an object, `undefined` for anything else. */
  function Get(v: Value, key: string): (r: Value)
    ensures v.Obj? && key in v.fields ==> r == v.fields[key]
    ensures !(v.Obj? && key in v.fields) ==> r == Undefined
  {
    if v.Obj? && key in v.fields then v.fields[key] else Undefined
  }

  /** `v ?? fallback`. */
  function Coalesce(v: Value, fallback: Value): (r: Value)
    ensures Nullish(v) ==> r == fallback
    ensures !Nullish(v) ==> r == v
  {
    if Nullish(v) then fallback else v
  }

  /** `v || fallback`. */
  function Or(v: Value, fallback: Value): (r: Value)
    ensures Truthy(v) ==> r == v
    ensures !Truthy(v) ==> r == fallback
  {
    if Truthy(v) then v else fallback
  }

  function DigitChar(d: nat): (c: char)
    requires d < 10
    ensures '0' <= c <= '9' && c as int - '0' as int == d
  {
    ('0' as int + d) as char
  }

  /** The decimal digits of `n`, most significant first, without leading zeros. */
  function NatToString(n: nat): (s: string)
    ensures |s| >= 1
    ensures forall i :: 0 <= i < |s| ==> '0' <= s[i] <= '9'
    ensures n >= 10 ==> s[0] != '0'
  {
    if n < 10 then [DigitChar(n)] else NatToString(n / 10) + [DigitChar(n % 10)]
  }

  /** The number a string of decimal digits denotes. */
  function DigitsValue(s: string): int
    requires forall i :: 0 <= i < |s| ==> '0' <= s[i] <= '9'
  {
    if s == [] then 0 else 10 * DigitsValue(s[..|s| - 1]) + (s[|s| - 1] as int - '0' as int)
  }

  /** Reading the decimal rendering back gives the number again. */
  lemma {:induction false} NatToStringRoundTrip(n: nat)
    ensures DigitsValue(NatToString(n)) == n
  {
    if n >= 10 {
      var s := NatToString(n);
      assert s[..|s| - 1] == NatToString(n / 10);
      NatToStringRoundTrip(n / 10);
    }
  }

  /** `String(n)` for an integer. */
  function IntToString(n: int): string {
    if n < 0 then "-" + NatToString(-n) else NatToString(n)
  }

  /**
    Whether `String(v)` throws a TypeError. After `JSON.parse` no member is callable,
    so an object with an own `toString` member hides the inherited method; `valueOf`
    then returns the object itself, and ToPrimitive finds no primitive. An array
    throws when one of its elements does, because `join` converts each element.
   */
  predicate StringThrows(v: Value) {
    match v
    case Obj(fields) => "toString" in fields
    case Arr(items) => exists i :: 0 <= i < |items| && StringThrows(items[i])
    case _ => false
  }

  /**
    `String(v)`, missing where it throws: arrays join their elements with `,`
    (null and undefined elements as ""), other objects print as `[object Object]`.
   */
  function ToJsString(v: Value): (r: Wrappers.Option<string>)
    ensures r.None? <==> StringThrows(v)
    ensures v.Str? ==> r == Wrappers.Some(v.s)
    ensures v.Obj? && "toString" !in v.fields ==> r == Wrappers.Some("[object Object]")
  {
    match v
    case Undefined => Wrappers.Some("undefined")
    case Null => Wrappers.Some("null")
    case Bool(b) => Wrappers.Some(if b then "true" else "false")
    case Num(n) => Wrappers.Some(IntToString(n))
    case Str(s) => Wrappers.Some(s)
    case Arr(items) => JoinElements(items)
    case Obj(fields) => if "toString" in fields then Wrappers.None else Wrappers.Some("[object Object]")
  }

  /** `items.join(",")`, missing when converting some element throws. */
  function JoinElements(items: seq<Value>): (r: Wrappers.Option<string>)
    ensures r.None? <==> exists i :: 0 <= i < |items| && StringThrows(items[i])
  {
    if items == [] then Wrappers.Some("")
    else
      var first := if Nullish(items[0]) then Wrappers.Some("") else ToJsString(items[0]);
      var rest := if |items| == 1 then Wrappers.Some("") else JoinElements(items[1..]);
      assert forall i :: 1 <= i < |items| ==> items[i] == items[1..][i - 1];
      match (first, rest)
      case (Some(f), Some(t)) => if |items| == 1 then Wrappers.Some(f) else Wrappers.Some(f + "," + t)
      case _ => Wrappers.None
  }
}
