/**
 * JavaScript values as produced by `JSON.parse`, with the property access,
 * optional chaining, truthiness and `typeof` rules the backend relies on.
 * `Option<Json>` is a possibly-`undefined` value: `None` is `undefined`.
 */
module Json {
  import opened Wrappers
  import Text
  import Numerals

  datatype Json =
    | Null
    | Bool(b: bool)
    | Num(n: real)
    | Str(s: string)
    | Arr(items: seq<Json>)
    | Obj(fields: map<string, Json>)

  /** JavaScript truthiness: `undefined`, `null`, `false`, `0` and `""` are falsy. */
  predicate Truthy(v: Option<Json>)
  {
    match v
    case None => false
    case Some(j) =>
      match j
      case Null => false
      case Bool(b) => b
      case Num(n) => n != 0.0
      case Str(s) => s != ""
      case Arr(_) => true
      case Obj(_) => true
  }

  /** `a || b`: the first operand when it is truthy, else the second. */
  function Or(a: Option<Json>, b: Option<Json>): (r: Option<Json>)
    ensures Truthy(a) ==> r == a
    ensures !Truthy(a) ==> r == b
  {
    if Truthy(a) then a else b
  }

  /** The array index a property key denotes, when it is a canonical decimal numeral. */
  function ArrayIndex(key: string): (r: Option<nat>)
    ensures r.Some? ==> key == Numerals.NatToString(r.value)
  {
    if |key| >= 1 && (forall i :: 0 <= i < |key| ==> Text.IsDigit(key[i])) && (key[0] != '0' || |key| == 1) then
      var n := Numerals.DigitsValue(key, 10);
      if Numerals.NatToString(n) == key then Some(n) else None
    else None
  }

  /**
   * `v[key]` for a value that is neither `null` nor `undefined`: own properties of objects,
   * elements and `length` of arrays and strings; anything else reads as `undefined`.
   */
  function Member(v: Json, key: string): (r: Option<Json>)
    ensures v.Obj? ==> (r.Some? <==> key in v.fields)
    ensures v.Obj? && key in v.fields ==> r == Some(v.fields[key])
    ensures v.Bool? || v.Num? || v.Null? ==> r.None?
  {
    match v
    case Obj(fields) => if key in fields then Some(fields[key]) else None
    case Arr(items) =>
      if key == "length" then Some(Num(|items| as real))
      else (match ArrayIndex(key)
            case Some(i) => if i < |items| then Some(items[i]) else None
            case None => None)
    case Str(s) =>
      if key == "length" then Some(Num(|s| as real))
      else (match ArrayIndex(key)
            case Some(i) => if i < |s| then Some(Str([s[i]])) else None
            case None => None)
    case _ => None
  }

  /** `null` or `undefined`: the values on which optional chaining stops. */
  predicate IsNullish(v: Option<Json>)
  {
    v.None? || v.value.Null?
  }

  /** Optional chaining `v?.k1?.k2...`: `undefined` as soon as a nullish value is met. */
  function Get(v: Option<Json>, path: seq<string>): (r: Option<Json>)
    ensures |path| == 0 ==> r == v
    ensures |path| > 0 && IsNullish(v) ==> r.None?
    decreases |path|
  {
    if |path| == 0 then v
    else if IsNullish(v) then None
    else Get(Member(v.value, path[0]), path[1..])
  }

  /** Walking a path in two stages is walking the whole path. */
  lemma {:induction false} GetAppend(v: Option<Json>, p: seq<string>, q: seq<string>)
    ensures Get(v, p + q) == Get(Get(v, p), q)
    decreases |p|
  {
    if |p| == 0 {
      assert p + q == q;
    } else if IsNullish(v) {
      assert |p + q| > 0;
    } else {
      assert (p + q)[0] == p[0];
      assert (p + q)[1..] == p[1..] + q;
      GetAppend(Member(v.value, p[0]), p[1..], q);
    }
  }

  /** Walking into an object takes the member named by the first key, then walks the rest. */
  lemma GetStep(fields: map<string, Json>, key: string, rest: seq<string>)
    ensures Get(Some(Obj(fields)), [key] + rest) == Get(if key in fields then Some(fields[key]) else None, rest)
  {
    assert ([key] + rest)[0] == key;
    assert ([key] + rest)[1..] == rest;
  }

  /** A three-key walk through nested objects ends at the innermost member. */
  lemma NestedGet(outer: map<string, Json>, middle: map<string, Json>, inner: map<string, Json>, a: string, b: string, c: string)
    requires a in outer && outer[a] == Obj(middle)
    requires b in middle && middle[b] == Obj(inner)
    requires c in inner
    ensures Get(Some(Obj(outer)), [a, b, c]) == Some(inner[c])
  {
    GetStep(outer, a, [b, c]);
    assert [a] + [b, c] == [a, b, c];
    GetStep(middle, b, [c]);
    assert [b] + [c] == [b, c];
    GetStep(inner, c, []);
    assert [c] + [] == [c];
  }

  /** `typeof v`, except that arrays report `array` (the rule `checkField` applies). */
  function TypeName(v: Option<Json>): (r: string)
    ensures r == "undefined" <==> v.None?
    ensures r == "array" <==> (v.Some? && v.value.Arr?)
    ensures r == "object" <==> (v.Some? && (v.value.Obj? || v.value.Null?))
  {
    match v
    case None => "undefined"
    case Some(j) =>
      match j
      case Null => "object"
      case Bool(_) => "boolean"
      case Num(_) => "number"
      case Str(_) => "string"
      case Arr(_) => "array"
      case Obj(_) => "object"
  }
}
