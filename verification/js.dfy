/** The slice of JavaScript value semantics the response layer depends on:
    truthiness, `||` versus `??`, optional property reads, the coercion of a
    value to a property key, and the values an object enumerates. */
module Js {

  /** A JavaScript value. A number is modelled by its integer value; an object
      is the list of its own enumerable properties in the engine's enumeration
      order. */
  datatype JsVal =
    | Undefined
    | Null
    | Bool(b: bool)
    | Num(n: int)
    | Str(s: string)
    | Arr(elems: seq<JsVal>)
    | Obj(props: seq<(string, JsVal)>)

  /** `null` or `undefined`: the only values `??` and `?.` treat as absent. */
  predicate Nullish(v: JsVal) {
    v.Undefined? || v.Null?
  }

  /** JavaScript truthiness: `false`, `0`, `""`, `null` and `undefined` are falsy. */
  predicate Truthy(v: JsVal) {
    match v
    case Undefined => false
    case Null => false
    case Bool(b) => b
    case Num(n) => n != 0
    case Str(s) => s != ""
    case Arr(_) => true
    case Obj(_) => true
  }

  /** `a || b` */
  function Or(a: JsVal, b: JsVal): JsVal {
    if Truthy(a) then a else b
  }

  /** `a ?? b` */
  function Coalesce(a: JsVal, b: JsVal): JsVal {
    if Nullish(a) then b else a
  }

  /** `||` and `??` differ exactly on the falsy values that are not nullish:
      `false`, `0` and `""`. */
  lemma OrCoalesceDiffer(a: JsVal, b: JsVal)
    ensures Or(a, b) != Coalesce(a, b) ==> a in {Bool(false), Num(0), Str("")} && a != b
    ensures a in {Bool(false), Num(0), Str("")} ==> Or(a, b) == b && Coalesce(a, b) == a
  {
  }

  /** Every object has pairwise distinct own keys at its top level, as every
      JavaScript object does; the representation alone would allow repeats. */
  predicate DistinctKeys(v: JsVal) {
    v.Obj? ==> forall i, j :: 0 <= i < j < |v.props| ==> v.props[i].0 != v.props[j].0
  }

  /** First value stored under `key`, or `undefined`. */
  function Lookup(props: seq<(string, JsVal)>, key: string): (r: JsVal)
    ensures r != Undefined ==> exists i :: 0 <= i < |props| && props[i] == (key, r)
    ensures (forall i :: 0 <= i < |props| ==> props[i].0 != key) ==> r == Undefined
    decreases |props|
  {
    if |props| == 0 then Undefined
    else if props[0].0 == key then props[0].1
    else Lookup(props[1..], key)
  }

  /** The value at the first position holding `key` is what `Lookup` returns. */
  lemma {:induction false} LookupFirst(props: seq<(string, JsVal)>, key: string, i: nat)
    requires i < |props| && props[i].0 == key
    requires forall j :: 0 <= j < i ==> props[j].0 != key
    ensures Lookup(props, key) == props[i].1
    decreases i
  {
    if i > 0 {
      LookupFirst(props[1..], key, i - 1);
    }
  }

  /** `v?.[key]` for the property names this model reads (`status`,
      `statusCode`, `message`, `data`, `property`, `constraints`): an object's
      own property, and `undefined` on every other value. Of these names only
      `message` has a built-in default, `Error.prototype.message`, which is
      `""`; a value here is a plain object, array or primitive, never an
      `Error` instance, so the default is never reached. */

  function Get(v: JsVal, key: string): JsVal {
    match v
    case Obj(props) => Lookup(props, key)
    case _ => Undefined
  }

  /** The ten decimal digits. */
  function DigitChar(d: nat): (c: char)
    requires d < 10
    ensures DigitValue(c) == d
  {
    ('0' as int + d) as char
  }

  /** The value of a digit character. */
  function DigitValue(c: char): int {
    c as int - '0' as int
  }

  /** The number a string of digits denotes, most significant digit first. */
  function DecimalValue(s: string): int
    decreases |s|
  {
    if |s| == 0 then 0 else DecimalValue(s[..|s| - 1]) * 10 + DigitValue(s[|s| - 1])
  }

  predicate IsDigit(c: char) {
    '0' <= c <= '9'
  }

  /** Decimal rendering of a natural number, without leading zeros. */
  function NatToDecimal(n: nat): (s: string)
    ensures |s| > 0
    ensures forall i :: 0 <= i < |s| ==> IsDigit(s[i])
    ensures |s| > 1 ==> s[0] != '0'
    ensures DecimalValue(s) == n
    decreases n
  {
    if n < 10 then [DigitChar(n)]
    else
      var high := NatToDecimal(n / 10);
      var s := high + [DigitChar(n % 10)];
      assert s[..|s| - 1] == high;
      s
  }

  /** `String(n)` for an integer-valued number, as a template literal renders it. */
  function IntToDecimal(i: int): (s: string)
    ensures |s| > 0
    ensures i < 0 <==> s[0] == '-'
    ensures i >= 0 ==> DecimalValue(s) == i
    ensures i < 0 ==> DecimalValue(s[1..]) == -i
  {
    if i < 0 then "-" + NatToDecimal(-i) else NatToDecimal(i)
  }

  /** After the sign comes the canonical rendering of the magnitude: digits
      only, with no leading zero. */
  lemma IntToDecimalCanonical(i: int)
    ensures var s := IntToDecimal(i);
      var digits := if i < 0 then s[1..] else s;
      && digits == NatToDecimal(if i < 0 then -i else i)
      && (forall k :: 0 <= k < |digits| ==> IsDigit(digits[k]))
      && (|digits| > 1 ==> digits[0] != '0')
  {
    if i < 0 {
      assert IntToDecimal(i)[1..] == NatToDecimal(-i);
    }
  }

  /** Distinct integers render differently. */
  lemma IntToDecimalInjective(a: int, b: int)
    requires IntToDecimal(a) == IntToDecimal(b)
    ensures a == b
  {
  }

  /** The property key `obj[v]` uses: `v` converted to a string. */
  function ToKey(v: JsVal): string
    decreases v, 1
  {
    match v
    case Undefined => "undefined"
    case Null => "null"
    case Bool(b) => if b then "true" else "false"
    case Num(n) => IntToDecimal(n)
    case Str(s) => s
    case Arr(es) => JoinKeys(es)
    case Obj(_) => "[object Object]"
  }

  /** `Array.prototype.join(",")`, where `null` and `undefined` render empty. */
  function JoinKeys(es: seq<JsVal>): string
    decreases es, 0
  {
    if |es| == 0 then ""
    else
      var head := if Nullish(es[0]) then "" else ToKey(es[0]);
      if |es| == 1 then head else head + "," + JoinKeys(es[1..])
  }

  /** The values `Object.values(v)` lists: the characters of a string, the
      elements of an array, the property values of an object, and nothing for
      any other value. */
  function EnumerableValues(v: JsVal): seq<JsVal> {
    match v
    case Obj(props) => seq(|props|, i requires 0 <= i < |props| => props[i].1)
    case Str(s) => seq(|s|, i requires 0 <= i < |s| => Str([s[i]]))
    case Arr(es) => es
    case _ => []
  }

  /** What `for (const k in v) { ... v[k] ... }` visits: every own key in
      order, each read back through the key, for an object; every index, read
      back by position, for a string or an array; nothing otherwise. */
  function ForInValues(v: JsVal): seq<JsVal> {
    match v
    case Obj(props) => seq(|props|, i requires 0 <= i < |props| => Get(v, props[i].0))
    case Str(s) => seq(|s|, i requires 0 <= i < |s| => Str([s[i]]))
    case Arr(es) => seq(|es|, i requires 0 <= i < |es| => es[i])
    case _ => []
  }

  /** On an object with distinct keys, reading every key back in a `for..in`
      loop yields exactly the list `Object.values` returns, element for element. */
  lemma ForInMatchesValues(v: JsVal)
    requires DistinctKeys(v)
    ensures ForInValues(v) == EnumerableValues(v)
  {
    if v.Obj? {
      var ps := v.props;
      forall i | 0 <= i < |ps|
        ensures Lookup(ps, ps[i].0) == ps[i].1
      {
        LookupFirst(ps, ps[i].0, i);
      }
    }
  }

  /** Without distinct keys the two differ: a repeated key reads back its first value. */
  lemma RepeatedKeyReadsFirst()
    ensures var v := Obj([("a", Num(1)), ("a", Num(2))]);
      !DistinctKeys(v) && ForInValues(v) == [Num(1), Num(1)] && EnumerableValues(v) == [Num(1), Num(2)]
  {
    var v := Obj([("a", Num(1)), ("a", Num(2))]);
    assert ForInValues(v)[1] == Lookup(v.props, "a") == Num(1);
  }
}
