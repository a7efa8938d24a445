/** JavaScript values as they come out of JSON.parse, and the few language
    operations the signalling code applies to them: property access,
    truthiness, strict equality with a property key, and the conversion of a
    value to a property key (the string under which `obj[v] = x` stores). */
module Json {

  /** A parsed JSON value. `Undefined` is what a missing property reads as.
      Numbers are limited to integers (see README, "Left out"). */
  datatype Value =
    | Undefined
    | Null
    | Bool(b: bool)
    | Num(n: int)
    | Str(s: string)
    | Arr(items: seq<Value>)
    | Obj(fields: map<string, Value>)

  datatype Option<T> = None | Some(value: T)

  /** `v.key`: own properties of a plain object; every other value has none of
      the keys the signalling code reads. */
  function Get(v: Value, key: string): (r: Value)
    ensures r != Undefined ==> v.Obj? && key in v.fields && v.fields[key] == r
    ensures v.Obj? && key in v.fields ==> r == v.fields[key]
  {
    if v.Obj? && key in v.fields then v.fields[key] else Undefined
  }

  /** `const { a, b } = v` throws a TypeError exactly when `v` is undefined or null. */
  predicate Destructurable(v: Value) {
    !v.Undefined? && !v.Null?
  }

  /** JavaScript truthiness (`if (v)`, `!v`). */
  predicate Truthy(v: Value) {
    match v
    case Undefined => false
    case Null => false
    case Bool(b) => b
    case Num(n) => n != 0
    case Str(s) => s != ""
    case Arr(_) => true
    case Obj(_) => true
  }

  function DigitChar(d: nat): (c: char)
    requires d < 10
    ensures '0' <= c <= '9'
  {
    "0123456789"[d]
  }

  /** Decimal digits of a natural number, most significant first. */
  function NatDigits(n: nat): (s: string)
    ensures |s| > 0
    ensures forall i :: 0 <= i < |s| ==> '0' <= s[i] <= '9'
    decreases n
  {
    if n < 10 then [DigitChar(n)] else NatDigits(n / 10) + [DigitChar(n % 10)]
  }

  /** `String(n)` for an integral number. */
  function IntString(n: int): (s: string)
    ensures |s| > 0
    ensures s[0] == '-' <==> n < 0
  {
    if n < 0 then "-" + NatDigits(-n) else NatDigits(n)
  }

  /** `String(v)`, which is also the property key `obj[v]` uses. */
  function ToKey(v: Value): (k: string)
    ensures v.Str? ==> k == v.s
    decreases v
  {
    match v
    case Undefined => "undefined"
    case Null => "null"
    case Bool(b) => if b then "true" else "false"
    case Num(n) => IntString(n)
    case Str(s) => s
    case Arr(items) => JoinItems(items)
    case Obj(_) => "[object Object]"
  }

  /** `Array.prototype.join(",")`: undefined and null elements print as "". */
  function JoinItems(items: seq<Value>): (k: string)
    ensures items == [] ==> k == ""
    decreases items
  {
    if items == [] then ""
    else
      var head := if items[0].Undefined? || items[0].Null? then "" else ToKey(items[0]);
      if |items| == 1 then head else head + "," + JoinItems(items[1..])
  }

  /** `key === v` for a property key `key` (always a string). */
  predicate StrictEqualsKey(key: string, v: Value) {
    v == Str(key)
  }

  /** Strict equality implies that `v` is stored under `key`; the converse
      fails for non-strings (the number 5 is stored under "5" but `"5" === 5`
      is false). */
  lemma StrictEqualsKeyImpliesToKey(key: string, v: Value)
    ensures StrictEqualsKey(key, v) ==> ToKey(v) == key
    ensures StrictEqualsKey("5", Num(5)) == false && ToKey(Num(5)) == "5"
  {
    assert NatDigits(5) == "5";
  }
}
