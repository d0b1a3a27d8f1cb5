/** JavaScript values as the mock generator produces and compares them.
    A generated record is a JavaScript object; here it is a map from field
    name to value, where a field that is absent reads as `undefined`. */
module Values {

  type pos = x: int | x > 0 witness 1

  datatype Option<T> = None | Some(value: T)

  /** The values that appear in a generated record. Numbers are exact:
      `Num` is an integer, `Frac(num, den)` the rational num/den (the
      Decimal, Double and Single defaults). An `Obj` is a nested object
      (a complex-type value, `__metadata`, a `__deferred` stub); every such
      object is created afresh, so no two of them are the same reference. */
  datatype Value =
    | Undefined
    | Null
    | Bool(b: bool)
    | Str(s: string)
    | Num(n: int)
    | Frac(num: int, den: pos)
    | Obj(fields: map<string, Value>)

  type Record = map<string, Value>

  /** `record[key]`: an absent field reads as `undefined`. */
  function Get(r: Record, key: string): (v: Value)
    ensures key !in r ==> v == Undefined
    ensures key in r ==> v == r[key]
  {
    if key in r then r[key] else Undefined
  }

  /** JavaScript truthiness: `undefined`, `null`, `false`, `""` and `0` are falsy. */
  predicate Truthy(v: Value) {
    match v
    case Undefined => false
    case Null => false
    case Bool(b) => b
    case Str(s) => s != ""
    case Num(n) => n != 0
    case Frac(num, _) => num != 0
    case Obj(_) => true
  }

  /** JavaScript `===`. Numbers compare by value whatever their form;
      objects are references, and the generator never puts the same object
      in two places, so two objects are never `===`. */
  predicate StrictEq(a: Value, b: Value) {
    match (a, b)
    case (Undefined, Undefined) => true
    case (Null, Null) => true
    case (Bool(x), Bool(y)) => x == y
    case (Str(x), Str(y)) => x == y
    case (Num(x), Num(y)) => x == y
    case (Num(x), Frac(n, d)) => x * d == n
    case (Frac(n, d), Num(y)) => n == y * d
    case (Frac(n1, d1), Frac(n2, d2)) => n1 * d2 == n2 * d1
    case _ => false
  }

  /** Decimal digits of a natural number, most significant first. */
  function NatText(n: nat): (s: string)
    ensures |s| > 0
    ensures forall k :: 0 <= k < |s| ==> '0' <= s[k] <= '9'
    decreases n
  {
    if n < 10 then [Digit(n)] else NatText(n / 10) + [Digit(n % 10)]
  }

  function Digit(d: nat): (c: char)
    requires d < 10
    ensures '0' <= c <= '9'
    ensures c as int - '0' as int == d
  {
    ('0' as int + d) as char
  }

  /** `String(n)` for an integer. */
  function IntText(n: int): string {
    if n < 0 then "-" + NatText(-n) else NatText(n)
  }

  /** The value of a string of decimal digits. */
  function DigitsValue(s: string): nat
    requires forall k :: 0 <= k < |s| ==> '0' <= s[k] <= '9'
  {
    if s == [] then 0
    else DigitsValue(s[..|s| - 1]) * 10 + (s[|s| - 1] as int - '0' as int)
  }

  /** `NatText` is read back by `DigitsValue`. */
  lemma {:induction false} NatTextRoundTrip(n: nat)
    ensures DigitsValue(NatText(n)) == n
    decreases n
  {
    if n >= 10 {
      NatTextRoundTrip(n / 10);
      var s := NatText(n);
      assert s[..|s| - 1] == NatText(n / 10);
    }
  }

  /** JavaScript string conversion (`"" + v`) of the values the generator
      concatenates into strings. */
  function Text(v: Value): string {
    match v
    case Undefined => "undefined"
    case Null => "null"
    case Bool(b) => if b then "true" else "false"
    case Str(s) => s
    case Num(n) => IntText(n)
    case Frac(num, den) => if num % den == 0 then IntText(num / den) else IntText(num) + "/" + IntText(den)
    case Obj(_) => "[object Object]"
  }

  /** What the generator takes from its host and this model does not define:
      `encodeURIComponent`, the `_getDateTime` conversion of a truthy
      `/Date(ms)/` literal to `datetime'yyyy-mm-ddThh:mm:ss'` (JavaScript's
      Date library), and the epoch milliseconds of "now" with its year, day
      of month and month set to the given values (the host clock). */
  datatype Host = Host(
    encodeUriComponent: string -> string,
    dateTimeLiteral: string -> string,
    epochMs: (int, int, int) -> int)
}
