/**
 * PHP's loosely typed values and the language rules the client's checks rely on:
 * conversion to bool, `isset`, `empty`, `??` and conversion to string.
 */
module PhpValues {

  /**
   * A PHP value. PHP has a single array type; the model keeps arrays used as
   * lists (keys 0, 1, …, in order) apart from arrays used as records (string keys).
   */
  datatype Value =
    | Null
    | Bool(b: bool)
    | Int(i: int)
    | Str(s: string)
    | List(items: seq<Value>)
    | Dict(fields: map<string, Value>)

  /** Conversion to bool, as `if ($v)` and `!$v` apply it. */
  predicate Truthy(v: Value) {
    match v
    case Null => false
    case Bool(b) => b
    case Int(i) => i != 0
    case Str(s) => s != "" && s != "0"
    case List(items) => |items| > 0
    case Dict(fields) => |fields| > 0
  }

  /** `is_array($v)` */
  predicate IsArray(v: Value) {
    v.List? || v.Dict?
  }

  /** `isset($data[k])`: the key is present and its value is not null. */
  predicate IsSet(data: map<string, Value>, k: string) {
    k in data && data[k] != Null
  }

  /** `empty($data[k])`: the key is absent or its value converts to false. */
  predicate IsEmpty(data: map<string, Value>, k: string) {
    k !in data || !Truthy(data[k])
  }

  /** The values that `isset` accepts and `empty` still rejects. */
  const SetButEmpty: set<Value> := {Bool(false), Int(0), Str(""), Str("0"), List([]), Dict(map[])}

  /** `empty` is strictly stronger than `!isset`: a non-empty key is set, and a set key
      is empty exactly when it holds `false`, `0`, `""`, `"0"` or an empty array. */
  lemma EmptyVersusIsSet(data: map<string, Value>, k: string)
    ensures !IsEmpty(data, k) ==> IsSet(data, k)
    ensures IsSet(data, k) && IsEmpty(data, k) <==> k in data && data[k] in SetButEmpty
  {
    if k in data {
      match data[k]
      case List(items) => assert |items| == 0 ==> items == [];
      case Dict(fields) => assert |fields| == 0 ==> fields == map[];
      case _ =>
    }
  }

  /** `$v[k]` read from any value: a missing key, or a value that is not a record, gives null. */
  function Get(v: Value, k: string): (r: Value)
    ensures v.Dict? && k in v.fields ==> r == v.fields[k]
    ensures !(v.Dict? && k in v.fields) ==> r == Null
  {
    if v.Dict? && k in v.fields then v.fields[k] else Null
  }

  /** `$m[k] ?? default` */
  function Coalesce(m: map<string, Value>, k: string, default: Value): (r: Value)
    ensures IsSet(m, k) ==> r == m[k]
    ensures !IsSet(m, k) ==> r == default
  {
    if IsSet(m, k) then m[k] else default
  }

  predicate IsDigit(c: char) {
    '0' <= c <= '9'
  }

  predicate AllDigits(s: string) {
    forall i :: 0 <= i < |s| ==> IsDigit(s[i])
  }

  function DigitChar(d: nat): (c: char)
    requires d < 10
    ensures IsDigit(c)
  {
    ('0' as int + d) as char
  }

  /** The decimal digits of `n`, without leading zeros. */
  function Digits(n: nat): (r: string)
    ensures |r| >= 1 && AllDigits(r)
    ensures r[0] == '0' ==> n == 0
    decreases n
  {
    if n < 10 then [DigitChar(n)] else Digits(n / 10) + [DigitChar(n % 10)]
  }

  /** The number a string of decimal digits denotes. */
  function DigitsValue(s: string): nat
    requires AllDigits(s)
  {
    if s == [] then 0 else DigitsValue(s[..|s| - 1]) * 10 + (s[|s| - 1] as int - '0' as int)
  }

  /** Reading the digits back gives the number. */
  lemma {:induction false} DigitsRoundTrip(n: nat)
    ensures DigitsValue(Digits(n)) == n
  {
    if n >= 10 {
      var r := Digits(n);
      DigitsRoundTrip(n / 10);
      assert r[..|r| - 1] == Digits(n / 10);
    }
  }

  /** `(string)$i` for an integer. */
  function IntToString(i: int): (r: string)
    ensures |r| >= 1
    ensures i >= 0 ==> AllDigits(r)
    ensures i < 0 ==> r[0] == '-' && AllDigits(r[1..])
    ensures IsDigit(r[|r| - 1])
  {
    if i < 0 then "-" + Digits(-i) else Digits(i)
  }

  /** The string form of an integer starts with `-` exactly when the integer is negative. */
  lemma IntToStringSign(i: int)
    ensures IntToString(i)[0] == '-' <==> i < 0
  {
    if i >= 0 {
      assert IsDigit(IntToString(i)[0]);
    }
  }

  /** `(string)$v`; an array converts to "Array" (with a warning). */
  function ToPhpString(v: Value): (r: string)
    ensures v.Str? ==> r == v.s
    ensures v.Int? ==> r == IntToString(v.i)
  {
    match v
    case Null => ""
    case Bool(b) => if b then "1" else ""
    case Int(i) => IntToString(i)
    case Str(s) => s
    case List(_) => "Array"
    case Dict(_) => "Array"
  }
}
