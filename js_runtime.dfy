/**
 * The few pieces of the JavaScript runtime that the table component relies on:
 * runtime values and their `typeof` tag, the string conversion `String(v)`,
 * upper-casing of one character, and the `||` fallback on an optional
 * string or number.
 */
module JsRuntime {

  datatype Option<+T> = None | Some(value: T)

  /**
   * A JavaScript value, as far as the component looks at it. Only the
   * `typeof` tag and the string form are ever inspected, so a number
   * carries an integer and an object carries its own string form.
   */
  datatype Value =
    | Num(n: int)        // typeof 'number'
    | Str(s: string)     // typeof 'string'
    | Bool(b: bool)      // typeof 'boolean'
    | Null               // typeof 'object'
    | Undefined          // typeof 'undefined'
    | Obj(kind: ObjKind, text: string)  // every other value; `text` is what String(v) gives

  /** The kinds of value that `Obj` stands for, each with its own `typeof` tag. */
  datatype ObjKind = PlainObject | Function | BigInt | Symbol

  /** The `typeof` operator. */
  function TypeOf(v: Value): (tag: string)
    ensures tag == "number" <==> v.Num?
    ensures tag == "undefined" <==> v.Undefined?
  {
    match v
    case Num(_) => "number"
    case Str(_) => "string"
    case Bool(_) => "boolean"
    case Null => "object"
    case Undefined => "undefined"
    case Obj(kind, _) =>
      match kind
      case PlainObject => "object"
      case Function => "function"
      case BigInt => "bigint"
      case Symbol => "symbol"
  }

  predicate IsDigit(c: char) {
    '0' <= c <= '9'
  }

  predicate AllDigits(s: string) {
    forall i :: 0 <= i < |s| ==> IsDigit(s[i])
  }

  function DigitChar(d: nat): (c: char)
    requires d < 10
    ensures IsDigit(c) && c as int - '0' as int == d
  {
    ('0' as int + d) as char
  }

  /** The decimal digits of a non-negative integer, most significant first. */
  function NatToDecimal(n: nat): (s: string)
    ensures |s| > 0 && AllDigits(s)
    ensures |s| > 1 ==> s[0] != '0'
    decreases n
  {
    if n < 10 then [DigitChar(n)] else NatToDecimal(n / 10) + [DigitChar(n % 10)]
  }

  /** Reads a string of decimal digits back as a number. */
  function DecimalValue(s: string): nat
    requires AllDigits(s)
  {
    if s == [] then 0
    else DecimalValue(s[..|s| - 1]) * 10 + (s[|s| - 1] as int - '0' as int)
  }

  lemma {:induction false} DecimalRoundTrip(n: nat)
    ensures DecimalValue(NatToDecimal(n)) == n
    decreases n
  {
    if n >= 10 {
      var s := NatToDecimal(n);
      var prefix := NatToDecimal(n / 10);
      assert s[..|s| - 1] == prefix;
      DecimalRoundTrip(n / 10);
    }
  }

  /**
   * `String(n)` for an integral number: optional minus sign, then the digits.
   * JavaScript agrees for magnitudes below 10^21 only; larger ones it writes
   * in exponent form.
   */
  function IntToDecimal(n: int): (s: string)
    ensures n >= 0 ==> AllDigits(s) && DecimalValue(s) == n
    ensures n < 0 ==> |s| > 1 && s[0] == '-' && AllDigits(s[1..]) && DecimalValue(s[1..]) == -n
  {
    if n < 0 then
      DecimalRoundTrip(-n);
      "-" + NatToDecimal(-n)
    else
      DecimalRoundTrip(n);
      NatToDecimal(n)
  }

  /** `String(v)`. */
  function ToStr(v: Value): (s: string)
    ensures v.Str? ==> s == v.s
    ensures v.Num? ==> s == IntToDecimal(v.n)
  {
    match v
    case Num(n) => IntToDecimal(n)
    case Str(s) => s
    case Bool(b) => if b then "true" else "false"
    case Null => "null"
    case Undefined => "undefined"
    case Obj(_, text) => text
  }

  predicate IsLowerAscii(c: char) {
    'a' <= c <= 'z'
  }

  /** `toUpperCase` on one character, for the ASCII letters. */
  function UpperChar(c: char): (u: char)
    ensures !IsLowerAscii(u)
    ensures !IsLowerAscii(c) ==> u == c
    ensures IsLowerAscii(c) ==> 'A' <= u <= 'Z' && u as int - 'A' as int == c as int - 'a' as int
  {
    if IsLowerAscii(c) then (c as int - 32) as char else c
  }

  /** `s.charAt(0).toUpperCase() + s.slice(1)`. */
  function Capitalize(s: string): (r: string)
    ensures |r| == |s|
    ensures |s| > 0 ==> r[0] == UpperChar(s[0]) && r[1..] == s[1..]
    ensures s == "" ==> r == ""
  {
    if s == "" then "" else [UpperChar(s[0])] + s[1..]
  }

  /** `a || b` where `a` is an optional string: an absent or empty `a` is falsy. */
  function OrString(a: Option<string>, b: string): (r: string)
    ensures a.Some? && a.value != "" ==> r == a.value
    ensures a == None || a == Some("") ==> r == b
  {
    if a.Some? && a.value != "" then a.value else b
  }

  /** `a || b` where `a` is an optional number: an absent or zero `a` is falsy. */
  function OrNumber(a: Option<int>, b: int): (r: int)
    ensures a.Some? && a.value != 0 ==> r == a.value
    ensures a == None || a == Some(0) ==> r == b
  {
    if a.Some? && a.value != 0 then a.value else b
  }
}
