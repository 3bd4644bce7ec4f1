/** The JavaScript values the browser code handles: form strings, and the
    fields of the records it fetches from the backend. */
module JsValue {

  /** A JavaScript value. Numbers are integers: NaN, fractions and -0 are not
      part of this model; arrays are not either. */
  datatype JsVal =
    | Undefined
    | Null
    | Boolean(b: bool)
    | Number(n: int)
    | Text(s: string)
    | Object(props: map<string, JsVal>)

  /** The two copies of the page script, frontend/script.js and
      frontend/script2.js. */
  datatype Page = Script1 | Script2

  /** A fetched reservation: the properties of a JSON object. */
  type JsRecord = map<string, JsVal>

  /** `record.key`: undefined when the property is missing. */
  function Prop(r: JsRecord, key: string): JsVal
  {
    if key in r then r[key] else Undefined
  }

  /** `Boolean(v)`: false, 0, "", null and undefined are falsy. */
  predicate Truthy(v: JsVal)
  {
    match v
    case Undefined => false
    case Null => false
    case Boolean(b) => b
    case Number(n) => n != 0
    case Text(s) => s != ""
    case Object(_) => true
  }

  /** `a || b`. */
  function Or(a: JsVal, b: JsVal): JsVal
  {
    if Truthy(a) then a else b
  }

  predicate IsDigit(c: char)
  {
    '0' <= c <= '9'
  }

  function DigitChar(d: nat): (c: char)
    requires d < 10
    ensures IsDigit(c)
  {
    ('0' as int + d) as char
  }

  function DigitValue(c: char): (d: nat)
    requires IsDigit(c)
    ensures d < 10
  {
    c as int - '0' as int
  }

  /** The decimal digits of `n`, most significant first, without leading zeros. */
  function NatToDecimal(n: nat): (s: string)
    ensures s != ""
    ensures forall i :: 0 <= i < |s| ==> IsDigit(s[i])
    ensures n > 0 ==> s[0] != '0'
    ensures n == 0 ==> s == "0"
  {
    if n < 10 then [DigitChar(n)] else NatToDecimal(n / 10) + [DigitChar(n % 10)]
  }

  /** `String(n)` for an integer. */
  function IntToDecimal(n: int): string
  {
    if n < 0 then "-" + NatToDecimal(-n) else NatToDecimal(n)
  }

  /** `String(v)`, which is also what a template literal `${v}` shows. */
  function ToText(v: JsVal): string
  {
    match v
    case Undefined => "undefined"
    case Null => "null"
    case Boolean(b) => if b then "true" else "false"
    case Number(n) => IntToDecimal(n)
    case Text(s) => s
    case Object(_) => "[object Object]"
  }

  predicate AllDigits(s: string)
  {
    forall i :: 0 <= i < |s| ==> IsDigit(s[i])
  }

  /** The number a string of decimal digits denotes, most significant first. */
  function DigitsValue(s: string): (n: nat)
    requires AllDigits(s)
  {
    if s == [] then 0 else DigitsValue(s[..|s| - 1]) * 10 + DigitValue(s[|s| - 1])
  }

  /** Reading back the decimal digits of `n` gives `n`. */
  lemma {:induction false} DecimalRoundTrip(n: nat)
    ensures DigitsValue(NatToDecimal(n)) == n
  {
    var s := NatToDecimal(n);
    if n >= 10 {
      DecimalRoundTrip(n / 10);
      assert s[..|s| - 1] == NatToDecimal(n / 10);
    }
  }

  /** A truthy value never prints as the empty string. */
  lemma TruthyTextNonEmpty(v: JsVal)
    requires Truthy(v)
    ensures ToText(v) != ""
  {
  }
}
