/**
 * The JavaScript values an ingest request body can be after body parsing,
 * together with the few pieces of JavaScript semantics the hub relies on:
 * truthiness, `Object.keys(v).length` and the `String(v)` conversion.
 */
module JsValue {
  import opened Wrappers

  /**
   * A JavaScript value. Numbers are integers here: NaN, -0, infinities and
   * fractions are not modelled, and `Num` also holds integers beyond 2^53
   * that no double equals. An object's own enumerable properties form a
   * map; the order in which JavaScript enumerates them is not kept.
   */
  datatype JsVal =
    | Undefined
    | Null
    | Bool(b: bool)
    | Num(n: int)
    | Str(s: string)
    | Arr(elems: seq<JsVal>)
    | Obj(fields: map<string, JsVal>)

  /** JavaScript truthiness: what `if (v)`, `v && e` and `v || e` test. */
  predicate Truthy(v: JsVal)
    ensures !Truthy(v) <==> v in {Undefined, Null, Bool(false), Num(0), Str("")}
  {
    match v
    case Undefined => false
    case Null => false
    case Bool(b) => b
    case Num(n) => n != 0
    case Str(s) => s != ""
    case Arr(_) => true
    case Obj(_) => true
  }

  /**
   * `Object.keys(v).length`, or None where `Object.keys` throws a TypeError
   * (on null and undefined). A string's own keys are its indices, an
   * array's its indices, a boolean's or number's there are none.
   */
  function ObjectKeysLength(v: JsVal): (r: Option<nat>)
    ensures r.None? <==> v.Undefined? || v.Null?
    ensures v.Str? ==> r == Some(|v.s|)
    ensures v.Obj? ==> r == Some(|v.fields|)
  {
    match v
    case Undefined => None
    case Null => None
    case Bool(_) => Some(0)
    case Num(_) => Some(0)
    case Str(s) => Some(|s|)
    case Arr(elems) => Some(|elems|)
    case Obj(fields) => Some(|fields|)
  }

  /** The character of one decimal digit. */
  function DigitChar(d: nat): (c: char)
    requires d < 10
    ensures '0' <= c <= '9'
    ensures (c == '0') <==> d == 0
  {
    (('0' as int) + d) as char
  }

  /** Every character is a decimal digit. */
  predicate IsDigits(s: string) {
    forall i :: 0 <= i < |s| ==> '0' <= s[i] <= '9'
  }

  /** The number a string of decimal digits denotes, read left to right. */
  function DecimalValue(s: string): nat
    requires IsDigits(s)
  {
    if s == [] then 0
    else DecimalValue(s[..|s| - 1]) * 10 + ((s[|s| - 1] as int) - ('0' as int))
  }

  /**
   * The decimal numeral of a natural number, as `String(n)` writes it:
   * digits only, no leading zero except for 0 itself, denoting n.
   */
  function NatToDecimal(n: nat): (s: string)
    ensures |s| >= 1
    ensures IsDigits(s)
    ensures (s[0] == '0') <==> n == 0
    ensures n == 0 ==> s == "0"
    ensures DecimalValue(s) == n
    decreases n
  {
    if n < 10 then
      var s := [DigitChar(n)];
      assert s[..0] == [];
      s
    else
      var prefix := NatToDecimal(n / 10);
      var s := prefix + [DigitChar(n % 10)];
      assert s[..|s| - 1] == prefix;
      s
  }

  /** The decimal numeral of an integer, with a leading '-' when negative. */
  function IntToDecimal(n: int): (s: string)
    ensures n < 0 ==> |s| >= 2 && s[0] == '-' && IsDigits(s[1..]) && DecimalValue(s[1..]) == -n
    ensures n >= 0 ==> IsDigits(s) && DecimalValue(s) == n
  {
    if n < 0 then
      var digits := NatToDecimal(-n);
      assert ("-" + digits)[1..] == digits;
      "-" + digits
    else NatToDecimal(n)
  }

  /**
   * `String(v)`. An array converts as `Array.prototype.join(",")`, with null
   * and undefined elements written as empty strings. An object converts to
   * "[object Object]", as `Object.prototype.toString` gives for an object
   * without its own `toString` or `valueOf`; at the ingest guard only `{}`
   * and `[]` reach this conversion.
   */
  function ToJsString(v: JsVal): (r: string)
    ensures v.Str? ==> r == v.s
    ensures v.Num? && v.n >= 0 ==> IsDigits(r) && DecimalValue(r) == v.n
    ensures v == Arr([]) ==> r == ""
    decreases v, 1
  {
    match v
    case Undefined => "undefined"
    case Null => "null"
    case Bool(b) => if b then "true" else "false"
    case Num(n) => IntToDecimal(n)
    case Str(s) => s
    case Arr(elems) => JoinElements(v, elems)
    case Obj(_) => "[object Object]"
  }

  /** The comma-separated elements of the array `whole`, of which `elems` is a suffix. */
  function JoinElements(ghost whole: JsVal, elems: seq<JsVal>): (r: string)
    requires forall e :: e in elems ==> e < whole
    ensures elems == [] ==> r == ""
    ensures |elems| == 1 && elems[0].Str? ==> r == elems[0].s
    ensures |elems| == 1 && (elems[0].Null? || elems[0].Undefined?) ==> r == ""
    decreases whole, 0, |elems|
  {
    if elems == [] then ""
    else
      assert elems[0] in elems;
      var head := if elems[0].Null? || elems[0].Undefined? then "" else ToJsString(elems[0]);
      if |elems| == 1 then head
      else
        assert forall e :: e in elems[1..] ==> e in elems;
        head + "," + JoinElements(whole, elems[1..])
  }
}
