/** Values of the JavaScript runtime that the client's logic depends on:
    optional values (null/undefined), Error objects, JavaScript truthiness
    of strings, and the decimal rendering of a count in a template literal. */
module Js {

  /** `None` stands for `null`/`undefined`. */
  datatype Option<T> = None | Some(value: T)

  /** The settled state of a promise: resolved with a value or rejected with an Error. */
  datatype Result<T> = Ok(value: T) | Err(error: JsError)

  /** An Error object as far as the client reads it: its `name` and `message`. */
  datatype JsError = JsError(name: string, message: string)

  /** The `Error` built by `new Error(message)`. */
  function Thrown(message: string): (e: JsError)
    ensures e.name == "Error" && e.message == message
  {
    JsError("Error", message)
  }

  /** A string value is truthy exactly when it is present and non-empty. */
  predicate Truthy(s: Option<string>)
  {
    s.Some? && s.value != ""
  }

  /** `a || b` for two optional strings: the first truthy operand, else the last one. */
  function Or(a: Option<string>, b: Option<string>): (r: Option<string>)
    ensures Truthy(a) ==> r == a
    ensures !Truthy(a) ==> r == b
    ensures r == a || r == b
    ensures Truthy(r) <==> Truthy(a) || Truthy(b)
  {
    if Truthy(a) then a else b
  }

  /** `String(e)` of an Error, i.e. Error.prototype.toString: the name, the
      message, or "name: message" when both are non-empty. */
  function ErrorToString(e: JsError): (r: string)
    ensures e.name == "" ==> r == e.message
    ensures e.name != "" && e.message == "" ==> r == e.name
    ensures e.name != "" && e.message != "" ==> r == e.name + ": " + e.message
    ensures r == "" <==> e.name == "" && e.message == ""
  {
    if e.name == "" then e.message
    else if e.message == "" then e.name
    else e.name + ": " + e.message
  }

  /** `e?.message || String(e)`: the message, or the whole error text when the message is empty. */
  function MessageOrString(e: JsError): (r: string)
    ensures e.message != "" ==> r == e.message
    ensures r == "" <==> e.name == "" && e.message == ""
  {
    if e.message != "" then e.message else ErrorToString(e)
  }

  /** `s.startsWith(p)`. */
  predicate StartsWith(s: string, p: string)
  {
    |p| <= |s| && s[..|p|] == p
  }

  predicate IsDigit(c: char)
  {
    '0' <= c <= '9'
  }

  predicate AllDigits(s: string)
  {
    forall i :: 0 <= i < |s| ==> IsDigit(s[i])
  }

  function DigitChar(d: nat): (c: char)
    requires d < 10
    ensures IsDigit(c) && c as int - '0' as int == d
  {
    ('0' as int + d) as char
  }

  /** `${n}` for a non-negative integer: its decimal digits, most significant first,
      with no leading zero. */
  function NatToString(n: nat): (r: string)
    ensures |r| >= 1 && AllDigits(r)
    ensures r[0] == '0' ==> n == 0 && r == "0"
    decreases n
  {
    if n < 10 then [DigitChar(n)] else NatToString(n / 10) + [DigitChar(n % 10)]
  }

  /** The number a string of decimal digits denotes (the reference reading of `NatToString`). */
  function DigitsValue(s: string): nat
    requires AllDigits(s)
    decreases |s|
  {
    if s == [] then 0
    else DigitsValue(s[..|s| - 1]) * 10 + (s[|s| - 1] as int - '0' as int)
  }

  /** Reading back the decimal text of `n` gives `n`. */
  lemma {:induction false} DigitsValueOfNatToString(n: nat)
    ensures DigitsValue(NatToString(n)) == n
    decreases n
  {
    if n >= 10 {
      var s := NatToString(n);
      assert s[..|s| - 1] == NatToString(n / 10);
      DigitsValueOfNatToString(n / 10);
    }
  }

  /** Different counts render as different texts. */
  lemma NatToStringInjective(a: nat, b: nat)
    requires NatToString(a) == NatToString(b)
    ensures a == b
  {
    DigitsValueOfNatToString(a);
    DigitsValueOfNatToString(b);
  }
}
