/** The JavaScript values the services' code inspects: identifiers tested
    for truthiness, and numbers rendered into messages by template literals. */
module JsValues {
  import opened Wrappers

  /** An identifier as a request may carry it: JavaScript code receives
      either a number or a string. */
  datatype Id = Num(n: int) | Str(s: string)

  /** JavaScript truthiness of an optional identifier: an absent value,
      the number 0 and the empty string are falsy, everything else is truthy. */
  predicate Truthy(v: Option<Id>)
  {
    match v
    case None => false
    case Some(Num(n)) => n != 0
    case Some(Str(s)) => s != ""
  }

  function Digit(d: nat): (c: char)
    requires d < 10
    ensures c as int == '0' as int + d
  {
    ['0', '1', '2', '3', '4', '5', '6', '7', '8', '9'][d]
  }

  predicate AllDigits(s: string)
  {
    forall i :: 0 <= i < |s| ==> '0' <= s[i] <= '9'
  }

  /** The number a string of decimal digits denotes. */
  function DigitsValue(s: string): nat
    requires AllDigits(s)
    decreases |s|
  {
    if s == [] then 0
    else DigitsValue(s[..|s| - 1]) * 10 + (s[|s| - 1] as int - '0' as int)
  }

  /** Decimal rendering of a natural number, as a template literal prints it
      for the whole numbers a JavaScript number holds exactly (below 2^53). */
  function Decimal(n: nat): (r: string)
    ensures |r| >= 1 && AllDigits(r)
    decreases n
  {
    if n < 10 then [Digit(n)] else Decimal(n / 10) + [Digit(n % 10)]
  }

  /** The rendering denotes the number rendered, so no two numbers print alike. */
  lemma {:induction false} DecimalDenotes(n: nat)
    ensures DigitsValue(Decimal(n)) == n
    decreases n
  {
    var r := Decimal(n);
    if n < 10 {
      assert r[..|r| - 1] == [];
    } else {
      DecimalDenotes(n / 10);
      assert r[..|r| - 1] == Decimal(n / 10);
    }
  }
}
