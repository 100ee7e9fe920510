/** The JavaScript values that arrive in event payloads, and the coercions the
    clients apply to them (`String(x)`, `Number(x)`, truthiness, `||`, `??`). */
module Js {
  import opened Strings

  datatype Option<+T> = None | Some(value: T)

  /** A payload field: every shape the clients distinguish. Numbers are integers. */
  datatype Scalar = Undefined | Null | Bool(b: bool) | Num(n: int) | Text(s: string)

  /** JavaScript truthiness. */
  predicate Truthy(v: Scalar) {
    match v
    case Undefined => false
    case Null => false
    case Bool(b) => b
    case Num(n) => n != 0
    case Text(s) => s != ""
  }

  /** `a || b` */
  function Or(a: Scalar, b: Scalar): (r: Scalar)
    ensures Truthy(a) ==> r == a
    ensures !Truthy(a) ==> r == b
  {
    if Truthy(a) then a else b
  }

  /** `a ?? b` */
  function Coalesce(a: Scalar, b: Scalar): (r: Scalar)
    ensures (a.Undefined? || a.Null?) ==> r == b
    ensures !(a.Undefined? || a.Null?) ==> r == a
  {
    if a.Undefined? || a.Null? then b else a
  }

  /** `String(v)` */
  function ToStr(v: Scalar): string {
    match v
    case Undefined => "undefined"
    case Null => "null"
    case Bool(b) => if b then "true" else "false"
    case Num(n) => IntToString(n)
    case Text(s) => s
  }

  /** `String(v) === ""` only for the empty text. */
  lemma ToStrEmpty(v: Scalar)
    ensures ToStr(v) == "" <==> v == Text("")
  {
  }

  /** The value of an optionally signed run of decimal digits. */
  function ParseInteger(s: string): Option<int> {
    if s != [] && AllDigits(s) then Some(ParseDigits(s))
    else if |s| >= 2 && s[0] == '-' && AllDigits(s[1..]) then Some(-(ParseDigits(s[1..]) as int))
    else if |s| >= 2 && s[0] == '+' && AllDigits(s[1..]) then Some(ParseDigits(s[1..]))
    else None
  }

  /** `Number(v)`, with `None` standing for NaN and for every value that is not a
      finite integer. A string is trimmed first and the empty string is 0. */
  function ToNumber(v: Scalar): Option<int> {
    match v
    case Undefined => None
    case Null => Some(0)
    case Bool(b) => Some(if b then 1 else 0)
    case Num(n) => Some(n)
    case Text(s) => if Trim(s) == "" then Some(0) else ParseInteger(Trim(s))
  }

  /** `Number(String(n)) === n` for every integer. */
  lemma NumberOfIntString(n: int)
    ensures ToNumber(Text(IntToString(n))) == Some(n)
  {
    if n >= 0 {
      NumberOfDigits(n);
    } else {
      NumberOfNegative(n);
    }
  }

  lemma NumberOfDigits(n: nat)
    ensures ToNumber(Text(Digits(n))) == Some(n)
  {
    var s := Digits(n);
    assert IsDigit(s[0]) && IsDigit(s[|s| - 1]);
    TrimOfDigitsString(s);
    DigitsRoundTrip(n);
    assert ParseInteger(s) == Some(ParseDigits(s));
  }

  lemma NumberOfNegative(n: int)
    requires n < 0
    ensures ToNumber(Text("-" + Digits(-n))) == Some(n)
  {
    var d := Digits(-n);
    var s := "-" + d;
    assert s[1..] == d;
    assert s[|s| - 1] == d[|d| - 1];
    assert IsDigit(d[|d| - 1]);
    TrimOfDigitsString(s);
    DigitsRoundTrip(-n);
    assert !IsDigit(s[0]);
    assert ParseInteger(s) == Some(-(ParseDigits(d) as int));
  }

  lemma TrimOfDigitsString(s: string)
    requires s != [] && !IsJsSpace(s[0]) && !IsJsSpace(s[|s| - 1])
    ensures Trim(s) == s
  {
  }
}
