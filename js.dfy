/** The slice of JavaScript value semantics that the list pages depend on:
    truthiness of ids and of optional strings, the `a || b || fallback` chain,
    and `String(n)` / template interpolation of integers. */
module Js {

  datatype Option<+T> = None | Some(value: T)

  /** A record id as the server sends it: `null`, a number or a string. */
  datatype Id = Null | Num(n: int) | Str(s: string)

  /** Truthiness of an id, as tested by `if (editingId)`: null, 0 and "" are falsy. */
  function IdTruthy(id: Id): (b: bool)
    ensures b <==> id != Null && id != Num(0) && id != Str("")
  {
    match id
    case Null => false
    case Num(n) => n != 0
    case Str(s) => s != ""
  }

  /** Truthiness of an optionally chained string such as `err.response?.data?.message`:
      `None` stands for `undefined`; the empty string is falsy too. */
  predicate StrTruthy(o: Option<string>)
  {
    o.Some? && o.value != ""
  }

  /** `cs[0] || cs[1] || ... || fallback`: the first truthy candidate, else the fallback. */
  function FirstTruthy(cs: seq<Option<string>>, fallback: string): (r: string)
    ensures (forall i | 0 <= i < |cs| :: !StrTruthy(cs[i])) ==> r == fallback
    ensures forall i | 0 <= i < |cs| && StrTruthy(cs[i]) ::
              (forall j | 0 <= j < i :: !StrTruthy(cs[j])) ==> r == cs[i].value
    ensures fallback != "" ==> r != ""
  {
    if |cs| == 0 then fallback
    else if StrTruthy(cs[0]) then cs[0].value
    else
      var rest := FirstTruthy(cs[1..], fallback);
      assert forall i | 1 <= i < |cs| :: cs[i] == cs[1..][i - 1];
      rest
  }

  predicate IsDigit(c: char)
  {
    '0' <= c <= '9'
  }

  predicate AllDigits(s: string)
  {
    forall i | 0 <= i < |s| :: IsDigit(s[i])
  }

  function DigitChar(d: nat): (c: char)
    requires d < 10
    ensures IsDigit(c)
  {
    ('0' as int + d) as char
  }

  function DigitValue(c: char): (d: nat)
    requires IsDigit(c)
    ensures d < 10
  {
    c as int - '0' as int
  }

  /** Decimal digits of a natural number, most significant first, no leading zeros. */
  function NatToString(n: nat): (s: string)
    ensures |s| > 0 && AllDigits(s)
    ensures n > 0 ==> s[0] != '0'
    decreases n
  {
    if n < 10 then [DigitChar(n)] else NatToString(n / 10) + [DigitChar(n % 10)]
  }

  /** `String(n)` (and `${n}`) for an integer-valued number. */
  function IntToString(n: int): (s: string)
    ensures |s| > 0
    ensures s[0] == '-' <==> n < 0
    ensures if n < 0 then |s| > 1 && AllDigits(s[1..]) else AllDigits(s)
    ensures n != 0 ==> s[if n < 0 then 1 else 0] != '0'
  {
    if n < 0 then "-" + NatToString(-n) else NatToString(n)
  }

  /** The value of a string of decimal digits. */
  function DigitsValue(s: string): nat
    requires AllDigits(s)
  {
    if s == [] then 0 else DigitsValue(s[..|s| - 1]) * 10 + DigitValue(s[|s| - 1])
  }

  /** Reading an optionally signed decimal integer back from a string: the reference
      inverse of IntToString, as a numeric input or the server would read it. */
  function ParseInt(s: string): Option<int>
  {
    if |s| > 1 && s[0] == '-' && AllDigits(s[1..]) then Some(0 - DigitsValue(s[1..]) as int)
    else if |s| > 0 && AllDigits(s) then Some(DigitsValue(s))
    else None
  }

  lemma {:induction false} DigitsRoundTrip(n: nat)
    ensures DigitsValue(NatToString(n)) == n
  {
    if n >= 10 {
      var s := NatToString(n);
      assert s[..|s| - 1] == NatToString(n / 10);
      DigitsRoundTrip(n / 10);
    }
  }

  /** Stringifying an integer loses nothing: it reads back as the same integer. */
  lemma ParseIntRoundTrip(n: int)
    ensures ParseInt(IntToString(n)) == Some(n)
  {
    if n < 0 {
      var s := IntToString(n);
      assert s[1..] == NatToString(-n);
      DigitsRoundTrip(-n);
    } else {
      DigitsRoundTrip(n);
    }
  }

  /** Distinct integers have distinct decimal strings. */
  lemma IntToStringInjective(a: int, b: int)
    requires IntToString(a) == IntToString(b)
    ensures a == b
  {
    ParseIntRoundTrip(a);
    ParseIntRoundTrip(b);
  }

  /** `${id}` in a template literal. */
  function IdToString(id: Id): string
  {
    match id
    case Null => "null"
    case Num(n) => IntToString(n)
    case Str(s) => s
  }
}
