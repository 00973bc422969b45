/** Decimal text of an integer, as Go's `fmt.Sprintf("%d", n)` produces it:
    an optional '-' followed by the digits of the magnitude, most significant
    first, with no leading zeros. `writeStats` sends a user's id a second time
    in this form. */
module Decimal {
  import opened Outcomes
  import opened Primitives

  const Minus: byte := 0x2D  // '-'
  const Zero: byte := 0x30   // '0'

  predicate IsDigit(b: byte) {
    Zero <= b <= Zero + 9
  }

  /** The digits of `n`, most significant first. */
  function Digits(n: nat): (d: Str)
    ensures 1 <= |d|
    ensures forall i :: 0 <= i < |d| ==> IsDigit(d[i])
    ensures n != 0 ==> d[0] != Zero
    decreases n
  {
    if n < 10 then [Zero + n] else Digits(n / 10) + [Zero + n % 10]
  }

  function Format(n: int): (d: Str)
    ensures 1 <= |d|
    ensures n < 0 <==> d[0] == Minus
  {
    if n < 0 then [Minus] + Digits(-n) else Digits(n)
  }

  /** The value of a digit string, read most significant digit first. */
  function DigitsValue(d: Str): nat
    requires forall i :: 0 <= i < |d| ==> IsDigit(d[i])
  {
    if |d| == 0 then 0
    else
      assert IsDigit(d[|d| - 1]);
      10 * DigitsValue(d[..|d| - 1]) + (d[|d| - 1] as int - Zero as int)
  }

  /** A reader of `%d` text: the independent partner of `Format`. */
  function Parse(d: Str): (r: Option<int>)
    ensures r.Some? ==> 1 <= |d|
  {
    if |d| == 0 then None
    else if d[0] == Minus then
      if 1 < |d| && forall i :: 1 <= i < |d| ==> IsDigit(d[i]) then
        var magnitude: int := DigitsValue(d[1..]);
        Some(-magnitude)
      else None
    else if forall i :: 0 <= i < |d| ==> IsDigit(d[i]) then Some(DigitsValue(d))
    else None
  }

  lemma {:induction false} DigitsValueOfDigits(n: nat)
    ensures DigitsValue(Digits(n)) == n
    decreases n
  {
    if n >= 10 {
      var d := Digits(n);
      assert d[..|d| - 1] == Digits(n / 10);
      DigitsValueOfDigits(n / 10);
    }
  }

  lemma ParseUnsigned(d: Str)
    requires 1 <= |d| && forall i :: 0 <= i < |d| ==> IsDigit(d[i])
    ensures Parse(d) == Some(DigitsValue(d) as int)
  {
    assert IsDigit(d[0]);
  }

  lemma ParseNegative(d: Str)
    requires 1 <= |d| && forall i :: 0 <= i < |d| ==> IsDigit(d[i])
    ensures Parse([Minus] + d) == Some(-(DigitsValue(d) as int))
  {
    var t := [Minus] + d;
    assert t[1..] == d;
    assert forall i :: 1 <= i < |t| ==> t[i] == d[i - 1];
  }

  /** Reading back the `%d` text of any integer gives the integer. */
  lemma FormatRoundTrip(n: int)
    ensures Parse(Format(n)) == Some(n)
  {
    if n < 0 {
      DigitsValueOfDigits(-n);
      ParseNegative(Digits(-n));
    } else {
      DigitsValueOfDigits(n);
      ParseUnsigned(Digits(n));
    }
  }

  /** Distinct integers have distinct `%d` texts. */
  lemma FormatInjective(m: int, n: int)
    requires Format(m) == Format(n)
    ensures m == n
  {
    FormatRoundTrip(m);
    FormatRoundTrip(n);
  }
}
