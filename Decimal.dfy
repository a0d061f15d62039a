/** Row numbers in address text: natural numbers <-> decimal digit strings. */
module Decimal {
  import opened Outcomes
  import Arithmetic

  predicate IsDigit(c: char) {
    '0' <= c <= '9'
  }

  predicate AllDigits(s: string) {
    forall k :: 0 <= k < |s| ==> IsDigit(s[k])
  }

  /** A digit string as rendered: no leading zero unless it is "0" itself. */
  predicate IsCanonical(s: string) {
    |s| >= 1 && AllDigits(s) && (s[0] == '0' ==> |s| == 1)
  }

  function DigitValue(c: char): (d: nat)
    requires IsDigit(c)
    ensures d < 10
  {
    c as int - '0' as int
  }

  function Digit(d: nat): (c: char)
    requires d < 10
    ensures IsDigit(c) && DigitValue(c) == d
  {
    ('0' as int + d) as char
  }

  /** The value of a digit string, most significant digit first. */
  function Value(s: string): nat
    requires AllDigits(s)
  {
    if |s| == 0 then 0 else Value(s[..|s| - 1]) * 10 + DigitValue(s[|s| - 1])
  }

  /** The decimal rendering of a natural number, without leading zeros. */
  function Show(n: nat): (s: string)
    ensures IsCanonical(s)
    ensures s[0] == '0' <==> n == 0
  {
    if n < 10 then [Digit(n)] else Show(n / 10) + [Digit(n % 10)]
  }

  /** A row number in address text: one or more decimal digits. */
  function ParseNat(s: string): (r: Result<nat>)
    ensures r.Ok? <==> |s| >= 1 && AllDigits(s)
    ensures r.Err? ==> r.error == FormatError
  {
    if |s| >= 1 && AllDigits(s) then Ok(Value(s)) else Err(FormatError)
  }

  /** Parsing a rendered number gives the number back. */
  lemma {:induction false} ParseShow(n: nat)
    ensures ParseNat(Show(n)) == Ok(n)
  {
    if n >= 10 {
      ParseShow(n / 10);
      var s := Show(n);
      assert s[..|s| - 1] == Show(n / 10);
      assert Value(s) == (n / 10) * 10 + n % 10;
    }
  }

  /** A digit string whose first digit is not zero has a positive value. */
  lemma {:induction false} ValuePositive(s: string)
    requires AllDigits(s) && |s| >= 1 && s[0] != '0'
    ensures Value(s) >= 1
    decreases |s|
  {
    if |s| > 1 {
      ValuePositive(s[..|s| - 1]);
    }
  }

  /** Rendering a canonical digit string's value gives the string back. */
  lemma {:induction false} ShowValue(s: string)
    requires IsCanonical(s)
    ensures Show(Value(s)) == s
    decreases |s|
  {
    var n := |s|;
    if n > 1 {
      var prefix := s[..n - 1];
      ShowValue(prefix);
      ValuePositive(prefix);
      var d := DigitValue(s[n - 1]);
      var v := Value(s);
      assert v == Value(prefix) * 10 + d;
      Arithmetic.DivModUnique(Value(prefix), d, 10);
      assert s == prefix + [s[n - 1]];
    }
  }
}
