/** strconv.FormatInt and FormatUint in base ten, and reading the digits back. */
module Decimal {

  function Digit(d: nat): char
    requires d < 10
  {
    '0' + d as char
  }

  predicate IsDigit(c: char) { '0' <= c <= '9' }

  function Dec(n: nat): (s: string)
    ensures s != "" && forall i :: 0 <= i < |s| ==> IsDigit(s[i])
  {
    if n < 10 then [Digit(n)] else Dec(n / 10) + [Digit(n % 10)]
  }

  /** The value of a string of digits. */
  function Num(s: string): nat
    requires forall i :: 0 <= i < |s| ==> IsDigit(s[i])
  {
    if s == "" then 0 else
      assert IsDigit(s[|s| - 1]);
      Num(s[..|s| - 1]) * 10 + (s[|s| - 1] as int - '0' as int)
  }

  lemma {:induction false} NumDec(n: nat)
    ensures Num(Dec(n)) == n
  {
    if n >= 10 {
      NumDec(n / 10);
      var s := Dec(n);
      assert s[..|s| - 1] == Dec(n / 10);
    }
  }

  lemma DecInjective(m: nat, n: nat)
    requires Dec(m) == Dec(n)
    ensures m == n
  {
    NumDec(m);
    NumDec(n);
  }

  /** How many digits a string starts with. */
  function Digits(s: string): (n: nat)
    ensures n <= |s| && forall i :: 0 <= i < n ==> IsDigit(s[i])
  {
    if s != "" && IsDigit(s[0]) then 1 + Digits(s[1..]) else 0
  }

  lemma {:induction false} DigitsOf(d: string, rest: string)
    requires (forall i :: 0 <= i < |d| ==> IsDigit(d[i])) && (rest == "" || !IsDigit(rest[0]))
    ensures Digits(d + rest) == |d|
  {
    if d == "" {
      assert d + rest == rest;
    } else {
      DigitsOf(d[1..], rest);
      assert (d + rest)[1..] == d[1..] + rest;
    }
  }
}
