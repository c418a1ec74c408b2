/** What several modules share. */
module Basics {
  datatype Option<T> = None | Some(value: T)

  /** strings.HasPrefix */
  predicate HasPrefix(s: string, prefix: string) { |prefix| <= |s| && s[..|prefix|] == prefix }

  // Sums

  function Total(f: nat -> int, n: nat): int { if n == 0 then 0 else Total(f, n - 1) + f(n - 1) }

  lemma {:induction false} TotalSame(f: nat -> int, g: nat -> int, n: nat)
    requires forall t: nat :: t < n ==> f(t) == g(t)
    ensures Total(f, n) == Total(g, n)
  {
    if n > 0 { TotalSame(f, g, n - 1); }
  }

  /** Two sums that differ in one term. */
  lemma {:induction false} TotalOne(f: nat -> int, g: nat -> int, n: nat, j: nat)
    requires j < n && forall t: nat :: t < n && t != j ==> f(t) == g(t)
    ensures Total(g, n) == Total(f, n) - f(j) + g(j)
  {
    if j == n - 1 { TotalSame(f, g, n - 1); } else { TotalOne(f, g, n - 1, j); }
  }

  lemma {:induction false} TotalZero(f: nat -> int, n: nat)
    requires forall t: nat :: t < n ==> f(t) == 0
    ensures Total(f, n) == 0
  {
    if n > 0 { TotalZero(f, n - 1); }
  }

  lemma {:induction false} TotalNatural(f: nat -> int, n: nat)
    requires forall t: nat :: t < n ==> f(t) >= 0
    ensures Total(f, n) >= 0
  {
    if n > 0 { TotalNatural(f, n - 1); }
  }
}
