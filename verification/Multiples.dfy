/** Whole numbers of samples. */
module Multiples {

  function Times(k: int, n: nat): int {
    k * n
  }

  ghost predicate Multiple(x: int, n: nat) {
    exists k: int :: x == Times(k, n)
  }

  lemma TimesOrder(x: int, y: int, n: nat)
    requires x <= y
    ensures x * n <= y * n
  {
  }

  lemma Quotient(x: nat, n: nat)
    requires n >= 1
    ensures x / n * n <= x < (x / n + 1) * n
  {
    assert x == x / n * n + x % n;
    assert (x / n + 1) * n == x / n * n + n;
  }

  lemma Exact(k: nat, n: nat)
    requires n >= 1
    ensures Times(k, n) / n == k
  {
    var x := k * n;
    var q := x / n;
    assert q * n <= x < (q + 1) * n by { Quotient(x, n); }
    if q < k {
      TimesOrder(q + 1, k, n);
    } else if q > k {
      TimesOrder(k + 1, q, n);
    }
  }

  lemma TimesSum(a: int, b: int, n: nat)
    ensures Times(a + b, n) == Times(a, n) + Times(b, n)
  {
  }

  /** Whole numbers of samples add up. */
  lemma MultipleSum(x: nat, y: nat, n: nat)
    requires n >= 1 && Multiple(x, n) && Multiple(y, n)
    ensures Multiple(x + y, n) && (x + y) / n == x / n + y / n
    ensures x / n * n == x
  {
    hide Times;
    var a: int :| x == Times(a, n);
    var b: int :| y == Times(b, n);
    TimesSum(a, b, n);
    TimesNatural(a, n);
    TimesNatural(b, n);
    Exact(a, n);
    Exact(b, n);
    Exact(a + b, n);
    assert x / n * n == Times(a, n) by { TimesDef(a, n); }
  }

  lemma TimesDef(a: int, n: nat)
    ensures Times(a, n) == a * n
  {
  }

  lemma TimesNatural(a: int, n: nat)
    requires n >= 1 && Times(a, n) >= 0
    ensures a >= 0
  {
    if a < 0 {
      TimesOrder(a, -1, n);
    }
  }

  lemma MultipleDifference(x: nat, y: nat, n: nat)
    requires n >= 1 && Multiple(x, n) && Multiple(y, n) && y <= x
    ensures Multiple(x - y, n)
  {
    hide Times;
    var a: int :| x == Times(a, n);
    var b: int :| y == Times(b, n);
    TimesSum(a - b, b, n);
    assert x - y == Times(a - b, n);
  }
}
