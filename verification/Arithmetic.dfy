/**
 * Products and quotients of naturals by repeated addition and subtraction, which keeps proofs
 * that only count groups out of non-linear arithmetic: `Times` is `*`, `Quotient` floor division.
 */
module Arithmetic {

  function Times(a: nat, b: nat): nat {
    if b == 0 then 0 else a + Times(a, b - 1)
  }

  function Quotient(n: nat, d: nat): nat
    requires d >= 1
    decreases n
  {
    if n < d then 0 else 1 + Quotient(n - d, d)
  }

  lemma {:induction false} TimesIsProduct(a: nat, b: nat)
    ensures Times(a, b) == a * b
  {
    if b > 0 {
      TimesIsProduct(a, b - 1);
      assert a * b == a + a * (b - 1);
    }
  }

  /** The quotient is floor division. */
  lemma {:induction false} QuotientIsFloor(n: nat, d: nat)
    requires d >= 1
    ensures d * Quotient(n, d) <= n < d * Quotient(n, d) + d
    decreases n
  {
    if n >= d {
      var q := Quotient(n - d, d);
      QuotientIsFloor(n - d, d);
      assert d * (1 + q) == d + d * q;
    }
  }

  lemma {:induction false} TimesMonotone(a: nat, b: nat, c: nat)
    requires b <= c
    ensures Times(a, b) <= Times(a, c)
    decreases c
  {
    if b < c {
      TimesMonotone(a, b, c - 1);
    }
  }

  lemma {:induction false} TimesOne(b: nat)
    ensures Times(1, b) == b
  {
    if b > 0 {
      TimesOne(b - 1);
    }
  }

  /** The quotient is the largest number of times `d` fits into `n`. */
  lemma {:induction false} QuotientFits(n: nat, d: nat, a: nat)
    requires d >= 1
    ensures Times(d, a) <= n <==> a <= Quotient(n, d)
    decreases n
  {
    if a > 0 && n >= d {
      QuotientFits(n - d, d, a - 1);
    }
  }
}
