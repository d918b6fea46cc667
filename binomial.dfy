/**
 * Binomial coefficients by Pascal's rule, and the facts the capped
 * multiplicative computation of C(n, k) in the solver relies on: the
 * product-quotient step is exact, the coefficients are symmetric, and they
 * grow up to the middle of the row.
 */
module Binomial {

  /** C(n, k): the number of k-element subsets of an n-element set. */
  function Binom(n: nat, k: nat): nat
    decreases n
  {
    if k == 0 then 1
    else if n == 0 then 0
    else Binom(n - 1, k - 1) + Binom(n - 1, k)
  }

  /** There are no subsets larger than the set. */
  lemma {:induction false} BinomAbove(n: nat, k: nat)
    requires k > n
    ensures Binom(n, k) == 0
    decreases n
  {
    if n > 0 {
      BinomAbove(n - 1, k - 1);
      BinomAbove(n - 1, k);
    }
  }

  /** The whole set is its only n-element subset. */
  lemma {:induction false} BinomAll(n: nat)
    ensures Binom(n, n) == 1
  {
    if n > 0 {
      BinomAll(n - 1);
      BinomAbove(n - 1, n);
    }
  }

  /** There are n one-element subsets. */
  lemma {:induction false} BinomOne(n: nat)
    ensures Binom(n, 1) == n
  {
    if n > 0 {
      BinomOne(n - 1);
    }
  }

  /** Absorption: k * C(n, k) == n * C(n - 1, k - 1). */
  lemma {:induction false} Absorption(n: nat, k: nat)
    requires 1 <= k && 1 <= n
    ensures k * Binom(n, k) == n * Binom(n - 1, k - 1)
    decreases n
  {
    if k == 1 {
      BinomOne(n);
    } else if n == 1 {
      BinomAbove(0, k - 1);
      BinomAbove(1, k);
    } else {
      Absorption(n - 1, k - 1);
      Absorption(n - 1, k);
      AbsorptionStep(n, k, Binom(n - 1, k - 1), Binom(n - 1, k), Binom(n - 2, k - 2), Binom(n - 2, k - 1));
    }
  }

  /** The arithmetic of the inductive step of `Absorption`, on the coefficients as plain numbers. */
  lemma AbsorptionStep(n: int, k: int, a: int, b: int, c: int, d: int)
    requires (k - 1) * a == (n - 1) * c && k * b == (n - 1) * d && c + d == a
    ensures k * (a + b) == n * a
  {
    calc {
      k * (a + b);
      (k - 1) * a + a + k * b;
      (n - 1) * c + a + (n - 1) * d;
      (n - 1) * (c + d) + a;
      n * a;
    }
  }

  /**
   * The step of the multiplicative formula: (i + 1) * C(n, i + 1) == (n - i) * C(n, i),
   * so `C(n, i) * (n - i) // (i + 1)` divides exactly and yields C(n, i + 1).
   */
  lemma BinomStep(n: nat, i: nat)
    requires i < n
    ensures (i + 1) * Binom(n, i + 1) == (n - i) * Binom(n, i)
    ensures Binom(n, i) * (n - i) / (i + 1) == Binom(n, i + 1)
  {
    Absorption(n, i + 1);
    if i == 0 {
      assert Binom(n - 1, 0) == 1 && Binom(n, 0) == 1;
    } else {
      Absorption(n, i);
      StepArith(n, i, Binom(n, i), Binom(n - 1, i - 1), Binom(n - 1, i));
    }
    DivExact(Binom(n, i + 1), i + 1, Binom(n, i) * (n - i));
  }

  /** (n - i) * C(n, i) == n * C(n, i) - i * C(n, i) == n * C(n, i) - n * C(n - 1, i - 1) == n * C(n - 1, i). */
  lemma StepArith(n: int, i: int, a: int, b: int, c: int)
    requires i * a == n * b && a == b + c
    ensures (n - i) * a == n * c
  {
    calc {
      (n - i) * a;
      n * a - i * a;
      n * a - n * b;
      n * (a - b);
      n * c;
    }
  }

  /** A product divided by one of its factors gives back the other. */
  lemma DivExact(q: int, d: int, p: int)
    requires d > 0 && p == d * q
    ensures p / d == q
  {
    var r, m := p / d, p % d;
    assert p == d * r + m && 0 <= m < d;
    assert d * (q - r) == m by {
      calc {
        d * (q - r);
        d * q - d * r;
        p - d * r;
        m;
      }
    }
    if q > r {
      MulAtLeast(d, q - r);
    } else if q < r {
      MulAtLeast(d, r - q);
    }
  }

  lemma MulAtLeast(d: int, x: int)
    requires d > 0 && x >= 1
    ensures d * x >= d
  {
    assert d * x == d * (x - 1) + d;
    assert d * (x - 1) >= 0;
  }

  /** Symmetry: choosing k is choosing the n - k to leave out. */
  lemma {:induction false} BinomSymmetric(n: nat, k: nat)
    requires k <= n
    ensures Binom(n, k) == Binom(n, n - k)
    decreases n
  {
    if k == 0 {
      BinomAll(n);
    } else if k == n {
      BinomAll(n);
    } else {
      BinomSymmetric(n - 1, k - 1);
      BinomSymmetric(n - 1, k);
      assert Binom(n, n - k) == Binom(n - 1, n - k - 1) + Binom(n - 1, n - k);
    }
  }

  /** Up to the middle of the row the coefficients do not decrease. */
  lemma {:induction false} BinomGrows(n: nat, j: nat, m: nat)
    requires j <= m && 2 * m <= n
    ensures Binom(n, j) <= Binom(n, m)
    decreases m - j
  {
    if j < m {
      BinomGrows(n, j + 1, m);
      BinomStep(n, j);
      GrowArith(j + 1, n - j, Binom(n, j), Binom(n, j + 1));
    }
  }

  /** If u * b == v * a with v >= u > 0 and a >= 0, then b >= a. */
  lemma GrowArith(u: int, v: int, a: int, b: int)
    requires 0 < u <= v && 0 <= a && u * b == v * a
    ensures a <= b
  {
    assert v * a >= u * a by {
      assert v * a - u * a == (v - u) * a;
    }
    if b < a {
      assert u * (a - b) > 0 by {
        MulAtLeast(u, a - b);
      }
    }
  }
}

