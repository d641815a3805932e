/**
 * Integer and real powers of two and ten, the vocabulary of exact statements about scaling.
 *
 * `Pow2` and `Pow10` take natural exponents and give natural numbers; `R2` and `R10` take any
 * integer exponent and give reals. Lemmas that combine powers take the powers as plain numbers,
 * tied to their exponents by equations, so that no product has a power function inside it.
 *
 * At the end are facts about products that the solver is told one instance at a time.
 */
module Powers {
  function Pow2(n: nat): nat {
    if n == 0 then 1 else 2 * Pow2(n - 1)
  }

  lemma {:induction false} Pow2Add(m: nat, n: nat)
    ensures Pow2(m + n) == Pow2(m) * Pow2(n)
    decreases m
  {
    if m > 0 {
      Pow2Add(m - 1, n);
      assert m + n - 1 == m - 1 + n;
      Doubled(Pow2(m - 1), Pow2(n), Pow2(m - 1 + n));
    }
  }

  lemma Doubled(a: nat, b: nat, ab: nat)
    requires ab == a * b
    ensures 2 * ab == (2 * a) * b
  {
  }

  lemma {:induction false} Pow2Monotone(m: nat, n: nat)
    requires m <= n
    ensures 1 <= Pow2(m) <= Pow2(n)
    decreases n
  {
    if m < n {
      Pow2Monotone(m, n - 1);
    } else if m > 0 {
      Pow2Monotone(m - 1, n - 1);
    }
  }

  /** The exact power with an exponent of either sign. */
  function R2(n: int): real
    decreases if n >= 0 then n else -n
  {
    if n == 0 then 1.0 else if n > 0 then 2.0 * R2(n - 1) else 0.5 * R2(n + 1)
  }

  lemma {:induction false} R2Pos(n: int)
    ensures R2(n) > 0.0
    decreases if n >= 0 then n else -n
  {
    if n > 0 {
      R2Pos(n - 1);
    } else if n < 0 {
      R2Pos(n + 1);
    }
  }

  lemma R2Step(n: int)
    ensures R2(n + 1) == 2.0 * R2(n)
  {
  }

  lemma {:induction false} R2Nat(n: nat)
    ensures R2(n) == Pow2(n) as real
  {
    if n > 0 {
      R2Nat(n - 1);
    }
  }

  lemma {:induction false} R2Inverse(n: nat, x: real, y: nat)
    requires x == R2(0 - n) && y == Pow2(n)
    ensures x > 0.0 && y > 0 && x * y as real == 1.0
  {
    if n > 0 {
      var x', y' := R2(1 - n), Pow2(n - 1);
      R2Inverse(n - 1, x', y');
      Cancel(0.5, 2, x', y', x, y);
    }
  }

  lemma {:induction false} R2Shift(n: int, d: nat, x: real, y: real, p: nat)
    requires x == R2(n) && y == R2(n + d) && p == Pow2(d)
    ensures y == p as real * x
  {
    if d > 0 {
      var y', p' := R2(n + d - 1), Pow2(d - 1);
      R2Shift(n, d - 1, x, y', p');
      R2Step(n + d - 1);
      assert p as real == 2.0 * p' as real;
    }
  }

  lemma {:induction false} R2Sum(m: int, n: int, x: real, y: real, xy: real)
    requires x == R2(m) && y == R2(n) && xy == R2(m + n)
    ensures xy == x * y
    decreases if m >= 0 then m else -m
  {
    if m > 0 {
      var x', xy' := R2(m - 1), R2(m - 1 + n);
      R2Sum(m - 1, n, x', y, xy');
      Product(2.0, x', y, xy', x, xy);
    } else if m < 0 {
      var x', xy' := R2(m + 1), R2(m + 1 + n);
      R2Sum(m + 1, n, x', y, xy');
      Quotient(2.0, x, y, xy, x', xy');
    }
  }

  function Pow10(n: nat): nat {
    if n == 0 then 1 else 10 * Pow10(n - 1)
  }

  lemma {:induction false} Pow10Add(m: nat, n: nat)
    ensures Pow10(m + n) == Pow10(m) * Pow10(n)
    decreases m
  {
    if m > 0 {
      Pow10Add(m - 1, n);
      assert m + n - 1 == m - 1 + n;
      assert 10 * (Pow10(m - 1) * Pow10(n)) == (10 * Pow10(m - 1)) * Pow10(n);
    }
  }

  lemma {:induction false} Pow10Monotone(m: nat, n: nat)
    requires m <= n
    ensures 1 <= Pow10(m) <= Pow10(n)
    decreases n
  {
    if m < n {
      Pow10Monotone(m, n - 1);
    } else if m > 0 {
      Pow10Monotone(m - 1, n - 1);
    }
  }

  /** The exact power with an exponent of either sign. */
  function R10(n: int): real
    decreases if n >= 0 then n else -n
  {
    if n == 0 then 1.0 else if n > 0 then 10.0 * R10(n - 1) else 0.1 * R10(n + 1)
  }

  lemma {:induction false} R10Pos(n: int)
    ensures R10(n) > 0.0
    decreases if n >= 0 then n else -n
  {
    if n > 0 {
      R10Pos(n - 1);
    } else if n < 0 {
      R10Pos(n + 1);
    }
  }

  lemma {:induction false} R10Nat(n: nat)
    ensures R10(n) == Pow10(n) as real
  {
    if n > 0 {
      R10Nat(n - 1);
    }
  }

  lemma {:induction false} R10Inverse(n: nat, x: real, y: nat)
    requires x == R10(0 - n) && y == Pow10(n)
    ensures x > 0.0 && y > 0 && x * y as real == 1.0
  {
    if n > 0 {
      var x', y' := R10(1 - n), Pow10(n - 1);
      R10Inverse(n - 1, x', y');
      Cancel(0.1, 10, x', y', x, y);
    }
  }

  lemma {:induction false} R10Sum(m: int, n: int, x: real, y: real, xy: real)
    requires x == R10(m) && y == R10(n) && xy == R10(m + n)
    ensures xy == x * y
    decreases if m >= 0 then m else -m
  {
    if m > 0 {
      var x', xy' := R10(m - 1), R10(m - 1 + n);
      R10Sum(m - 1, n, x', y, xy');
      Product(10.0, x', y, xy', x, xy);
    } else if m < 0 {
      var x', xy' := R10(m + 1), R10(m + 1 + n);
      R10Sum(m + 1, n, x', y, xy');
      Quotient(10.0, x, y, xy, x', xy');
    }
  }

  // Steps of nonlinear arithmetic, each small enough to be found without search.

  lemma Product(b: real, x: real, y: real, xy: real, bx: real, bxy: real)
    requires xy == x * y && bx == b * x && bxy == b * xy
    ensures bxy == bx * y
  {
  }

  lemma Quotient(b: real, x: real, y: real, xy: real, bx: real, bxy: real)
    requires b > 0.0 && bx == b * x && bxy == b * xy && bxy == bx * y
    ensures xy == x * y
  {
    assert b * xy == b * (x * y);
  }

  lemma Cancel(inv: real, b: nat, x: real, y: nat, ix: real, yb: nat)
    requires inv * b as real == 1.0 && x * y as real == 1.0
    requires ix == inv * x && yb == b * y
    ensures ix * yb as real == 1.0
  {
    assert yb as real == b as real * y as real;
    assert ix * (b as real * y as real) == (inv * b as real) * (x * y as real);
  }

  lemma ProductReal(a: nat, b: nat)
    ensures (a * b) as real == a as real * b as real
  {
  }

  lemma MulLessEq(a: int, x: int, y: int)
    requires a >= 0 && x <= y
    ensures a * x <= a * y
  {
  }

  lemma RMulLess(a: real, x: real, y: real)
    requires a > 0.0 && x < y
    ensures a * x < a * y
  {
  }

  lemma RMulLessEq(a: real, x: real, y: real)
    requires a >= 0.0 && x <= y
    ensures a * x <= a * y
  {
  }
}
