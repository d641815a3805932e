/** The allocator's size classes: 8, multiples of 16 up to 128, then four to each power of two. */
module SizeClass {
  import opened Powers
  import opened Words

  /** The position of the highest one bit. */
  function Log2(m: nat): nat
    requires m > 0
  {
    if m == 1 then 0 else 1 + Log2(m / 2)
  }

  lemma {:induction false} Log2Bounds(m: nat)
    requires m > 0
    ensures Pow2(Log2(m)) <= m < 2 * Pow2(Log2(m))
  {
    if m > 1 {
      Log2Bounds(m / 2);
    }
  }

  /** `(n + step - 1) & ~(step - 1)` for a power of two. */
  function RoundUp(n: nat, step: nat): nat
    requires step > 0
  {
    (n + step - 1) / step * step
  }

  function GoodSize(n: nat): nat {
    if n == 0 then 0
    else if n <= 8 then 8
    else if n <= 128 then RoundUp(n, 16)
    else
      Group(n);
      RoundUp(n, Step(n))
  }

  /** A quarter of the power of two below `n`. */
  function Step(n: nat): nat
    requires n > 128
  {
    Group(n);
    Pow2(Log2(n - 1) - 2)
  }

  /** A class above 128: `2^k` and `j` quarters of it. */
  predicate Quarter(c: nat, k: nat, j: nat) {
    k >= 7 && 1 <= j <= 4 && c == Pow2(k) + j * Pow2(k - 2)
  }

  ghost predicate IsClass(c: nat) {
    c == 8 || (16 <= c <= 128 && c % 16 == 0) || exists k: nat, j: nat :: Quarter(c, k, j)
  }

  // ---- one group ---------------------------------------------------------------------------------------

  /** The quarter step of the group that holds `n`. */
  lemma Group(n: nat)
    requires n > 128
    ensures var k := Log2(n - 1);
      k >= 7 && Pow2(k) == 4 * Pow2(k - 2) && 4 * Pow2(k - 2) < n <= 8 * Pow2(k - 2) && Pow2(k - 2) > 0
  {
    var k := Log2(n - 1);
    Log2Bounds(n - 1);
    assert Pow2(6) == 64;
    if k < 7 {
      Pow2Monotone(k, 6);
      assert false;
    }
    assert Pow2(k) == 2 * Pow2(k - 1) && Pow2(k - 1) == 2 * Pow2(k - 2);
  }

  lemma Multiple(n: nat, step: nat, j: nat)
    requires step > 0 && j * step - step < n <= j * step
    ensures RoundUp(n, step) == j * step
  {
    var q, r := (n + step - 1) / step, (n + step - 1) % step;
    assert n + step - 1 == q * step + r;
    Apart(q, j, step);
    Apart(j, q, step);
  }

  lemma Apart(a: int, b: int, step: nat)
    ensures a < b ==> a * step + step <= b * step
  {
    if a < b {
      MulLessEq(step, a + 1, b);
      assert step * (a + 1) == a * step + step;
    }
  }

  /** Rounding within a group gives one of its four classes. */
  lemma InGroup(n: nat, step: nat) returns (j: nat)
    requires step > 0 && 4 * step < n <= 8 * step
    ensures 5 <= j <= 8 && RoundUp(n, step) == j * step && j * step - step < n <= j * step
  {
    j := if n <= 5 * step then 5 else if n <= 6 * step then 6 else if n <= 7 * step then 7 else 8;
    Multiple(n, step, j);
  }

  /** Another class of the same range is in the same group. */
  lemma SameGroup(c: nat, k: nat, other: nat, j: nat)
    requires k >= 7 && Quarter(c, other, j) && Pow2(k) < c < 2 * Pow2(k)
    ensures other == k
  {
    Pow2Quarters(other);
    assert Pow2(other) < c <= 2 * Pow2(other);
    if other < k {
      Pow2Monotone(other + 1, k);
      assert false;
    }
    if other > k {
      Pow2Monotone(k + 1, other);
      assert false;
    }
  }

  lemma Pow2Quarters(k: nat)
    requires k >= 2
    ensures Pow2(k) == 4 * Pow2(k - 2)
  {
    assert Pow2(k) == 2 * Pow2(k - 1) && Pow2(k - 1) == 2 * Pow2(k - 2);
  }

  // ---- the least class ---------------------------------------------------------------------------------

  lemma SmallLeast(n: nat, c: nat)
    requires 1 <= n <= 128
    ensures IsClass(GoodSize(n)) && n <= GoodSize(n) <= 128
    ensures n <= c < GoodSize(n) ==> !IsClass(c)
  {
    if exists k: nat, j: nat :: Quarter(c, k, j) {
      var k: nat, j: nat :| Quarter(c, k, j);
      Large(c, k, j);
    }
  }

  lemma Large(c: nat, k: nat, j: nat)
    requires Quarter(c, k, j)
    ensures c > 128
  {
    Pow2Monotone(7, k);
    Pow2Monotone(0, k - 2);
    assert Pow2(7) == 128;
  }

  lemma QuarterProduct(c: nat, k: nat, j: nat)
    requires Quarter(c, k, j)
    ensures c == (4 + j) * Pow2(k - 2)
  {
    Pow2Quarters(k);
  }

  lemma GroupLeast(n: nat, c: nat, k: nat, j: nat)
    requires n > 128 && Quarter(c, k, j) && n <= c
    ensures GoodSize(n) <= c
  {
    Group(n);
    var top := Log2(n - 1);
    var step := Pow2(top - 2);
    var q := InGroup(n, step);
    if c < 8 * step {
      Pow2Quarters(top);
      SameGroup(c, top, k, j);
      QuarterProduct(c, k, j);
      AtLeast(4 + j, q, step, n);
    } else {
      MulLessEq(step, q, 8);
    }
  }

  /** A multiple that reaches `n` reaches the multiple `n` was rounded up to. */
  lemma AtLeast(a: nat, q: nat, step: nat, n: nat)
    requires q * step - step < n <= a * step
    ensures q * step <= a * step
  {
    assert step * (q - 1) == q * step - step;
    if a < q {
      MulLessEq(step, a, q - 1);
      assert false;
    } else {
      MulLessEq(step, q, a);
    }
  }

  /** Every request gets the least class that holds it, and the sum that rounds it stays in 64 bits. */
  lemma GoodSizeLeast(n: nat)
    requires 1 <= n <= TWO_63
    ensures IsClass(GoodSize(n)) && n <= GoodSize(n)
    ensures forall c: nat :: n <= c < GoodSize(n) ==> !IsClass(c)
    ensures n > 128 ==> n + Step(n) - 1 < TWO_64
  {
    if n <= 128 {
      SmallLeast(n, n);
      forall c: nat | n <= c < GoodSize(n)
        ensures !IsClass(c)
      {
        SmallLeast(n, c);
      }
    } else {
      LargeIsClass(n);
      forall c: nat | n <= c < GoodSize(n)
        ensures !IsClass(c)
      {
        if exists k: nat, j: nat :: Quarter(c, k, j) {
          var k: nat, j: nat :| Quarter(c, k, j);
          GroupLeast(n, c, k, j);
        }
      }
    }
  }

  lemma LargeIsClass(n: nat)
    requires n > 128
    ensures IsClass(GoodSize(n)) && n <= GoodSize(n) && 4 * (GoodSize(n) - n) < n && Step(n) < n
  {
    Group(n);
    var k := Log2(n - 1);
    var step := Pow2(k - 2);
    var q := InGroup(n, step);
    assert q * step == 4 * step + (q - 4) * step;
    assert Quarter(q * step, k, q - 4);
  }

  // ---- what follows ------------------------------------------------------------------------------------

  lemma LargestIsClass()
    ensures IsClass(TWO_63)
  {
    assert Pow2(15) == 32768;
    Pow2Add(15, 15);
    Pow2Add(30, 30);
    assert Quarter(TWO_63, 62, 4);
  }

  /** No request up to 2^63 is rounded beyond it. */
  lemma StaysInRange(n: nat)
    requires 1 <= n <= TWO_63
    ensures GoodSize(n) <= TWO_63
  {
    GoodSizeLeast(n);
    LargestIsClass();
  }

  /** A class is its own size. */
  lemma Idempotent(n: nat)
    requires 1 <= n <= TWO_63
    ensures GoodSize(n) <= TWO_63 && GoodSize(GoodSize(n)) == GoodSize(n)
  {
    GoodSizeLeast(n);
    StaysInRange(n);
    GoodSizeLeast(GoodSize(n));
  }

  /** Every request between a request and its size has the same size. */
  lemma Constant(n: nat, m: nat)
    requires 1 <= n <= m <= TWO_63 && m <= GoodSize(n)
    ensures GoodSize(m) == GoodSize(n)
  {
    GoodSizeLeast(n);
    GoodSizeLeast(m);
  }

  lemma Monotone(n: nat, m: nat)
    requires n <= m <= TWO_63
    ensures GoodSize(n) <= GoodSize(m)
  {
    if n > 0 {
      GoodSizeLeast(n);
      GoodSizeLeast(m);
    }
  }

  /** Above 128 less than a quarter of the request is wasted. */
  lemma Waste(n: nat)
    requires n > 128
    ensures 4 * (GoodSize(n) - n) < n
  {
    LargeIsClass(n);
  }
}
