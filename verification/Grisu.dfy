/**
 * Grisu2: boundaries, scaling by a cached power of ten, digit generation, and the proof that the
 * digits it prints are nearest to the double they came from.
 *
 * The one long function of the source is cut at its comments: boundaries, scaling, digits. Each
 * piece promises what the next one needs, so that the bound on the error of the rounded products
 * and the digits chosen inside the narrowed interval meet only in `GeneratedRounds`.
 */
module Grisu {
  import opened Powers
  import opened Binary64
  import opened DigitGen
  import CachedPowers
  import opened Words

  // ---- the rounded 64-bit product --------------------------------------------------------------

  datatype Fp = Fp(f: nat, e: int)

  /** The top 64 bits of `a * b`, the discarded half rounded in: off by at most half a unit. */
  function FpMultiply(a: Fp, b: Fp): (r: Fp)
    requires a.f < TWO_64 && b.f < TWO_64
    ensures r.f < TWO_64 && r.e == a.e + b.e + 64
    ensures r.f * TWO_64 - TWO_63 <= a.f * b.f < r.f * TWO_64 + TWO_63
  {
    ProductFits(a.f, b.f);
    var product := a.f * b.f;
    var high := product / TWO_64;
    var low := product % TWO_64;
    Fp(high + low / TWO_63, a.e + b.e + 64)
  }

  lemma ProductFits(a: nat, b: nat)
    requires a < TWO_64 && b < TWO_64
    ensures 0 <= a * b <= (TWO_64 - 1) * (TWO_64 - 1)
  {
    Times(a, b, TWO_64 - 1);
  }

  lemma Times(a: nat, b: nat, m: nat)
    requires a <= m && b <= m
    ensures 0 <= a * b <= m * m
  {
    MulLessEq(a, b, m);
    MulLessEq(m, a, m);
  }

  // ---- choosing the cached power ---------------------------------------------------------------

  /** Division that truncates toward zero, as C's does. */
  function Truncate(a: int, b: nat): int
    requires b > 0
  {
    if a >= 0 then a / b else -((-a) / b)
  }

  /** 0.30102999566398114, the constant the source multiplies by, times 10^17. */
  const INV_LOG2_OF_10: nat := 30102999566398114
  const TEN_17: nat := 100000000000000000

  /** The row the scan starts from, with the product truncated before the offset is added. */
  function FirstIndex(exponent: int): int {
    IndexFor(Truncate(-(exponent + 87) * INV_LOG2_OF_10, TEN_17))
  }

  /** The row for a truncated product. */
  function IndexFor(product: int): int {
    var index := Truncate(product + 348, 8);
    if index < 0 then 0 else if index > 86 then 86 else index
  }

  /** The conversion of a floating-point number to an integer. */
  function TruncateReal(x: real): int { if x >= 0.0 then x.Floor else -(-x).Floor }

  /** `x` is the product `n * 0.30102999566398114` up to a rounding error. */
  predicate NearProduct(x: real, n: int) {
    var exact := (n * INV_LOG2_OF_10) as real;
    exact - 40000000000000.0 <= x * TEN_17 as real <= exact + 40000000000000.0
  }

  /** Below 2136 in magnitude no multiple of the constant comes within 4/10000 of an integer. */
  lemma ProductAwayFromIntegers(n: int, m: int)
    requires -2136 < n < 2136 && n != 0
    ensures Abs(n * INV_LOG2_OF_10 - m * TEN_17) >= 45210296914710
  {
    // 146/485 and 643/2136 are neighbouring convergents, so (n, m) is a whole combination of them.
    var x, y := 2136 * m - 643 * n, 146 * n - 485 * m;
    assert n == 485 * x + 2136 * y && m == 146 * x + 643 * y;
    if y > 0 {
      assert x < 0;
    } else if y < 0 {
      assert x > 0;
    }
  }

  /** A positive product stays between the same two integers. */
  lemma PositiveNear(n: int, x: real)
    requires 0 < n < 2136 && NearProduct(x, n)
    ensures x > 0.0 && x.Floor == n * INV_LOG2_OF_10 / TEN_17
  {
    var product := n * INV_LOG2_OF_10;
    var m := product / TEN_17;
    ProductAwayFromIntegers(n, m);
    ProductAwayFromIntegers(n, m + 1);
    assert m * TEN_17 + 45210296914710 <= product <= (m + 1) * TEN_17 - 45210296914710;
    assert (m * TEN_17) as real < x * TEN_17 as real < ((m + 1) * TEN_17) as real;
    assert m as real < x < m as real + 1.0;
  }

  /** Every number within 4/10000 of the exact product truncates to the same integer. */
  lemma SameTruncation(n: int, x: real)
    requires -2136 < n < 2136 && NearProduct(x, n)
    ensures TruncateReal(x) == Truncate(n * INV_LOG2_OF_10, TEN_17)
  {
    if n > 0 {
      PositiveNear(n, x);
    } else if n < 0 {
      PositiveNear(-n, -x);
      assert -n * INV_LOG2_OF_10 == -(n * INV_LOG2_OF_10);
    }
  }

  /** So computing the product in floating point does not change the row the scan starts from. */
  lemma FirstIndexRounded(exponent: int, x: real)
    requires -2136 < exponent + 87 < 2136 && NearProduct(x, -(exponent + 87))
    ensures IndexFor(TruncateReal(x)) == FirstIndex(exponent)
  {
    SameTruncation(-(exponent + 87), x);
  }

  // The scan goes up from a row below the window, so that it stops at the least row inside.

  lemma {:induction false} RowsBelowLine(table: seq<CachedPowers.Row>, i: nat)
    requires CachedPowers.ValidTable(table) && i < 87
    ensures table[i].e <= 27 * i - 1220
  {
    if i > 0 {
      RowsBelowLine(table, i - 1);
      assert table[i].e <= table[i - 1].e + 27;
    }
  }

  lemma {:induction false} RowsRise(table: seq<CachedPowers.Row>, i: nat, j: nat)
    requires CachedPowers.ValidTable(table) && i <= j < 87
    ensures table[i].e <= table[j].e
    decreases j
  {
    if i < j {
      RowsRise(table, i, j - 1);
      assert table[j - 1].e + 26 <= table[j].e;
    }
  }

  /** The starting row is at most this far up. */
  lemma StartIsLow(exponent: int)
    requires -1137 <= exponent <= 960 && FirstIndex(exponent) > 0
    ensures exponent + 27 * (FirstIndex(exponent) - 1) - 1220 + 64 < -60
  {
    var n := -(exponent + 87);
    var product := Truncate(n * INV_LOG2_OF_10, TEN_17);
    assert product * TEN_17 < n * INV_LOG2_OF_10 + TEN_17;
    assert 8 * FirstIndex(exponent) <= product + 348;
  }

  /** Every row below the starting row is below the window. */
  lemma BelowStart(table: seq<CachedPowers.Row>, exponent: int, i: nat)
    requires CachedPowers.ValidTable(table) && -1137 <= exponent <= 960 && i < FirstIndex(exponent)
    ensures exponent + table[i].e + 64 < -60
  {
    var last := FirstIndex(exponent) - 1;
    StartIsLow(exponent);
    RowsBelowLine(table, last);
    RowsRise(table, i, last);
  }

  /** The least row that scales `exponent` into the window. */
  predicate LeastInWindow(table: seq<CachedPowers.Row>, exponent: int, index: nat) {
    && index < |table| && -60 <= exponent + table[index].e + 64 <= -32
    && forall i :: 0 <= i < index ==> exponent + table[i].e + 64 < -60
  }

  ghost predicate TakesLeast(table: seq<CachedPowers.Row>, exponent: int, row: CachedPowers.Row) {
    exists index: nat :: LeastInWindow(table, exponent, index) && table[index] == row
  }

  /** Of the rows inside the window the scan takes the least. */
  method CachedPowIndex(table: seq<CachedPowers.Row>, exponent: int) returns (index: nat)
    requires CachedPowers.ValidTable(table)
    requires -1137 <= exponent <= 960
    ensures index < 87 && LeastInWindow(table, exponent, index)
  {
    index := FirstIndex(exponent);
    forall i | 0 <= i < index
      ensures exponent + table[i].e + 64 < -60
    {
      BelowStart(table, exponent, i);
    }
    while true
      invariant 0 <= index <= 86
      invariant forall i :: 0 <= i < index ==> exponent + table[i].e + 64 < -60
      decreases 87 - index
    {
      var scaled := exponent + table[index].e + 64;
      if scaled < -60 {
        assert index < 86;
        index := index + 1;
      } else if scaled > -32 {
        NeverAbove(table, exponent, index);
        assert false;
      } else {
        return;
      }
    }
  }

  /** The scan never has to go down. */
  lemma NeverAbove(table: seq<CachedPowers.Row>, exponent: int, index: nat)
    requires CachedPowers.ValidTable(table) && -1137 <= exponent <= 960 && index < 87
    requires forall i :: 0 <= i < index ==> exponent + table[i].e + 64 < -60
    ensures exponent + table[index].e + 64 <= -32
  {
    if index > 0 {
      assert exponent + table[index - 1].e + 64 < -60;
      assert table[index].e <= table[index - 1].e + 27;
    }
  }

  // ---- the boundaries --------------------------------------------------------------------------

  /** One or two: at a power of two the gap below is half the gap above. */
  function LowerShift(m: Magnitude): nat {
    if m.f == TWO_52 then 2 else 1
  }

  /**
   * The value and its two boundaries at one common exponent, the value normalized to 64 bits.
   * One unit of the double is `q` units here; the boundaries are `h` above and `l` below.
   */
  ghost predicate Aligned(m: Magnitude, w: Fp, upper: Fp, lower: Fp, q: nat, h: nat, l: nat) {
    && q == 2 * h && q == (if m.f == TWO_52 then 4 * l else 2 * l) && h >= 1024 && l >= 512
    && w.f == m.f * q && upper.f == w.f + h && lower.f + l == w.f
    && w.e == upper.e == lower.e
    && TWO_63 <= w.f && upper.f < TWO_64
  }

  lemma Pow2Values()
    ensures Pow2(10) == 1024 && Pow2(52) == TWO_52 && Pow2(53) == TWO_53
    ensures Pow2(63) == TWO_63 && Pow2(64) == TWO_64
  {
    assert Pow2(16) == 65536 by { assert Pow2(8) == 256; Pow2Add(8, 8); }
    assert Pow2(32) == 0x1_0000_0000 by { Pow2Add(16, 16); }
    assert Pow2(48) == 0x1_0000_0000_0000 by { Pow2Add(16, 32); }
    assert Pow2(64) == TWO_64 by { Pow2Add(16, 48); }
    assert Pow2(52) == TWO_52 by { assert Pow2(4) == 16; Pow2Add(4, 48); }
    assert Pow2(10) == 1024 by { assert Pow2(8) == 256; }
  }

  /** `f << n` computed one bit at a time. */
  lemma ShiftStep(f: nat, n: nat, x: nat)
    requires x == f * Pow2(n)
    ensures 2 * x == f * Pow2(n + 1)
  {
  }

  /** Shifts `odd` up until bit 53 is set. */
  method NormalizeUpper(odd: nat, e: int) returns (f: U64, e': int, ghost j: nat)
    requires 3 <= odd < 2 * TWO_53
    ensures TWO_53 <= f < 2 * TWO_53 && f == odd * Pow2(j) && e' == e - j && j <= 52
    ensures odd >= TWO_53 ==> j == 0
  {
    f, e', j := odd, e, 0;
    while (f / TWO_53) % 2 == 0
      invariant 3 <= f < 2 * TWO_53 && f == odd * Pow2(j) && e' == e - j
      invariant odd >= TWO_53 ==> j == 0
      decreases TWO_53 - f
    {
      ShiftStep(odd, j, f);
      f := 2 * f;
      e' := e' - 1;
      j := j + 1;
    }
    if j >= 53 {
      Pow2Values();
      Pow2Monotone(53, j);
      MulLessEq(Pow2(j), 3, odd);
    }
  }

  /** Shifts `f` up until bit 63 is set. */
  method NormalizeValue(f0: nat, e: int, ghost t: nat) returns (f: U64, e': int)
    requires 0 < f0 && TWO_63 <= f0 * Pow2(t) < TWO_64
    ensures f == f0 * Pow2(t) && e' == e - t
  {
    ghost var i := 0;
    Pow2Monotone(0, t);
    MulLessEq(f0, 1, Pow2(t));
    f, e' := f0, e;
    while (f / TWO_63) % 2 == 0
      invariant 0 < f == f0 * Pow2(i) && e' == e - i && i <= t
      decreases t - i
    {
      ShiftStep(f0, i, f);
      if i == t {
        assert false;
      }
      Pow2Monotone(i + 1, t);
      MulLessEq(f0, Pow2(i + 1), Pow2(t));
      f := 2 * f;
      e' := e' - 1;
      i := i + 1;
    }
    if i < t {
      Pow2Monotone(i + 1, t);
      MulLessEq(f0, Pow2(i + 1), Pow2(t));
      ShiftStep(f0, i, f);
    }
  }

  /** The upper boundary reaches 2^63 exactly when the value itself does. */
  lemma ValueReaches(f: nat, j: nat)
    requires j <= 52 && TWO_53 <= (2 * f + 1) * Pow2(j) < 2 * TWO_53
    ensures TWO_63 <= f * Pow2(j + 11) && f * Pow2(j + 11) + Pow2(j + 10) < TWO_64
    ensures f * Pow2(j + 11) + Pow2(j + 10) == (2 * f + 1) * Pow2(j) * 1024
  {
    var p, q := Pow2(j), Pow2(52 - j);
    assert p * q == TWO_52 by { Pow2Add(j, 52 - j); Pow2Values(); }
    assert Pow2(j + 10) == 1024 * p by { Pow2Add(10, j); Pow2Values(); }
    assert Pow2(j + 11) == 2048 * p;
    Halve(f, p, q);
  }

  lemma Halve(f: nat, p: nat, q: nat)
    requires p * q == TWO_52 && TWO_53 <= (2 * f + 1) * p
    ensures TWO_52 <= f * p
    ensures f * (2048 * p) + 1024 * p == (2 * f + 1) * p * 1024
    ensures f * (2048 * p) == 2048 * (f * p)
  {
    if f < q {
      OddBelow(f, p, q);
    }
    MulLessEq(p, q, f);
  }

  lemma OddBelow(f: nat, p: nat, q: nat)
    requires f < q && p * q > 0
    ensures (2 * f + 1) * p < 2 * (p * q)
  {
    assert p > 0;
    MulLessEq(p, 2 * f + 1, 2 * q - 1);
    assert p * (2 * q - 1) == 2 * (p * q) - p;
  }

  method Boundaries(m: Magnitude) returns (w: Fp, upper: Fp, lower: Fp, ghost t: nat)
    requires Binary64.Canonical(m) && m.f > 0 && m.e <= 971
    ensures 11 <= t <= 63 && upper.e == m.e - t && -1137 <= upper.e <= 960
    ensures Aligned(m, w, upper, lower, Pow2(t), Pow2(t - 1), Pow2(t - LowerShift(m)))
  {
    var uf, ue, j := NormalizeUpper(2 * m.f + 1, m.e - 1);
    ValueReaches(m.f, j);
    t := j + 11;
    upper := Fp(uf * 1024, ue - 10);
    lower := AlignLower(m, upper.e, t);
    var wf, we := NormalizeValue(m.f, m.e, t);
    w := Fp(wf, we);
    HalfUnits(t);
  }

  /** The lower boundary, shifted to the exponent of the upper one. */
  method AlignLower(m: Magnitude, e: int, ghost t: nat) returns (lower: Fp)
    requires 0 < m.f < TWO_53 && 2 <= t && e == m.e - t && m.f * Pow2(t) < TWO_64
    ensures lower.e == e && lower.f + Pow2(t - LowerShift(m)) == m.f * Pow2(t)
  {
    var shift := LowerShift(m);
    LowerAligned(m.f, shift, t);
    var lf: U64, le := m.f * Pow2(shift) - 1, m.e - shift;
    var lf': U64 := lf * Pow2(le - e);
    lower := Fp(lf', e);
  }

  lemma HalfUnits(t: nat)
    requires t >= 11
    ensures Pow2(t) == 2 * Pow2(t - 1) == 4 * Pow2(t - 2)
    ensures Pow2(t - 1) >= 1024 && Pow2(t - 2) >= 512
  {
    Pow2Monotone(10, t - 1);
    Pow2Values();
  }

  lemma LowerAligned(f: nat, shift: nat, t: nat)
    requires f > 0 && 1 <= shift <= 2 <= t && f * Pow2(t) < TWO_64 && f < TWO_53
    ensures 0 <= f * Pow2(shift) - 1 < TWO_64
    ensures 0 <= (f * Pow2(shift) - 1) * Pow2(t - shift) == f * Pow2(t) - Pow2(t - shift) < TWO_64
  {
    assert 2 <= Pow2(shift) <= 4;
    Pow2Monotone(0, t - shift);
    Pow2Add(shift, t - shift);
    LowerProduct(f, Pow2(shift), Pow2(t - shift), Pow2(t));
  }

  lemma LowerProduct(f: nat, p: nat, q: nat, pq: nat)
    requires f > 0 && 2 <= p <= 4 && q >= 1 && pq == p * q && f < TWO_53
    ensures 0 <= f * p - 1 < TWO_64
    ensures 0 <= (f * p - 1) * q == f * pq - q
  {
    MulLessEq(f, 2, p);
    MulLessEq(f, p, 4);
    MulLessEq(f * p - 1, 0, q);
    assert (f * p) * q == f * (p * q);
  }

  // ---- scaling: the products stay ordered, and one unit of narrowing makes them safe -----------

  /** `r` is `x * c / 2^64` rounded to the nearest integer. */
  predicate RoundedProduct(x: nat, c: nat, r: nat) {
    r * TWO_64 - TWO_63 <= x * c < r * TWO_64 + TWO_63
  }

  lemma ProductGap(x: nat, y: nat, c: nat, rx: nat, ry: nat, g: nat)
    requires RoundedProduct(x, c, rx) && RoundedProduct(y, c, ry)
    requires c >= TWO_63 && y >= x + 2 * g
    ensures ry - rx >= g
  {
    MulLessEq(c, x + 2 * g, y);
    MulLessEq(2 * g, TWO_63, c);
    assert c * (x + 2 * g) == x * c + 2 * g * c;
  }

  /** The scaled upper boundary, less one, is strictly below the exact one: `t` is the exact power. */
  lemma UpperSafe(u: nat, c: nat, r: nat, t: real)
    requires u < TWO_64 && RoundedProduct(u, c, r) && c as real <= t + 0.5 && r > 0
    ensures (r - 1) as real * TWO_64 as real < u as real * t
  {
    var ur, p := u as real, u * c;
    assert p as real == ur * c as real;
    assert r as real * TWO_64 as real - TWO_63 as real <= p as real;
    RMulLessEq(ur, c as real, t + 0.5);
    assert ur * (t + 0.5) == ur * t + 0.5 * ur;
    assert (r - 1) as real == r as real - 1.0;
    assert p as real <= ur * t + 0.5 * ur;
    assert ur < TWO_64 as real;
    assert TWO_63 as real + 0.5 * ur < TWO_64 as real;
  }

  /** The scaled lower boundary, plus one, is strictly above the exact one. */
  lemma LowerSafe(l: nat, c: nat, r: nat, t: real)
    requires l < TWO_64 && RoundedProduct(l, c, r) && t <= c as real + 0.5
    ensures l as real * t < (r + 1) as real * TWO_64 as real
  {
    var lr, p := l as real, l * c;
    assert p as real == lr * c as real;
    assert p as real < r as real * TWO_64 as real + TWO_63 as real;
    RMulLessEq(lr, t, c as real + 0.5);
    assert lr * (c as real + 0.5) == lr * c as real + 0.5 * lr;
    assert (r + 1) as real == r as real + 1.0;
    assert lr * t <= p as real + 0.5 * lr;
    assert lr < TWO_64 as real;
    assert TWO_63 as real + 0.5 * lr < TWO_64 as real;
  }

  // ---- back to real numbers --------------------------------------------------------------------

  lemma ExactBoundaries(m: Magnitude, w: Fp, upper: Fp, lower: Fp, q: nat, h: nat, l: nat, unit: real, big: real)
    requires Aligned(m, w, upper, lower, q, h, l) && big == q as real * unit
    ensures upper.f as real * unit == (m.f as real + 0.5) * big
    ensures lower.f as real * unit == (m.f as real - LowerPart(m)) * big
  {
    UpperInUnits(m.f, q, h, upper.f, unit, big);
    LowerInUnits(m.f, q, l, lower.f, if m.f == TWO_52 then 4 else 2, LowerPart(m), unit, big);
  }

  lemma UpperInUnits(f: nat, q: nat, p: nat, u: nat, unit: real, big: real)
    requires q == 2 * p && u == f * q + p && big == q as real * unit
    ensures u as real * unit == (f as real + 0.5) * big
  {
    ProductReal(f, q);
    assert u as real == (f as real + 0.5) * q as real;
  }

  lemma LowerInUnits(f: nat, q: nat, p: nat, l: nat, c: nat, part: real, unit: real, big: real)
    requires q == c * p && l == f * q - p && big == q as real * unit && part * c as real == 1.0
    ensures l as real * unit == (f as real - part) * big
  {
    ProductReal(c, p);
    ProductReal(f, q);
    assert part * q as real == p as real;
    LowerFactor(f as real, part, q as real, p as real, l as real, unit);
  }

  lemma LowerFactor(f: real, part: real, q: real, p: real, l: real, unit: real)
    requires part * q == p && l == f * q - p
    ensures l * unit == (f - part) * (q * unit)
  {
    assert l == (f - part) * q;
  }

  /**
   * The digits as the generator leaves them: `n * 10^kappa` between the safe boundaries, and `kappa` the
   * greatest at which the loop that reached it stops.
   */
  ghost predicate Generated(n: nat, kappa: int, upper: nat, delta: nat, distance: nat, one: nat) {
    if kappa >= 0 then
      Chosen(n, Pow10(kappa) * one, upper, delta, distance) && NoneInside(Pow10(kappa + 1) * one, upper, delta)
    else
      && Chosen(n, one, upper * Pow10(-kappa), delta * Pow10(-kappa), distance * Pow10(-kappa))
      && SomeAbove(one, upper * Pow10(-kappa), delta * Pow10(-kappa)) && NoneInside(one, upper, delta)
  }

  /** The part of it that bounds the number. */
  ghost predicate Between(n: nat, kappa: int, upper: nat, delta: nat, one: nat) {
    if kappa >= 0 then Inside(n, Pow10(kappa) * one, upper, delta)
    else Inside(n, one, upper * Pow10(-kappa), delta * Pow10(-kappa))
  }

  lemma GeneratedBetween(n: nat, kappa: int, upper: nat, delta: nat, distance: nat, one: nat)
    requires Generated(n, kappa, upper, delta, distance, one)
    ensures Between(n, kappa, upper, delta, one)
  {
  }

  /** `ten` is `10^kappa`, said with whole powers only. */
  ghost predicate TenPower(kappa: int, ten: real) {
    if kappa >= 0 then ten == Pow10(kappa) as real else ten > 0.0 && ten * Pow10(-kappa) as real == 1.0
  }

  lemma GeneratedReal(n: nat, kappa: int, upper: nat, lower: nat, one: nat, ten: real, scaled: real)
    requires lower <= upper && Between(n, kappa, upper, upper - lower, one) && TenPower(kappa, ten)
    requires scaled == n as real * ten * one as real
    ensures lower as real <= scaled <= upper as real
  {
    if kappa >= 0 {
      WholeInside(n, Pow10(kappa), one, upper, lower, ten, scaled);
    } else {
      PartInside(n, Pow10(-kappa), one, upper, lower, ten, scaled);
    }
  }

  lemma WholeInside(n: nat, p: nat, one: nat, upper: nat, lower: nat, ten: real, scaled: real)
    requires lower <= upper && Inside(n, p * one, upper, upper - lower)
    requires ten == p as real && scaled == n as real * ten * one as real
    ensures lower as real <= scaled <= upper as real
  {
    assert (n * (p * one)) as real == n as real * p as real * one as real;
  }

  lemma PartInside(n: nat, p: nat, one: nat, upper: nat, lower: nat, ten: real, scaled: real)
    requires lower <= upper && Inside(n, one, upper * p, (upper - lower) * p)
    requires ten > 0.0 && ten * p as real == 1.0 && scaled == n as real * ten * one as real
    ensures lower as real <= scaled <= upper as real
  {
    var delta := upper - lower;
    ProductReal(n, one);
    ProductReal(upper, p);
    ProductReal(delta, p);
    PartReal(n as real, one as real, upper as real, delta as real, p as real, ten);
  }

  lemma PartReal(n: real, one: real, u: real, d: real, p: real, ten: real)
    requires ten > 0.0 && ten * p == 1.0 && n * one <= u * p <= n * one + d * p
    ensures u - d <= n * ten * one <= u
  {
    TimesInverse(u, p, ten);
    TimesInverse(d, p, ten);
    RMulLessEq(ten, n * one, u * p);
    RMulLessEq(ten, u * p, n * one + d * p);
    assert ten * (n * one) == n * ten * one;
    assert ten * (n * one + d * p) == ten * (n * one) + ten * (d * p);
  }

  lemma TimesInverse(u: real, p: real, ten: real)
    requires ten * p == 1.0
    ensures ten * (u * p) == u
  {
    assert ten * (u * p) == u * (ten * p);
  }

  /** In real terms: `s` is the value of one scaled unit, `unit` of one unit of the boundary. */
  lemma UpperClaim(u: nat, c: nat, r: nat, t: real, s: real, unit: real)
    requires u < TWO_64 && RoundedProduct(u, c, r) && c as real <= t + 0.5 && r > 0
    requires s > 0.0 && TWO_64 as real * unit == t * s
    ensures (r - 1) as real * s < u as real * unit
  {
    UpperSafe(u, c, r, t);
    RMulLess(s, (r - 1) as real * TWO_64 as real, u as real * t);
    assert s * (u as real * t) == u as real * (t * s);
  }

  lemma LowerClaim(l: nat, c: nat, r: nat, t: real, s: real, unit: real)
    requires l < TWO_64 && RoundedProduct(l, c, r) && t <= c as real + 0.5
    requires s > 0.0 && TWO_64 as real * unit == t * s
    ensures l as real * unit < (r + 1) as real * s
  {
    LowerSafe(l, c, r, t);
    RMulLess(s, l as real * t, (r + 1) as real * TWO_64 as real);
    assert s * (l as real * t) == l as real * (t * s);
  }

  // ---- the printer -----------------------------------------------------------------------------

  /** The three rounded products, narrowed by one unit, meet what the digit loops need. */
  lemma ScaledReady(m: Magnitude, w: Fp, upper: Fp, lower: Fp, q: nat, h: nat, l: nat, c: nat, rw: nat, ru: nat, rl: nat)
    requires Aligned(m, w, upper, lower, q, h, l) && TWO_63 <= c < TWO_64
    requires RoundedProduct(w.f, c, rw) && RoundedProduct(upper.f, c, ru) && RoundedProduct(lower.f, c, rl)
    ensures rw + 512 <= ru && rl + 256 <= rw && rl + 768 <= ru
    ensures ru >= 0x4000_0000_0000_0000
  {
    ProductGap(w.f, upper.f, c, rw, ru, 512);
    ProductGap(lower.f, w.f, c, rl, rw, 256);
    ProductGap(lower.f, upper.f, c, rl, ru, 768);
    MulLessEq(c, TWO_63, upper.f);
  }

  lemma WindowReady(shift: int, one: nat, upper: nat)
    requires 32 <= shift <= 60 && one == Pow2(shift)
    requires 0x3fff_ffff_ffff_ffff <= upper < TWO_64
    ensures 0 < one <= 0x1000_0000_0000_0000 && one <= upper && upper / one < Pow10(10)
  {
    SmallPowers();
    Pow2Monotone(32, shift);
    Pow2Monotone(shift, 60);
    QuotientBelow(upper, one, upper / one);
  }

  lemma QuotientBelow(upper: nat, one: nat, quotient: nat)
    requires one >= 0x1_0000_0000 && upper < TWO_64 && quotient == upper / one
    ensures quotient < 10000000000
  {
    assert quotient * one <= upper;
    MulLessEq(quotient, 0x1_0000_0000, one);
  }

  lemma SmallPowers()
    ensures Pow2(32) == 0x1_0000_0000 && Pow2(60) == 0x1000_0000_0000_0000
    ensures Pow10(10) == 10000000000
  {
    assert Pow2(16) == 65536 by { assert Pow2(8) == 256; Pow2Add(8, 8); }
    Pow2Add(16, 16);
    Pow2Add(28, 32);
    assert Pow2(28) == 0x1000_0000 by { assert Pow2(12) == 4096; Pow2Add(12, 16); }
    assert Pow10(5) == 100000;
    Pow10Add(5, 5);
  }

  /** Both boundaries multiplied by the same word. */
  ghost predicate ScaledPair(uf: nat, lf: nat, row: nat, ru: nat, rl: nat) {
    && uf < TWO_64 && lf < TWO_64
    && RoundedProduct(uf, row, ru) && RoundedProduct(lf, row, rl) && rl + 2 <= ru
  }

  /** `t` is the exact power a row stands for; one scaled unit is worth `s`, one boundary unit `unit`. */
  ghost predicate ScaleValid(row: nat, t: real, s: real, unit: real) {
    row as real - 0.5 <= t <= row as real + 0.5 && s > 0.0 && TWO_64 as real * unit == t * s
  }

  lemma PlainInside(uf: nat, lf: nat, row: nat, ru: nat, rl: nat, t: real, s: real, unit: real, scaled: real, x: real)
    requires ScaledPair(uf, lf, row, ru, rl) && ScaleValid(row, t, s, unit)
    requires (rl + 1) as real <= scaled <= (ru - 1) as real && x == scaled * s
    ensures lf as real * unit < x < uf as real * unit
  {
    UpperClaim(uf, row, ru, t, s, unit);
    LowerClaim(lf, row, rl, t, s, unit);
    RMulLessEq(s, scaled, (ru - 1) as real);
    RMulLessEq(s, (rl + 1) as real, scaled);
  }

  lemma PlainSurrounds(m: Magnitude, w: Fp, upper: Fp, lower: Fp, q: nat, h: nat, l: nat, row: nat, ru: nat, rl: nat,
                       t: real, s: real, unit: real, big: real, scaled: real, x: real)
    requires Aligned(m, w, upper, lower, q, h, l) && ScaledPair(upper.f, lower.f, row, ru, rl)
    requires ScaleValid(row, t, s, unit) && big == q as real * unit
    requires (rl + 1) as real <= scaled <= (ru - 1) as real && x == scaled * s
    ensures Surrounds(m, x, big)
  {
    PlainInside(upper.f, lower.f, row, ru, rl, t, s, unit, scaled, x);
    ExactBoundaries(m, w, upper, lower, q, h, l, unit, big);
  }

  /** The exact power of a row, from its accuracy. */
  lemma RowPower(row: CachedPowers.Row, ten: real, two: real, half: real, t: real)
    requires CachedPowers.Accurate(row) && ten == R10(row.k) && two == R2(row.e) && half == R2(-row.e)
    requires t == ten * half
    ensures row.f as real - 0.5 <= t <= row.f as real + 0.5
  {
    R2Pos(-row.e);
    R2Sum(row.e, -row.e, two, half, R2(0));
    AccurateValues(row, ten, two);
    DivideRow(row.f as real, ten, two, half, t);
  }

  lemma AccurateValues(row: CachedPowers.Row, ten: real, two: real)
    requires CachedPowers.Accurate(row) && ten == R10(row.k) && two == R2(row.e)
    ensures 2.0 * ten <= 2.0 * (row.f as real * two) + two && 2.0 * (row.f as real * two) <= 2.0 * ten + two
  {
  }

  lemma DivideRow(f: real, ten: real, two: real, half: real, t: real)
    requires half > 0.0 && two * half == 1.0 && t == ten * half
    requires 2.0 * ten <= 2.0 * (f * two) + two && 2.0 * (f * two) <= 2.0 * ten + two
    ensures f - 0.5 <= t <= f + 0.5
  {
    RMulLessEq(half, 2.0 * ten, 2.0 * (f * two) + two);
    RMulLessEq(half, 2.0 * (f * two), 2.0 * ten + two);
    assert half * (f * two) == f * (two * half);
  }

  /** One scaled unit is worth `2^-shift * 10^-row.k`. */
  lemma UnitWorth(e: int, rowe: int, rowk: int, shift: nat, ten: real, half: real, tiny: real, tenth: real,
                  t: real, s: real, unit: real)
    requires shift == -(e + rowe + 64) && unit == R2(e)
    requires ten == R10(rowk) && half == R2(-rowe) && tiny == R2(0 - shift) && tenth == R10(-rowk)
    requires t == ten * half && s == tiny * tenth
    ensures s > 0.0 && TWO_64 as real * unit == t * s
  {
    R2Pos(0 - shift);
    R10Pos(-rowk);
    R10Sum(rowk, -rowk, ten, tenth, R10(0));
    var word := R2(e + 64);
    R2Sum(-rowe, 0 - shift, half, tiny, word);
    assert Pow2(64) == TWO_64 by { Pow2Values(); }
    R2Shift(e, 64, unit, word, TWO_64);
    CancelTen(ten, half, tiny, tenth, t, s);
  }

  lemma CancelTen(ten: real, a: real, b: real, tenth: real, t: real, s: real)
    requires ten * tenth == 1.0 && t == ten * a && s == b * tenth && b > 0.0 && tenth > 0.0
    ensures t * s == a * b && s > 0.0
  {
    assert t * s == (ten * tenth) * (a * b);
  }

  /** The number printed is the scaled number times the worth of a scaled unit. */
  lemma NumberWorth(n: real, kappa: int, k: int, rowk: int, shift: nat, tenk: real, one: real, tiny: real,
                    tenth: real, tk: real, s: real, scaled: real)
    requires k == kappa - rowk && tenk == R10(kappa) && one == Pow2(shift) as real
    requires tiny == R2(0 - shift) && tenth == R10(-rowk) && tk == R10(k)
    requires s == tiny * tenth && scaled == n * tenk * one
    ensures n * tk == scaled * s
  {
    R2Inverse(shift, tiny, Pow2(shift));
    R10Sum(kappa, -rowk, tenk, tenth, tk);
    CancelTwo(n, tenk, one, tiny, tenth, tk, scaled, s);
  }

  lemma CancelTwo(n: real, tenk: real, two: real, half: real, tenth: real, ten: real, scaled: real, s: real)
    requires half * two == 1.0 && ten == tenk * tenth && s == half * tenth && scaled == n * tenk * two
    ensures n * ten == scaled * s
  {
    assert scaled * s == (half * two) * (n * (tenk * tenth));
  }

  lemma TenPowerHolds(kappa: int, ten: real)
    requires ten == R10(kappa)
    ensures TenPower(kappa, ten)
  {
    if kappa >= 0 {
      R10Nat(kappa);
    } else {
      R10Inverse(-kappa, ten, Pow10(-kappa));
    }
  }

  /** Everything about the scaling that the comparison needs, with the powers named. */
  lemma ScaleExists(e: int, row: CachedPowers.Row, kappa: int, k: int, shift: nat, n: real, tenk: real, one: real,
                    tk: real, unit: real, scaled: real)
    returns (t: real, s: real)
    requires CachedPowers.Accurate(row) && shift == -(e + row.e + 64) && k == kappa - row.k
    requires tenk == R10(kappa) && one == Pow2(shift) as real && tk == R10(k) && unit == R2(e)
    requires scaled == n * tenk * one
    ensures ScaleValid(row.f, t, s, unit) && n * tk == scaled * s
  {
    var ten, tenth, two, half, tiny := R10(row.k), R10(-row.k), R2(row.e), R2(-row.e), R2(0 - shift);
    t, s := ten * half, tiny * tenth;
    RowPower(row, ten, two, half, t);
    UnitWorth(e, row.e, row.k, shift, ten, half, tiny, tenth, t, s, unit);
    NumberWorth(n, kappa, k, row.k, shift, tenk, one, tiny, tenth, tk, s, scaled);
  }

  /** The aligned boundaries and their products with one row of the table. */
  ghost predicate Prepared(m: Magnitude, w: Fp, upper: Fp, lower: Fp, b: nat, row: CachedPowers.Row,
                           ru: nat, rl: nat, shift: nat) {
    && Binary64.Canonical(m) && upper.e == m.e - b && 11 <= b
    && Aligned(m, w, upper, lower, Pow2(b), Pow2(b - 1), Pow2(b - LowerShift(m)))
    && ScaledPair(upper.f, lower.f, row.f, ru, rl)
    && CachedPowers.Accurate(row) && shift == -(upper.e + row.e + 64)
  }

  /** The scaled number between the safe boundaries, and the number `x = n * 10^k` it stands for. */
  ghost predicate Located(rl: nat, ru: nat, shift: nat, n: real, kappa: int, k: int, tenk: real, one: real, tk: real,
                          scaled: real, x: real) {
    && tenk == R10(kappa) && one == Pow2(shift) as real && tk == R10(k)
    && scaled == n * tenk * one && (rl + 1) as real <= scaled <= (ru - 1) as real && x == n * tk
  }

  lemma ScaledRounds(m: Magnitude, w: Fp, upper: Fp, lower: Fp, b: nat, row: CachedPowers.Row, ru: nat, rl: nat,
                     shift: nat, n: real, kappa: int, k: int, tenk: real, one: real, tk: real, scaled: real, x: real)
    requires Prepared(m, w, upper, lower, b, row, ru, rl, shift) && k == kappa - row.k
    requires rl + 2 <= ru && Located(rl, ru, shift, n, kappa, k, tenk, one, tk, scaled, x)
    ensures RoundsTo(x, m)
  {
    var unit, big, q := R2(upper.e), R2(m.e), Pow2(b);
    var t, s := ScaleExists(upper.e, row, kappa, k, shift, n, tenk, one, tk, unit, scaled);
    R2Shift(upper.e, b, unit, big, q);
    PlainSurrounds(m, w, upper, lower, q, Pow2(b - 1), Pow2(b - LowerShift(m)), row.f, ru, rl, t, s, unit, big, scaled, x);
    InsideRounds(x, m, big);
  }

  lemma GeneratedLocated(n: nat, kappa: int, k: int, ru: nat, rl: nat, shift: nat, one: nat)
    returns (tenk: real, oner: real, tk: real, scaled: real, x: real)
    requires rl + 2 <= ru && one == Pow2(shift)
    requires Between(n, kappa, ru - 1, (ru - 1) - (rl + 1), one)
    ensures Located(rl, ru, shift, n as real, kappa, k, tenk, oner, tk, scaled, x) && x == Scientific(n, k)
  {
    tenk, oner, tk := R10(kappa), one as real, R10(k);
    scaled := n as real * tenk * oner;
    TenPowerHolds(kappa, tenk);
    GeneratedReal(n, kappa, ru - 1, rl + 1, one, tenk, scaled);
    x := ScientificValue(n, k, tk);
  }

  lemma ScientificValue(n: nat, k: int, tk: real) returns (x: real)
    requires tk == R10(k)
    ensures x == Scientific(n, k) && x == n as real * tk
  {
    x := Scientific(n, k);
  }

  /** Digits inside the safe scaled interval are nearest to the double. */
  lemma GeneratedRounds(m: Magnitude, w: Fp, upper: Fp, lower: Fp, b: nat, row: CachedPowers.Row, ru: nat, rl: nat,
                        shift: nat, n: nat, kappa: int, k: int, distance: nat, one: nat)
    requires Prepared(m, w, upper, lower, b, row, ru, rl, shift) && k == kappa - row.k && rl + 2 <= ru
    requires Generated(n, kappa, ru - 1, (ru - 1) - (rl + 1), distance, one) && one == Pow2(shift)
    ensures RoundsTo(Scientific(n, k), m)
  {
    GeneratedBetween(n, kappa, ru - 1, (ru - 1) - (rl + 1), distance, one);
    var tenk, oner, tk, scaled, x := GeneratedLocated(n, kappa, k, ru, rl, shift, one);
    ScaledRounds(m, w, upper, lower, b, row, ru, rl, shift, n as real, kappa, k, tenk, oner, tk, scaled, x);
  }

  /** Both digit loops. `kappa` is the decimal exponent of the last digit, relative to the scaling. */
  method Generate(tens: seq<nat>, digits: array<char>, upper: U64, delta: U64, distance: U64, one: U64)
    returns (count: nat, kappa: int, ghost n: nat)
    requires ValidTens(tens) && digits.Length >= 18
    requires 0 < one <= 0x1000_0000_0000_0000 && one <= upper && upper / one < Pow10(10)
    requires 765 <= delta < upper && distance <= delta
    modifies digits
    ensures 1 <= count <= 18 && -16 <= kappa <= 9 && Digits(digits[..count], n)
    ensures Generated(n, kappa, upper, delta, distance, one)
  {
    var done, kappa';
    ghost var p, u, d, x;
    done, count, kappa', n := IntegralDigits(tens, digits, upper, delta, distance, one);
    kappa := kappa';
    if !done {
      count, kappa, n, p, u, d, x := FractionalDigits(tens, digits, count, upper, delta, distance, one, n);
    }
  }

  /** The integral part of the scaled upper boundary has at most ten digits. */
  predicate IntegralFits(upper: int, shift: nat) {
    var one := Pow2(shift);
    one > 0 && upper / one < Pow10(10)
  }

  /** The boundaries of `m` and `m` itself, multiplied by the cached power that suits them. */
  method ScaleBoundaries(table: seq<CachedPowers.Row>, m: Magnitude)
    returns (w: Fp, upper: Fp, lower: Fp, ghost b: nat, power: CachedPowers.Row, ws: Fp, us: Fp, ls: Fp, shift: nat)
    requires CachedPowers.ValidTable(table) && Binary64.Canonical(m) && m.f > 0 && m.e <= 971
    ensures Prepared(m, w, upper, lower, b, power, us.f, ls.f, shift)
    ensures ws.f + 512 <= us.f < TWO_64 && ls.f + 256 <= ws.f && ls.f + 768 <= us.f
    ensures us.f >= 0x4000_0000_0000_0000 && 32 <= shift <= 60 && -348 <= power.k <= 340
    ensures RoundedProduct(w.f, power.f, ws.f) && IntegralFits(us.f - 1, shift) && TakesLeast(table, upper.e, power)
  {
    w, upper, lower, b := Boundaries(m);
    var index := CachedPowIndex(table, upper.e);
    power := table[index];
    var scale := Fp(power.f, power.e);
    ws, us, ls := FpMultiply(w, scale), FpMultiply(upper, scale), FpMultiply(lower, scale);
    ScaledReady(m, w, upper, lower, Pow2(b), Pow2(b - 1), Pow2(b - LowerShift(m)), power.f, ws.f, us.f, ls.f);
    shift := -us.e;
    WindowReady(shift, Pow2(shift), us.f - 1);
  }

  /** The boundaries of a double and their products with one row of the table. */
  datatype Scaling = Scaling(w: Fp, upper: Fp, lower: Fp, b: nat, row: CachedPowers.Row, ws: nat, us: nat, ls: nat, shift: nat)

  /**
   * `n * 10^k` lies between the scaled boundaries narrowed by one unit, no number with as many
   * decimals there is closer to the scaled double, and none with fewer lies above the lower end.
   */
  ghost predicate ClosestInside(n: nat, k: int, m: Magnitude, s: Scaling) {
    && Prepared(m, s.w, s.upper, s.lower, s.b, s.row, s.us, s.ls, s.shift)
    && RoundedProduct(s.w.f, s.row.f, s.ws) && s.ls + 2 <= s.us && s.ws + 1 <= s.us
    && Generated(n, k + s.row.k, s.us - 1, (s.us - 1) - (s.ls + 1), (s.us - 1) - s.ws, Pow2(s.shift))
  }

  lemma ClosestRounds(n: nat, k: int, m: Magnitude, s: Scaling)
    requires ClosestInside(n, k, m, s)
    ensures RoundsTo(Scientific(n, k), m)
  {
    GeneratedRounds(m, s.w, s.upper, s.lower, s.b, s.row, s.us, s.ls, s.shift, n, k + s.row.k, k, (s.us - 1) - s.ws,
                    Pow2(s.shift));
  }

  /**
   * Writes the digits of a positive finite double and returns their count and decimal exponent.
   * Reading `digits * 10^k` back with correct rounding gives the same double.
   */
  method Grisu2Digits(table: seq<CachedPowers.Row>, tens: seq<nat>, bits: U64, digits: array<char>)
    returns (count: nat, k: int, ghost n: nat, ghost s: Scaling)
    requires CachedPowers.ValidTable(table) && ValidTens(tens) && digits.Length >= 18
    requires IsFinite(bits) && !IsZero(bits)
    modifies digits
    ensures 1 <= count <= 18 && Digits(digits[..count], n) && -356 <= k <= 357
    ensures RoundsTo(Scientific(n, k), Decode(bits)) && ClosestInside(n, k, Decode(bits), s)
    ensures TakesLeast(table, s.upper.e, s.row)
  {
    var m := Decode(bits);
    DecodeCanonical(bits);
    var w, upper, lower, b, power, ws, us, ls, shift := ScaleBoundaries(table, m);
    s := Scaling(w, upper, lower, b, power, ws.f, us.f, ls.f, shift);
    count, k, n := DigitsBetween(tens, digits, ws.f, us.f, ls.f, shift, power.k, m, s);
    ClosestRounds(n, k, m, s);
  }

  /** The digits between the scaled boundaries, each moved inwards by one unit. */
  method DigitsBetween(tens: seq<nat>, digits: array<char>, ws: U64, us: U64, ls: U64, shift: nat, power: int,
                       ghost m: Magnitude, ghost s: Scaling)
    returns (count: nat, k: int, ghost n: nat)
    requires ValidTens(tens) && digits.Length >= 18
    requires Prepared(m, s.w, s.upper, s.lower, s.b, s.row, s.us, s.ls, s.shift)
    requires s.ws == ws && s.us == us && s.ls == ls && s.shift == shift && s.row.k == power
    requires RoundedProduct(s.w.f, s.row.f, s.ws)
    requires ws + 512 <= us && ls + 256 <= ws && us >= 0x4000_0000_0000_0000 && 32 <= shift <= 60 && -348 <= power <= 340
    modifies digits
    ensures 1 <= count <= 18 && Digits(digits[..count], n) && -356 <= k <= 357 && ClosestInside(n, k, m, s)
  {
    var lf: U64 := ls + 1;
    var uf: U64 := us - 1;
    k := -power;

    var distance: U64 := uf - ws;
    var delta: U64 := uf - lf;
    WindowReady(shift, Pow2(shift), uf);
    var one: U64 := Pow2(shift);

    var kappa;
    count, kappa, n := Generate(tens, digits, uf, delta, distance, one);
    k := k + kappa;
  }
}
