/**
 * The binary64 interchange format of IEEE 754-2019, section 3.4: bit fields, exact values, and
 * which double a real number is nearest to.
 */
module Binary64 {
  import opened Powers
  import opened Words

  const TWO_52: nat := 0x10_0000_0000_0000
  const TWO_53: nat := 0x20_0000_0000_0000

  function SignBit(bits: nat): bool { bits / TWO_63 == 1 }
  function Biased(bits: nat): nat { (bits / TWO_52) % 2048 }
  function Mantissa(bits: nat): nat { bits % TWO_52 }

  predicate IsNaN(bits: nat) { Biased(bits) == 2047 && Mantissa(bits) != 0 }
  predicate IsInfinite(bits: nat) { Biased(bits) == 2047 && Mantissa(bits) == 0 }
  predicate IsFinite(bits: nat) { Biased(bits) != 2047 }
  predicate IsZero(bits: nat) { Biased(bits) == 0 && Mantissa(bits) == 0 }

  /** A finite magnitude `f * 2^e`. */
  datatype Magnitude = Magnitude(f: nat, e: int)

  function Decode(bits: nat): Magnitude {
    if Biased(bits) != 0 then Magnitude(Mantissa(bits) + TWO_52, Biased(bits) - 1075)
    else Magnitude(Mantissa(bits), -1074)
  }

  /**
   * The canonical pairs: subnormal only at the bottom exponent. There is no top exponent here,
   * because rounding decides overflow as if the exponent range went on.
   */
  predicate Canonical(m: Magnitude) {
    m.f < TWO_53 && m.e >= -1074 && (m.f < TWO_52 ==> m.e == -1074)
  }

  /** The real number `n * 10^k`. */
  function Scientific(n: nat, k: int): real {
    n as real * R10(k)
  }

  function Exact(m: Magnitude): real {
    m.f as real * R2(m.e)
  }

  lemma DecodeCanonical(bits: nat)
    requires IsFinite(bits)
    ensures Canonical(Decode(bits)) && Decode(bits).e <= 971
  {
  }

  /** `x` is closer to `m` than to any other magnitude, so any correct rounding of `x` is `m`. */
  ghost predicate RoundsTo(x: real, m: Magnitude) {
    forall o: Magnitude :: Canonical(o) && o != m ==> Distance(x, Exact(m)) < Distance(x, Exact(o))
  }

  function Distance(x: real, y: real): real {
    if x < y then y - x else x - y
  }

  /** How much of a unit the printer looks below `m`: half the gap, which halves at a power of two. */
  function LowerPart(m: Magnitude): real {
    if m.f == TWO_52 then 0.25 else 0.5
  }

  /** Strictly between the midpoint above `m` and the bound below it. */
  predicate Surrounds(m: Magnitude, x: real, unit: real) {
    (m.f as real - LowerPart(m)) * unit < x < (m.f as real + 0.5) * unit
  }

  // ---- the gaps around a magnitude -------------------------------------------------------------

  /** `o` as a whole number of units `2^e`. */
  lemma InUnits(o: Magnitude, e: int, unit: real) returns (g: nat)
    requires o.e >= e && unit == R2(e)
    ensures g == o.f * Pow2(o.e - e) && Exact(o) == g as real * unit
  {
    var p, big := Pow2(o.e - e), R2(o.e);
    g := o.f * p;
    R2Shift(e, o.e - e, unit, big, p);
    Regroup(o.f, p, unit, big);
    var v := ExactValue(o, big);
  }

  lemma Regroup(f: nat, p: nat, unit: real, y: real)
    requires y == p as real * unit
    ensures f as real * y == (f * p) as real * unit
  {
    ProductReal(f, p);
    assert (f as real * p as real) * unit == f as real * (p as real * unit);
  }

  /** Another magnitude with a smaller exponent stays below the smallest normal at `e`. */
  lemma SmallerExponent(o: Magnitude, e: int, unit: real)
    requires Canonical(o) && o.e < e && unit == R2(e)
    ensures Exact(o) <= (TWO_52 as real - 0.5) * unit
  {
    var small, half, g := HalfUnit(o.e, e, unit);
    Below53(o.f, g, small, half, unit);
  }

  lemma HalfUnit(e0: int, e: int, unit: real) returns (small: real, half: real, g: nat)
    requires e0 < e && unit == R2(e)
    ensures small == R2(e0) && small > 0.0 && g >= 1
    ensures half == g as real * small && unit == 2.0 * half
  {
    small, half, g := R2(e0), R2(e - 1), Pow2(e - 1 - e0);
    R2Shift(e0, e - 1 - e0, small, half, g);
    Pow2Monotone(0, e - 1 - e0);
    R2Step(e - 1);
    R2Pos(e0);
  }

  lemma Below53(f: nat, g: nat, small: real, half: real, unit: real)
    requires f <= TWO_53 - 1 && g >= 1 && small > 0.0
    requires half == g as real * small && unit == 2.0 * half
    ensures f as real * small <= (TWO_52 as real - 0.5) * unit
  {
    RMulLessEq(small, 1.0, g as real);
    assert small <= half;
    RMulLessEq(f as real, small, half);
    RMulLessEq(half, f as real, (TWO_53 - 1) as real);
  }

  lemma MultipleGap(f: nat, g: nat, unit: real)
    requires unit > 0.0
    ensures g > f ==> g as real * unit >= (f as real + 1.0) * unit
    ensures g < f ==> g as real * unit <= (f as real - 1.0) * unit
  {
    if g > f {
      RMulLessEq(unit, f as real + 1.0, g as real);
    } else if g < f {
      RMulLessEq(unit, g as real, f as real - 1.0);
    }
  }

  /** Every other magnitude is a full gap away: `2^e`, or half of that below a power of two. */
  lemma Gap(m: Magnitude, o: Magnitude, unit: real)
    requires Canonical(m) && Canonical(o) && o != m && unit == R2(m.e) && unit > 0.0
    ensures Apart(Exact(o), m.f, unit)
  {
    if o.e >= m.e {
      var g := InUnits(o, m.e, unit);
      SameUnits(m, o, g);
      ApartInUnits(m.f, g, unit);
    } else {
      SmallerExponent(o, m.e, unit);
      ApartBelow(Exact(o), m.f, unit);
    }
  }

  predicate Apart(y: real, f: nat, unit: real) {
    y >= (f as real + 1.0) * unit || y <= (f as real - (if f == TWO_52 then 0.5 else 1.0)) * unit
  }

  lemma ApartInUnits(f: nat, g: nat, unit: real)
    requires unit > 0.0 && g != f
    ensures Apart(g as real * unit, f, unit)
  {
    MultipleGap(f, g, unit);
    RMulLessEq(unit, f as real - 1.0, f as real - 0.5);
  }

  lemma ApartBelow(y: real, f: nat, unit: real)
    requires unit > 0.0 && f >= TWO_52 && y <= (TWO_52 as real - 0.5) * unit
    ensures Apart(y, f, unit)
  {
    RMulLessEq(unit, TWO_52 as real - 0.5, f as real - (if f == TWO_52 then 0.5 else 1.0));
  }

  lemma SameUnits(m: Magnitude, o: Magnitude, g: nat)
    requires Canonical(m) && Canonical(o) && o != m && o.e >= m.e
    requires g == o.f * Pow2(o.e - m.e)
    ensures g != m.f
  {
    if o.e > m.e {
      Pow2Monotone(1, o.e - m.e);
      MulLessEq(o.f, 2, Pow2(o.e - m.e));
    }
  }

  // ---- the bound below a magnitude ---------------------------------------------------------------

  /** The next magnitude below `m`. */
  function Below(m: Magnitude): Magnitude
    requires m.f > 0
  {
    if m.f == TWO_52 && m.e > -1074 then Magnitude(TWO_53 - 1, m.e - 1) else Magnitude(m.f - 1, m.e)
  }

  /** The distance to the lower neighbour, in units. */
  function Step(m: Magnitude): real { if m.f == TWO_52 && m.e > -1074 then 0.5 else 1.0 }

  lemma BelowValue(m: Magnitude, unit: real)
    requires Canonical(m) && m.f > 0 && unit == R2(m.e)
    ensures Exact(Below(m)) == (m.f as real - Step(m)) * unit
  {
    var half := R2(m.e - 1);
    R2Step(m.e - 1);
    if m.f == TWO_52 && m.e > -1074 {
      var v := ExactValue(Below(m), half);
      assert v == (2.0 * (TWO_52 as real - 0.5)) * half;
    } else {
      var v := ExactValue(Below(m), unit);
    }
  }

  /** At least a unit above `f`, or `step` units below it. */
  predicate Away(y: real, f: real, step: real, unit: real) {
    y >= (f + 1.0) * unit || y <= (f - step) * unit
  }

  lemma WholeUnits(f: nat, g: nat, unit: real)
    requires unit > 0.0 && g != f
    ensures Away(g as real * unit, f as real, 1.0, unit)
  {
    MultipleGap(f, g, unit);
  }

  lemma ApartSteps(y: real, f: nat, unit: real, step: real)
    requires Apart(y, f, unit) && step == if f == TWO_52 then 0.5 else 1.0
    ensures Away(y, f as real, step, unit)
  {
  }

  lemma AwayByStep(m: Magnitude, o: Magnitude, unit: real)
    requires Canonical(m) && Canonical(o) && o != m && unit == R2(m.e) && unit > 0.0
    ensures Away(Exact(o), m.f as real, Step(m), unit)
  {
    if m.e == -1074 {
      var g := InUnits(o, m.e, unit);
      SameUnits(m, o, g);
      WholeUnits(m.f, g, unit);
    } else {
      Gap(m, o, unit);
      ApartSteps(Exact(o), m.f, unit, Step(m));
    }
  }

  lemma Settle(f: real, step: real, unit: real, v: real, y: real)
    requires unit > 0.0 && step > 0.0 && v == f * unit && y < v
    requires Away(y, f, step, unit)
    ensures y <= (f - step) * unit < v
  {
    assert (f + 1.0) * unit == v + unit;
    var u := step * unit;
    assert u > 0.0 && (f - step) * unit == v - u;
  }

  /** `Below` is canonical, smaller, and nothing lies in between. */
  lemma BelowIsNext(m: Magnitude, o: Magnitude)
    requires Canonical(m) && m.f > 0 && Canonical(o) && Exact(o) < Exact(m)
    ensures Canonical(Below(m)) && Exact(o) <= Exact(Below(m)) < Exact(m)
  {
    var unit := R2(m.e);
    R2Pos(m.e);
    BelowValue(m, unit);
    var v := ExactValue(m, unit);
    AwayByStep(m, o, unit);
    Settle(m.f as real, Step(m), unit, v, Exact(o));
  }

  /**
   * The printer's lower bound is the midpoint of `m` and its lower neighbour, except at the smallest
   * normal number, where the gap below does not halve and the bound lies above the midpoint.
   */
  lemma HalfwayBelow(m: Magnitude)
    requires Canonical(m) && m.f > 0
    ensures 2.0 * ((m.f as real - LowerPart(m)) * R2(m.e)) == Exact(m) + Exact(Below(m))
            <==> m != Magnitude(TWO_52, -1074)
  {
    var unit := R2(m.e);
    R2Pos(m.e);
    BelowValue(m, unit);
    var v := ExactValue(m, unit);
  }

  /** A real strictly inside the printer's interval is nearest to the magnitude it surrounds. */
  lemma InsideRounds(x: real, m: Magnitude, unit: real)
    requires Canonical(m) && unit == R2(m.e) && Surrounds(m, x, unit)
    ensures RoundsTo(x, m)
  {
    var v := ExactValue(m, unit);
    forall o: Magnitude | Canonical(o) && o != m
      ensures Distance(x, Exact(m)) < Distance(x, Exact(o))
    {
      CloserThan(x, m, o, unit, v);
    }
  }

  lemma ExactValue(m: Magnitude, unit: real) returns (v: real)
    requires unit == R2(m.e)
    ensures v == Exact(m) && v == m.f as real * unit
  {
    v := Exact(m);
  }

  lemma CloserThan(x: real, m: Magnitude, o: Magnitude, unit: real, v: real)
    requires Canonical(m) && Canonical(o) && o != m && unit == R2(m.e) && Surrounds(m, x, unit)
    requires v == m.f as real * unit
    ensures Distance(x, v) < Distance(x, Exact(o))
  {
    R2Pos(m.e);
    Gap(m, o, unit);
    ApartSteps(Exact(o), m.f, unit, 2.0 * LowerPart(m));
    Closer(x, m.f as real, unit, Exact(o), LowerPart(m));
  }

  lemma Closer(x: real, f: real, unit: real, o: real, low: real)
    requires unit > 0.0 && (f - low) * unit < x < (f + 0.5) * unit && 0.0 < low <= 0.5
    requires Away(o, f, 2.0 * low, unit)
    ensures Distance(x, f * unit) < Distance(x, o)
  {
    var v, u := f * unit, low * unit;
    assert (f - low) * unit == v - u;
    assert (f - 2.0 * low) * unit == v - 2.0 * u;
    assert (f + 1.0) * unit == v + unit;
    assert (f + 0.5) * unit == v + 0.5 * unit;
    RMulLessEq(unit, low, 0.5);
  }
}
