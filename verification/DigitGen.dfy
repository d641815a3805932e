/**
 * Grisu2's digit generation: the two digit loops and the weeding step, on 64-bit words.
 *
 * The scaled upper boundary `upper`, the interval width `delta` below it and the distance of the
 * scaled value from it share one fixed-point format with `shift` fraction bits.
 *
 * A number is `Inside` when its multiple of `unit` lies in the interval, and its `Miss` is how far
 * that multiple is from the scaled value. The loops end on a `Chosen` number: inside, closest of
 * all that are, and with nothing of a coarser unit in the interval.
 */
module DigitGen {
  import opened Powers
  import opened Decimal
  import opened Words

  /** A 64-bit word. Every variable of this type carries the proof that nothing overflowed. */
  type U64 = n: nat | n < TWO_64

  const KTENS: seq<nat> := [
    10000000000000000000, 1000000000000000000, 100000000000000000,
    10000000000000000, 1000000000000000, 100000000000000,
    10000000000000, 1000000000000, 100000000000,
    10000000000, 1000000000, 100000000,
    10000000, 1000000, 100000,
    10000, 1000, 100,
    10, 1
  ]

  ghost predicate ValidTens(tens: seq<nat>) {
    |tens| == 20 && forall i :: 0 <= i < 20 ==> tens[i] == Pow10(19 - i) && tens[i] < TWO_64
  }

  function Abs(x: int): nat {
    if x < 0 then -x else x
  }

  /** `n * unit` lies in `[upper - delta, upper]`. */
  predicate Inside(n: nat, unit: nat, upper: nat, delta: nat) {
    n * unit <= upper <= n * unit + delta
  }

  /** `m * unit` lies in `(upper - delta, upper]`. */
  predicate Above(m: nat, unit: nat, upper: nat, delta: nat) {
    m * unit <= upper < m * unit + delta
  }

  /** How far `n * unit` is from the scaled value `upper - distance`. */
  function Miss(n: nat, unit: nat, upper: nat, distance: nat): nat {
    Abs(upper - n * unit - distance)
  }

  /**
   * `n` is an acceptable output at this `unit`: inside the interval, closest to the scaled value of all
   * multiples of `unit` inside it, the greater one of two equally close, and no multiple of `10 * unit`
   * lies above the open end.
   */
  ghost predicate Chosen(n: nat, unit: nat, upper: nat, delta: nat, distance: nat) {
    && Inside(n, unit, upper, delta)
    && (forall m: nat :: Inside(m, unit, upper, delta) ==>
          Miss(n, unit, upper, distance) <= Miss(m, unit, upper, distance))
    && (forall m: nat :: Inside(m, unit, upper, delta) && m > n ==>
          Miss(n, unit, upper, distance) < Miss(m, unit, upper, distance))
    && (forall m: nat :: !Above(m, 10 * unit, upper, delta))
  }

  /** No multiple of `unit` is inside: what makes the digits above the point go on. */
  ghost predicate NoneInside(unit: nat, upper: nat, delta: nat) {
    forall m: nat :: !Inside(m, unit, upper, delta)
  }

  /** Some multiple of `unit` is above the open end: what makes the digits below the point stop. */
  ghost predicate SomeAbove(unit: nat, upper: nat, delta: nat) {
    exists m: nat :: Above(m, unit, upper, delta)
  }

  /** There is only one such number. */
  lemma ChosenOnce(n: nat, m: nat, unit: nat, upper: nat, delta: nat, distance: nat)
    requires Chosen(n, unit, upper, delta, distance) && Chosen(m, unit, upper, delta, distance)
    ensures n == m
  {
    assert n < m ==> Miss(n, unit, upper, distance) < Miss(m, unit, upper, distance);
    assert m < n ==> Miss(m, unit, upper, distance) < Miss(n, unit, upper, distance);
  }

  // ---- weeding ------------------------------------------------------------------------------

  /** The remainder left after lowering the last digit `i` times. */
  function Lowered(remainder: nat, i: nat, unit: nat): nat {
    remainder + i * unit
  }

  ghost predicate ClosestRemainder(remainder: nat, steps: nat, delta: nat, unit: nat, distance: nat) {
    && Lowered(remainder, steps, unit) <= delta
    && (forall i: nat :: Lowered(remainder, i, unit) <= delta ==>
          Abs(Lowered(remainder, steps, unit) - distance) <= Abs(Lowered(remainder, i, unit) - distance))
    && (forall i: nat :: i < steps ==>
          Abs(Lowered(remainder, steps, unit) - distance) < Abs(Lowered(remainder, i, unit) - distance))
  }

  lemma LoweredStep(remainder: nat, i: nat, unit: nat)
    ensures Lowered(remainder, i + 1, unit) == Lowered(remainder, i, unit) + unit
  {
  }

  lemma LoweredMonotone(remainder: nat, i: nat, j: nat, unit: nat)
    requires i <= j
    ensures Lowered(remainder, i, unit) <= Lowered(remainder, j, unit)
  {
    MulLessEq(unit, i, j);
  }

  /** Past the loop's exit test no further lowering comes closer. */
  lemma WeedingStops(remainder: nat, steps: nat, i: nat, delta: nat, unit: nat, distance: nat)
    requires steps < i && Lowered(remainder, i, unit) <= delta
    requires var r := Lowered(remainder, steps, unit);
             r >= distance || delta < r + unit
             || (r + unit >= distance && distance - r <= r + unit - distance)
    ensures Abs(Lowered(remainder, steps, unit) - distance) <= Abs(Lowered(remainder, i, unit) - distance)
  {
    LoweredStep(remainder, steps, unit);
    LoweredMonotone(remainder, steps + 1, i, unit);
  }

  /**
   * Lowers the last digit while the remainder comes closer to `distance` and stays within `delta`.
   * The ghost result counts the decrements.
   */
  method WeedLastDigit(digits: array<char>, count: nat, delta: U64, remainder: U64, unit: U64, distance: U64)
    returns (ghost steps: nat)
    requires 1 <= count <= digits.Length && IsDigit(digits[count - 1])
    requires unit > 0 && remainder <= delta
    requires delta <= Lowered(remainder, DigitValue(digits[count - 1]), unit)
    modifies digits
    ensures steps <= DigitValue(old(digits[count - 1]))
    ensures digits[..] == old(digits[..])[count - 1 := DigitChar(DigitValue(old(digits[count - 1])) - steps)]
    ensures ClosestRemainder(remainder, steps, delta, unit, distance)
  {
    var rest: U64 := remainder;
    steps := 0;
    ghost var d := DigitValue(digits[count - 1]);
    while rest < distance && delta - rest >= unit &&
          (rest + unit < distance || distance - rest > rest + unit - distance)
      invariant rest == Lowered(remainder, steps, unit) <= delta
      invariant steps <= d
      invariant digits[..] == old(digits[..])[count - 1 := DigitChar(d - steps)]
      invariant forall i: nat :: i < steps ==>
                  Abs(rest - distance) < Abs(Lowered(remainder, i, unit) - distance)
      decreases delta - rest
    {
      if steps == d {
        assert false;
      }
      LoweredStep(remainder, steps, unit);
      digits[count - 1] := (digits[count - 1] as int - 1) as char;
      var next: U64 := rest + unit;
      rest := next;
      steps := steps + 1;
    }
    forall i: nat | Lowered(remainder, i, unit) <= delta
      ensures Abs(rest - distance) <= Abs(Lowered(remainder, i, unit) - distance)
    {
      if i > steps {
        WeedingStops(remainder, steps, i, delta, unit, distance);
      }
    }
  }

  // ---- from remainders to numbers -------------------------------------------------------------

  lemma LoweredNumber(n: nat, steps: nat, remainder: nat, unit: nat)
    requires steps <= n
    ensures (n - steps) * unit + Lowered(remainder, steps, unit) == n * unit + remainder
  {
  }

  lemma OnlyBelow(n: nat, m: nat, remainder: nat, unit: nat)
    requires m * unit <= n * unit + remainder && remainder < unit
    ensures m <= n
  {
    if m > n {
      MulLessEq(unit, n + 1, m);
    }
  }

  /** The weeded number is inside the interval, the closest of all multiples inside it, and the greatest of those. */
  lemma WeedingChooses(n: nat, steps: nat, remainder: nat, unit: nat, upper: nat, delta: nat, distance: nat)
    requires steps <= n && remainder < unit && upper == n * unit + remainder
    requires ClosestRemainder(remainder, steps, delta, unit, distance)
    ensures Inside(n - steps, unit, upper, delta)
    ensures forall m: nat :: Inside(m, unit, upper, delta) ==>
              Miss(n - steps, unit, upper, distance) <= Miss(m, unit, upper, distance)
    ensures forall m: nat :: Inside(m, unit, upper, delta) && m > n - steps ==>
              Miss(n - steps, unit, upper, distance) < Miss(m, unit, upper, distance)
  {
    LoweredNumber(n, steps, remainder, unit);
    forall m: nat | Inside(m, unit, upper, delta)
      ensures Miss(n - steps, unit, upper, distance) <= Miss(m, unit, upper, distance)
      ensures m > n - steps ==> Miss(n - steps, unit, upper, distance) < Miss(m, unit, upper, distance)
    {
      OnlyBelow(n, m, remainder, unit);
      LoweredNumber(n, n - m, remainder, unit);
      assert Lowered(remainder, n - m, unit) == upper - m * unit;
    }
  }

  /** Where the remainder at `unit` reaches `delta`, no multiple of `unit` is above the open end. */
  lemma NothingCoarser(n: nat, remainder: nat, unit: nat, upper: nat, delta: nat)
    requires upper == n * unit + remainder && delta <= remainder < unit
    ensures forall m: nat :: !Above(m, unit, upper, delta)
  {
    forall m: nat
      ensures !Above(m, unit, upper, delta)
    {
      if m * unit <= upper {
        OnlyBelow(n, m, remainder, unit);
        MulLessEq(unit, m, n);
      }
    }
  }

  lemma NothingInside(n: nat, remainder: nat, unit: nat, upper: nat, delta: nat)
    requires Split(n, unit, remainder, upper) && delta < remainder
    ensures NoneInside(unit, upper, delta)
  {
    forall m: nat
      ensures !Inside(m, unit, upper, delta)
    {
      if m * unit <= upper {
        OnlyBelow(n, m, remainder, unit);
        MulLessEq(unit, m, n);
      }
    }
  }

  lemma ReplaceLast(s: string, c: char)
    requires |s| > 0 && AllDigits(s) && IsDigit(c)
    ensures AllDigits(s[|s| - 1 := c])
    ensures Value(s[|s| - 1 := c]) + DigitValue(s[|s| - 1]) == Value(s) + DigitValue(c)
  {
    assert s[|s| - 1 := c][..|s| - 1] == s[..|s| - 1];
  }

  // ---- digits above the point -----------------------------------------------------------------

  /** The digits written so far: no leading zero, and none at all only while their value is zero. */
  ghost predicate Digits(s: string, n: nat) {
    AllDigits(s) && Value(s) == n && (|s| > 0 ==> s[0] != '0')
  }

  lemma DigitsZero(s: string, n: nat)
    requires Digits(s, n)
    ensures n == 0 <==> |s| == 0
  {
    if |s| > 0 {
      ValueBound(s);
      Pow10Monotone(0, |s| - 1);
    }
  }

  lemma DigitsAppend(s: string, n: nat, d: nat)
    requires Digits(s, n) && d < 10
    ensures if d == 0 && |s| == 0 then Digits(s, 10 * n + d) else Digits(s + [DigitChar(d)], 10 * n + d)
  {
    ValueAppend(s, DigitChar(d));
  }

  lemma DivideDigit(integral: nat, div: nat)
    requires div > 0 && integral < 10 * div
    ensures integral / div < 10
    ensures integral == (integral / div) * div + integral % div
  {
    var q := integral / div;
    assert integral == q * div + integral % div;
    if q >= 10 {
      MulLessEq(div, 10, q);
    }
  }

  /** Writing one digit of `integral` moves it into the number: `n * 10 * div + integral` is kept. */
  lemma MoveDigit(n: nat, digit: nat, div: nat, rest: nat)
    ensures (10 * n + digit) * div + rest == n * (10 * div) + (digit * div + rest)
  {
  }

  lemma Widen(n: nat, div: nat, rest: nat, one: nat, fraction: nat, whole: nat)
    requires whole == n * div + rest
    ensures whole * one + fraction == n * (div * one) + (rest * one + fraction)
  {
  }

  lemma RestBelow(rest: nat, div: nat, one: nat, fraction: nat)
    requires rest < div && fraction < one
    ensures rest * one + fraction < div * one
  {
    MulLessEq(one, rest + 1, div);
  }

  /** Weeding a digit string: what `WeedLastDigit` leaves in the buffer is the chosen number. */
  lemma WeededDigits(s: string, n: nat, steps: nat, remainder: nat, unit: nat, upper: nat, delta: nat, distance: nat)
    requires |s| > 0 && Digits(s, n) && remainder < unit && upper == n * unit + remainder
    requires steps <= DigitValue(s[|s| - 1])
    requires ClosestRemainder(remainder, steps, delta, unit, distance)
    requires |s| > 1 || delta < Lowered(remainder, n, unit)
    requires forall m: nat :: !Above(m, 10 * unit, upper, delta)
    ensures steps <= n
    ensures Digits(s[|s| - 1 := DigitChar(DigitValue(s[|s| - 1]) - steps)], n - steps)
    ensures Chosen(n - steps, unit, upper, delta, distance)
  {
    var c := DigitChar(DigitValue(s[|s| - 1]) - steps);
    ReplaceLast(s, c);
    WeedingChooses(n, steps, remainder, unit, upper, delta, distance);
    if |s| == 1 {
      assert s[..0] == [];
      assert n == DigitValue(s[0]);
      if steps == n {
        assert false;
      }
    }
  }

  /** `if (digit || count) digits[count++] = '0' + digit` */
  method EmitDigit(digits: array<char>, count: nat, digit: nat, ghost n: nat) returns (count': nat)
    requires count < digits.Length && digit < 10 && Digits(digits[..count], n)
    modifies digits
    ensures count' == (if digit != 0 || n != 0 then count + 1 else count)
    ensures Digits(digits[..count'], 10 * n + digit)
    ensures count' > 0 ==> DigitValue(digits[count' - 1]) == digit
  {
    ghost var s := digits[..count];
    DigitsAppend(s, n, digit);
    DigitsZero(s, n);
    count' := count;
    if digit != 0 || count != 0 {
      digits[count] := DigitChar(digit);
      count' := count + 1;
      assert digits[..count'] == s + [DigitChar(digit)];
    }
  }

  /** What splitting one digit off `integral` keeps and establishes. */
  ghost predicate Split(n: nat, unit: nat, remainder: nat, upper: nat) {
    upper == n * unit + remainder && remainder < unit
  }

  lemma SplitPositive(n: nat, unit: nat, remainder: nat, upper: nat)
    requires Split(n, unit, remainder, upper) && remainder < upper
    ensures n > 0 && unit <= upper
  {
    assert n == 0 ==> n * unit == 0;
    MulLessEq(unit, 1, n);
  }

  /** One step from `10 * unit` to `unit`. */
  lemma SplitStep(n: nat, digit: nat, unit: nat, rest: nat, upper: nat, delta: nat)
    requires Split(n, 10 * unit, digit * unit + rest, upper) && rest < unit
    requires delta <= digit * unit + rest
    ensures Split(10 * n + digit, unit, rest, upper)
    ensures Lowered(rest, digit, unit) == digit * unit + rest
    ensures forall m: nat :: !Above(m, 10 * unit, upper, delta)
  {
    MoveDigit(n, digit, unit, rest);
    NothingCoarser(n, digit * unit + rest, 10 * unit, upper, delta);
  }

  /**
   * The last digit written was `digit`, leaving `rest` at this unit; it cannot be lowered to below
   * zero within `delta`, and no multiple of the next coarser unit would do.
   */
  ghost predicate Ready(n: nat, digit: nat, rest: nat, unit: nat, upper: nat, delta: nat) {
    && Split(n, unit, rest, upper)
    && delta <= Lowered(rest, digit, unit)
    && (forall m: nat :: !Above(m, 10 * unit, upper, delta))
  }

  /** Weeds the digits just written; `n'` is the number they spell afterwards. */
  method Finish(digits: array<char>, count: nat, delta: U64, remainder: U64, unit: U64, distance: U64,
                ghost n: nat, ghost digit: nat, ghost upper: nat)
    returns (ghost n': nat)
    requires 1 <= count <= digits.Length && Digits(digits[..count], n) && DigitValue(digits[count - 1]) == digit
    requires Ready(n, digit, remainder, unit, upper, delta) && remainder <= delta
    requires count == 1 ==> delta < Lowered(remainder, digit, unit)
    modifies digits
    ensures Digits(digits[..count], n') && Chosen(n', unit, upper, delta, distance)
  {
    ghost var s := digits[..count];
    if count == 1 {
      SingleDigit(s, n);
    }
    ghost var steps := WeedLastDigit(digits, count, delta, remainder, unit, distance);
    WeededDigits(s, n, steps, remainder, unit, upper, delta, distance);
    assert digits[..count] == s[count - 1 := DigitChar(DigitValue(s[count - 1]) - steps)];
    n' := n - steps;
  }

  lemma SingleDigit(s: string, n: nat)
    requires |s| == 1 && Digits(s, n)
    ensures n == DigitValue(s[0])
  {
    assert s[..|s| - 1] == [];
    assert Value(s) == 10 * Value([]) + DigitValue(s[0]);
  }

  lemma SplitStart(upper: nat, one: nat, weight: nat)
    requires one > 0 && upper / one < weight
    ensures Split(0, weight * one, (upper / one) * one + upper % one, upper)
  {
    RestBelow(upper / one, weight, one, upper % one);
  }

  /** Between digits: `n` written, `integral` and `fractional` still to come, more than `delta` of them. */
  ghost predicate Writing(kappa: nat, n: nat, integral: nat, fractional: nat, one: nat, r: nat, upper: nat, delta: nat) {
    && integral < Pow10(kappa) && fractional < one
    && r == integral * one + fractional && delta < r
    && Split(n, Pow10(kappa) * one, r, upper)
  }

  lemma WritingStart(upper: nat, one: nat, delta: nat)
    requires one > 0 && upper / one < Pow10(10) && delta < upper
    ensures Writing(10, 0, upper / one, upper % one, one, upper, upper, delta)
  {
    SplitStart(upper, one, Pow10(10));
  }

  /** `integral` loses its leading digit. The results name the new unit and remainder. */
  lemma WritingStep(kappa: nat, n: nat, integral: nat, fractional: nat, one: nat, r: nat, upper: nat, delta: nat,
                    div: nat, digit: int)
    returns (left: nat, unit: nat, rest: nat)
    requires kappa > 0 && div == Pow10(kappa - 1) && Writing(kappa, n, integral, fractional, one, r, upper, delta)
    requires div > 0 && digit == integral / div
    ensures 0 <= digit < 10 && left == integral - digit * div && left <= integral
    ensures unit == div * one && rest == left * one + fractional && rest <= upper
    ensures Ready(10 * n + digit, digit, rest, unit, upper, delta) && delta < Lowered(rest, digit, unit)
    ensures rest <= delta ==> 10 * n + digit > 0 && unit <= upper
    ensures delta < rest ==> Writing(kappa - 1, 10 * n + digit, left, fractional, one, rest, upper, delta)
  {
    TenTimes(kappa, div, one);
    DivideDigit(integral, div);
    left := integral % div;
    Widen(digit, div, left, one, fractional, integral);
    RestBelow(left, div, one, fractional);
    unit, rest := div * one, left * one + fractional;
    SplitStep(n, digit, unit, rest, upper, delta);
    RestInside(10 * n + digit, unit, rest, upper);
    if rest <= delta {
      SplitPositive(10 * n + digit, unit, rest, upper);
    }
  }

  lemma RestInside(n: nat, unit: nat, rest: nat, upper: nat)
    requires Split(n, unit, rest, upper)
    ensures rest <= upper
  {
    MulLessEq(n, 0, unit);
  }

  /** At the point, the digits written are the integral part. */
  lemma WritingDone(n: nat, integral: nat, fractional: nat, one: nat, r: nat, upper: nat, delta: nat)
    requires one > 0 && one <= upper && Writing(0, n, integral, fractional, one, r, upper, delta)
    ensures n == upper / one && n > 0 && delta < upper % one
  {
    assert integral == 0 && r == fractional;
    assert Split(n, one, fractional, upper);
    SplitQuotient(n, one, fractional, upper);
    SplitPositive(n, one, fractional, upper);
  }

  /**
   * The digits of the integral part of `upper`, most significant first, stopping as soon as the
   * remainder fits in `delta`. `done` tells whether that happened before the point was reached.
   */
  method IntegralDigits(tens: seq<nat>, digits: array<char>, upper: U64, delta: U64, distance: U64, one: U64)
    returns (done: bool, count: nat, kappa: nat, ghost n: nat)
    requires ValidTens(tens) && digits.Length >= 18
    requires one > 0 && delta < upper && one <= upper && upper / one < Pow10(10)
    modifies digits
    ensures 1 <= count <= 10 && kappa < 10
    ensures Digits(digits[..count], n)
    ensures done ==> Chosen(n, Pow10(kappa) * one, upper, delta, distance) && NoneInside(Pow10(kappa + 1) * one, upper, delta)
    ensures !done ==> kappa == 0 && n == upper / one && delta < upper % one
  {
    var integral: U64 := upper / one;
    var fractional: U64 := upper % one;
    count := 0;
    kappa := 10;
    n := 0;
    var divisor := 10;
    ghost var r: nat := upper;
    assert digits[..0] == [];
    WritingStart(upper, one, delta);
    while kappa > 0
      invariant kappa <= 10 && divisor == 20 - kappa
      invariant count <= 10 - kappa
      invariant Digits(digits[..count], n)
      invariant Writing(kappa, n, integral, fractional, one, r, upper, delta)
    {
      done, count, integral, n, r :=
        IntegralDigit(digits, count, kappa, tens[divisor], integral, fractional, delta, distance, one, n, r, upper);
      kappa := kappa - 1;
      if done {
        return;
      }
      divisor := divisor + 1;
    }
    WritingDone(n, integral, fractional, one, r, upper, delta);
    DigitsZero(digits[..count], n);
    return false, count, 0, n;
  }

  /** The next digit of the integral part; weeded, and the last one, if what remains fits in `delta`. */
  method IntegralDigit(digits: array<char>, count: nat, kappa: nat, div: U64, integral: U64, fractional: U64, delta: U64,
                       distance: U64, one: U64, ghost n: nat, ghost r: nat, ghost upper: U64)
    returns (done: bool, count': nat, integral': U64, ghost n': nat, ghost rest: nat)
    requires digits.Length >= 18 && 0 < kappa <= 10 && count <= 10 - kappa && Digits(digits[..count], n)
    requires div == Pow10(kappa - 1) && one > 0 && Writing(kappa, n, integral, fractional, one, r, upper, delta)
    modifies digits
    ensures count <= count' <= count + 1 && Digits(digits[..count'], n')
    ensures done ==> count' >= 1 && Chosen(n', Pow10(kappa - 1) * one, upper, delta, distance)
    ensures NoneInside(Pow10(kappa) * one, upper, delta)
    ensures !done ==> Writing(kappa - 1, n', integral', fractional, one, rest, upper, delta)
  {
    Pow10Monotone(0, kappa - 1);
    NothingInside(n, r, Pow10(kappa) * one, upper, delta);
    var digit: int := integral / div;
    ghost var left, unit';
    left, unit', rest := WritingStep(kappa, n, integral, fractional, one, r, upper, delta, div, digit);
    count' := EmitDigit(digits, count, digit, n);
    n' := 10 * n + digit;
    integral' := integral - digit * div;
    assert integral' == left;
    var remainder: U64 := integral' * one + fractional;
    assert remainder == rest;
    done := remainder <= delta;
    if done {
      DigitsZero(digits[..count'], n');
      var unit: U64 := div * one;
      n' := Finish(digits, count', delta, remainder, unit, distance, n', digit, upper);
    }
  }

  lemma TenTimes(kappa: nat, div: nat, one: nat)
    requires kappa > 0 && div == Pow10(kappa - 1)
    ensures div > 0 && Pow10(kappa) == 10 * div && Pow10(kappa) * one == 10 * (div * one)
  {
    Pow10Monotone(0, kappa - 1);
  }

  lemma SplitQuotient(n: nat, unit: nat, remainder: nat, upper: nat)
    requires unit > 0 && Split(n, unit, remainder, upper)
    ensures upper / unit == n && upper % unit == remainder
  {
    var q := upper / unit;
    OnlyBelow(n, q, remainder, unit);
    OnlyBelow(q, n, upper % unit, unit);
  }

  // ---- digits below the point -----------------------------------------------------------------

  lemma SplitScale(n: nat, unit: nat, remainder: nat, upper: nat)
    requires Split(n, unit, remainder, upper)
    ensures Split(n, 10 * unit, 10 * remainder, 10 * upper)
  {
  }

  /** One more digit below the point: everything is scaled by ten, and the integral part moves over. */
  lemma FractionalStep(n: nat, one: nat, fractional: nat, upper: nat, delta: nat)
    requires one > 0 && Split(n, one, fractional, upper) && delta <= fractional
    ensures 0 <= (10 * fractional) / one < 10
    ensures var digit, rest := (10 * fractional) / one, (10 * fractional) % one;
      && Split(10 * n + digit, one, rest, 10 * upper)
      && Lowered(rest, digit, one) == 10 * fractional
    ensures forall m: nat :: !Above(m, 10 * one, 10 * upper, 10 * delta)
  {
    DivideDigit(10 * fractional, one);
    SplitScale(n, one, fractional, upper);
    SplitStep(n, (10 * fractional) / one, one, (10 * fractional) % one, 10 * upper, 10 * delta);
  }

  /** Fewer than 18 digits have been written while `delta`, scaled alike, is still below `one`. */
  lemma CountBound(s: string, n: nat, one: nat, p: nat, upper: nat)
    requires |s| > 0 && Digits(s, n) && 1 <= p
    requires n * one <= upper * p && upper < TWO_64 && 765 * p < one
    ensures |s| <= 17
  {
    ValueBound(s);
    if |s| >= 18 {
      Pow10Monotone(17, |s| - 1);
      SeventeenDigits();
      MulLessEq(one, 100000000000000000, n);
      MulLessEq(p, upper, TWO_64);
    }
  }

  lemma SeventeenDigits()
    ensures Pow10(17) == 100000000000000000
  {
    Pow10Add(8, 9);
    assert Pow10(8) == 100000000 && Pow10(9) == 1000000000 by { Pow10Add(4, 4); }
  }

  lemma IterationBound(m: nat, p: nat, one: nat)
    requires p == Pow10(m) && 765 * p < one <= 0x1000_0000_0000_0000
    ensures m <= 15
  {
    if m >= 16 {
      Pow10Monotone(16, m);
      SeventeenDigits();
    }
  }

  /** The loop's numbers after `m` digits: all of them scaled by `p == 10^m`. */
  ghost predicate Scaled(m: nat, p: nat, upper: nat, delta: nat, one: nat, n: nat, u: nat, d: nat, fractional: nat) {
    && p == Pow10(m) && 1 <= p
    && u == upper * p && d == delta * p
    && 765 * p <= d <= fractional < one <= 0x1000_0000_0000_0000
    && Split(n, one, fractional, u)
  }

  lemma ScaledStart(upper: nat, delta: nat, one: nat, n: nat, fractional: nat)
    requires 0 < one <= 0x1000_0000_0000_0000 && n == upper / one && fractional == upper % one
    requires 765 <= delta < fractional
    ensures Scaled(0, 1, upper, delta, one, n, upper, delta, fractional)
  {
  }

  lemma ScaledFits(m: nat, p: nat, upper: nat, delta: nat, one: nat, n: nat, u: nat, d: nat, fractional: nat)
    requires Scaled(m, p, upper, delta, one, n, u, d, fractional)
    ensures 10 * fractional < TWO_64 && 10 * d < TWO_64 && m <= 15
  {
    IterationBound(m, p, one);
  }

  /** One more digit: `grown`, the fraction times ten, is `digit` and a `rest`. */
  lemma ScaledStep(m: nat, p: nat, upper: nat, delta: nat, one: nat, n: nat, u: nat, d: nat, fractional: nat,
                   grown: nat, digit: int, rest: int)
    requires Scaled(m, p, upper, delta, one, n, u, d, fractional)
    requires grown == 10 * fractional && digit == grown / one && rest == grown % one
    ensures 0 <= digit < 10 && 0 <= rest < one
    ensures 10 * p == Pow10(m + 1) && 10 * u == upper * (10 * p) && 10 * d == delta * (10 * p)
    ensures Ready(10 * n + digit, digit, rest, one, 10 * u, 10 * d)
    ensures 10 * d <= rest ==> Scaled(m + 1, 10 * p, upper, delta, one, 10 * n + digit, 10 * u, 10 * d, rest)
  {
    FractionalStep(n, one, fractional, u, d);
    ScaleStep(upper, p);
    ScaleStep(delta, p);
  }

  lemma ScaledCount(s: string, m: nat, p: nat, upper: nat, delta: nat, one: nat, n: nat, u: nat, d: nat, fractional: nat)
    requires Scaled(m, p, upper, delta, one, n, u, d, fractional) && upper < TWO_64 && |s| > 0 && Digits(s, n)
    ensures |s| <= 17 && n > 0
  {
    CountBound(s, n, one, p, upper);
    DigitsZero(s, n);
  }

  lemma ScaleStep(x: nat, p: nat)
    ensures 10 * (x * p) == x * (10 * p)
  {
  }

  /** Weeds after a fractional digit, with the distance scaled like everything else. */
  method FinishFraction(ten: nat, digits: array<char>, count: nat, delta': U64, fractional: U64, one: U64, distance: U64,
                        ghost delta: nat, ghost n: nat, ghost digit: nat, ghost u: nat)
    returns (ghost n': nat, ghost x: nat)
    requires 2 <= count <= digits.Length && Digits(digits[..count], n) && DigitValue(digits[count - 1]) == digit
    requires Ready(n, digit, fractional, one, u, delta') && fractional < delta'
    requires distance <= delta && delta' == delta * ten
    modifies digits
    ensures Digits(digits[..count], n') && Chosen(n', one, u, delta', x) && x == distance * ten && SomeAbove(one, u, delta')
  {
    assert Above(n, one, u, delta');
    MulLessEq(ten, distance, delta);
    var distance': U64 := distance * ten;
    x := distance';
    n' := Finish(digits, count, delta', fractional, one, distance', n, digit, u);
  }

  /** One pass of the loop: scale by ten, move the integral digit into the buffer. */
  method FractionalDigit(digits: array<char>, count: nat, fractional: U64, delta': U64, one: U64, ghost m: nat,
                         ghost p: nat, ghost upper: nat, ghost delta: nat, ghost n: nat, ghost u: nat)
    returns (digit: nat, rest: U64, grown: U64)
    requires digits.Length >= 18 && 1 <= count <= digits.Length && Digits(digits[..count], n) && upper < TWO_64
    requires Scaled(m, p, upper, delta, one, n, u, delta', fractional)
    modifies digits
    ensures count + 1 <= 18 && m <= 15 && grown == 10 * delta' == delta * (10 * p) && 10 * u == upper * (10 * p)
    ensures Digits(digits[..count + 1], 10 * n + digit) && DigitValue(digits[count]) == digit
    ensures Ready(10 * n + digit, digit, rest, one, 10 * u, grown) && 10 * p == Pow10(m + 1)
    ensures grown <= rest ==> Scaled(m + 1, 10 * p, upper, delta, one, 10 * n + digit, 10 * u, grown, rest)
  {
    ScaledCount(digits[..count], m, p, upper, delta, one, n, u, delta', fractional);
    ScaledFits(m, p, upper, delta, one, n, u, delta', fractional);
    var tenfold: U64 := fractional * 10;
    grown := delta' * 10;
    var d: int, r: int := tenfold / one, tenfold % one;
    ScaledStep(m, p, upper, delta, one, n, u, delta', fractional, tenfold, d, r);
    digit, rest := d, r;
    var count' := EmitDigit(digits, count, digit, n);
  }

  /**
   * The digits of the fraction. `delta` grows tenfold with every digit, so the loop ends within 16
   * digits, and `kappa` comes back as minus their number. The ghost results are the scaled numbers.
   */
  method FractionalDigits(tens: seq<nat>, digits: array<char>, count: nat, upper: U64, delta: U64,
                          distance: U64, one: U64, ghost n0: nat)
    returns (count': nat, kappa: int, ghost n: nat, ghost p: nat, ghost u: nat, ghost d: nat, ghost x: nat)
    requires ValidTens(tens) && digits.Length >= 18
    requires 0 < one <= 0x1000_0000_0000_0000
    requires 1 <= count && count <= digits.Length && Digits(digits[..count], n0)
    requires n0 == upper / one && delta < upper % one
    requires 765 <= delta && distance <= delta
    modifies digits
    ensures 1 <= count' <= 18 && -16 <= kappa < 0 && p == Pow10(-kappa)
    ensures Digits(digits[..count'], n)
    ensures u == upper * p && d == delta * p && x == distance * p && Chosen(n, one, u, d, x) && SomeAbove(one, u, d)
    ensures NoneInside(one, upper, delta)
  {
    var fractional: U64 := upper % one;
    var delta': U64 := delta;
    count', kappa, n, p := count, 0, n0, 1;
    var unit := 18;
    u, d, x := upper, delta, distance;
    ScaledStart(upper, delta, one, n, fractional);
    NothingInside(n, fractional, one, upper, delta);
    while true
      invariant 0 <= -kappa == 18 - unit
      invariant Scaled(-kappa, p, upper, delta, one, n, u, delta', fractional)
      invariant 1 <= count' <= digits.Length && Digits(digits[..count'], n)
      decreases 16 + kappa
    {
      var digit;
      digit, fractional, delta' := FractionalDigit(digits, count', fractional, delta', one, -kappa, p, upper, delta, n, u);
      kappa := kappa - 1;
      count' := count' + 1;
      n, p, u := 10 * n + digit, 10 * p, 10 * u;
      if fractional < delta' {
        d := delta';
        n, x := FinishFraction(tens[unit], digits, count', delta', fractional, one, distance, delta, n, digit, u);
        return;
      }
      unit := unit - 1;
    }
  }
}
