/**
 * Decimal numerals: the value of a digit string and the canonical string of a value.
 *
 * `Value` reads any string of digits, leading zeros included. `Numeral` writes a number without
 * leading zeros. On canonical strings the two are inverse to each other, in both directions.
 *
 * The printer of doubles, the printer of integers, the parser of integers and the reply counter
 * all share these.
 */
module Decimal {
  import opened Powers

  predicate IsDigit(c: char) {
    '0' <= c <= '9'
  }

  function DigitValue(c: char): (d: nat)
    requires IsDigit(c)
    ensures d < 10
  {
    c as int - '0' as int
  }

  function DigitChar(d: nat): (c: char)
    requires d < 10
    ensures IsDigit(c) && DigitValue(c) == d
  {
    ('0' as int + d) as char
  }

  predicate AllDigits(s: string) {
    forall i :: 0 <= i < |s| ==> IsDigit(s[i])
  }

  function Value(s: string): nat
    requires AllDigits(s)
  {
    if |s| == 0 then 0 else 10 * Value(s[..|s| - 1]) + DigitValue(s[|s| - 1])
  }

  lemma ValueAppend(s: string, c: char)
    requires AllDigits(s) && IsDigit(c)
    ensures AllDigits(s + [c]) && Value(s + [c]) == 10 * Value(s) + DigitValue(c)
  {
    assert (s + [c])[..|s|] == s;
  }

  lemma {:induction false} ValueConcat(s: string, t: string)
    requires AllDigits(s) && AllDigits(t)
    ensures AllDigits(s + t) && Value(s + t) == Value(s) * Pow10(|t|) + Value(t)
    decreases |t|
  {
    if |t| == 0 {
      assert s + t == s;
    } else {
      var u, c := t[..|t| - 1], t[|t| - 1];
      assert t == u + [c];
      assert s + t == (s + u) + [c];
      ValueConcat(s, u);
      ValueAppend(s + u, c);
      ValueAppend(u, c);
      ShiftDigit(Value(s), Pow10(|u|));
    }
  }

  lemma ShiftDigit(a: nat, p: nat)
    ensures a * (10 * p) == 10 * (a * p)
  {
  }

  lemma {:induction false} ValueBound(s: string)
    requires AllDigits(s)
    ensures Value(s) < Pow10(|s|)
    ensures |s| > 0 && s[0] != '0' ==> Pow10(|s| - 1) <= Value(s)
    decreases |s|
  {
    if |s| > 0 {
      ValueBound(s[..|s| - 1]);
    }
  }

  /** The spelling of `n` without leading zeros. */
  function Numeral(n: nat): string {
    if n < 10 then [DigitChar(n)] else Numeral(n / 10) + [DigitChar(n % 10)]
  }

  /** No leading zero, except in "0" itself. */
  predicate Canonical(s: string) {
    AllDigits(s) && |s| > 0 && (|s| > 1 ==> s[0] != '0')
  }

  lemma {:induction false} NumeralValue(n: nat)
    ensures Canonical(Numeral(n)) && Value(Numeral(n)) == n
    ensures Numeral(n)[0] == '0' ==> n == 0
  {
    if n < 10 {
      ValueAppend([], DigitChar(n));
      assert [] + [DigitChar(n)] == [DigitChar(n)];
    } else {
      NumeralValue(n / 10);
      ValueAppend(Numeral(n / 10), DigitChar(n % 10));
    }
  }

  lemma {:induction false} NumeralOfValue(s: string)
    requires Canonical(s)
    ensures Numeral(Value(s)) == s
    decreases |s|
  {
    var u, c := s[..|s| - 1], s[|s| - 1];
    assert s == u + [c];
    if |u| > 0 {
      ValueBound(u);
      Pow10Monotone(0, |u| - 1);
      NumeralOfValue(u);
    }
  }

  lemma {:induction false} NumeralLength(n: nat, w: nat)
    requires w > 0 && n < Pow10(w)
    ensures 1 <= |Numeral(n)| <= w
    decreases w
  {
    if n >= 10 {
      NumeralLength(n / 10, w - 1);
    }
  }
}
