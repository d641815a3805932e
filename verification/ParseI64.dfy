/** The canonical 64-bit integer grammar of the CLIENT subcommands. */
module ParseI64 {
  import opened Powers
  import opened Decimal
  import opened Words

  const INT64_MAX: nat := 0x7fff_ffff_ffff_ffff

  datatype Parsed = Rejected | Accepted(value: int)

  predicate InRange(v: int) {
    -(INT64_MAX + 1) <= v <= INT64_MAX
  }

  /** The one spelling of an integer: a minus sign if negative, then digits without leading zeros. */
  function Spell(v: int): string {
    if v < 0 then "-" + Numeral(-v) else Numeral(v)
  }

  lemma {:induction false} ValuePrefix(s: string, i: nat)
    requires i <= |s| && AllDigits(s)
    ensures Value(s[..i]) <= Value(s)
    decreases |s|
  {
    if i == |s| {
      assert s[..i] == s;
    } else {
      var init := s[..|s| - 1];
      ValuePrefix(init, i);
      assert init[..i] == s[..i];
    }
  }

  /** The digits of a spelling: canonical, and worth at most the limit for its sign. */
  lemma SpelledFrom(s: string, start: nat, n: nat)
    requires start <= |s| && s == s[..start] + Numeral(n)
    ensures |s| > start && Canonical(s[start..]) && Value(s[start..]) == n && s[start] == Numeral(n)[0]
    ensures IsDigit(s[start]) && (s[start] == '0' ==> n == 0)
  {
    NumeralValue(n);
    assert s[start..] == Numeral(n);
  }

  lemma SpellDigits(v: int)
    requires InRange(v)
    ensures var start := if v < 0 then 1 else 0;
      && |Spell(v)| > start && (v < 0 <==> Spell(v)[0] == '-')
      && Canonical(Spell(v)[start..]) && Value(Spell(v)[start..]) == (if v < 0 then -v else v)
      && (Spell(v)[start] == '0' ==> v == 0)
  {
    if v < 0 {
      SpelledFrom(Spell(v), 1, -v);
    } else {
      SpelledFrom(Spell(v), 0, v);
    }
  }

  /** Why a text is no spelling: its digit part is not canonical, or it is too large. */
  ghost predicate Refuted(s: string, start: nat, limit: nat) {
    start >= |s| || !Canonical(s[start..]) || Value(s[start..]) > limit || (start == 1 && s[1] == '0')
  }

  lemma RefutedIsNoSpelling(s: string, start: nat, limit: nat)
    requires s != "" && start == (if s[0] == '-' then 1 else 0)
    requires limit == if s[0] == '-' then INT64_MAX + 1 else INT64_MAX
    requires Refuted(s, start, limit)
    ensures forall v :: InRange(v) ==> s != Spell(v)
  {
    forall v | InRange(v)
      ensures s != Spell(v)
    {
      SpellDigits(v);
    }
  }

  lemma AcceptedIsSpelling(s: string, start: nat, v: int)
    requires s != "" && start == (if s[0] == '-' then 1 else 0) && start < |s|
    requires Canonical(s[start..]) && v == (if s[0] == '-' then 0 - Value(s[start..]) else Value(s[start..]))
    requires s[0] == '-' ==> s[1] != '0'
    ensures s == Spell(v)
  {
    NumeralOfValue(s[start..]);
    if s[0] == '-' {
      ValueBound(s[1..]);
      Pow10Monotone(0, |s| - 2);
      assert s == "-" + s[1..];
    } else {
      assert s[0..] == s;
    }
  }

  lemma Slices(s: string, start: nat, pos: nat)
    requires start <= pos < |s|
    ensures s[start..pos] + [s[pos]] == s[start..pos + 1]
    ensures s[start..][..pos + 1 - start] == s[start..pos + 1]
  {
  }

  /** The accumulator loop: never above `limit`, so never outside 64 bits. */
  method ParseDigits(s: string, start: nat, limit: nat) returns (ok: bool, magnitude: nat)
    requires start <= |s| && 10 <= limit <= INT64_MAX + 1
    ensures ok ==> AllDigits(s[start..]) && magnitude == Value(s[start..]) <= limit
    ensures !ok ==> !AllDigits(s[start..]) || Value(s[start..]) > limit
  {
    var pos := start;
    magnitude := 0;
    while pos < |s|
      invariant start <= pos <= |s| && AllDigits(s[start..pos])
      invariant magnitude == Value(s[start..pos]) <= limit
    {
      var ch := s[pos];
      if ch < '0' || ch > '9' {
        assert s[start..][pos - start] == ch;
        return false, 0;
      }
      var digit := DigitValue(ch);
      ValueAppend(s[start..pos], ch);
      Slices(s, start, pos);
      if magnitude > (limit - digit) / 10 {
        if AllDigits(s[start..]) {
          ValuePrefix(s[start..], pos + 1 - start);
        }
        return false, 0;
      }
      assert magnitude * 10 + digit < TWO_64;
      magnitude := magnitude * 10 + digit;
      pos := pos + 1;
    }
    assert s[start..pos] == s[start..];
    ok := true;
  }

  /** Accepts exactly the spellings of 64-bit integers, and returns the integer spelled. */
  method Parse(s: string) returns (r: Parsed)
    ensures r.Accepted? ==> InRange(r.value) && s == Spell(r.value)
    ensures r.Rejected? ==> forall v :: InRange(v) ==> s != Spell(v)
  {
    if |s| == 0 {
      forall v | InRange(v) ensures s != Spell(v) {
        SpellDigits(v);
      }
      return Rejected;
    }
    var pos := 0;
    var negative := false;
    if s[pos] == '-' {
      negative := true;
      pos := pos + 1;
      if pos == |s| {
        RefutedIsNoSpelling(s, 1, INT64_MAX + 1);
        return Rejected;
      }
    }
    var limit := if negative then INT64_MAX + 1 else INT64_MAX;
    if s[pos] == '0' {
      if negative || pos + 1 != |s| {
        RefutedIsNoSpelling(s, pos, limit);
        return Rejected;
      }
      assert s == "0" && Numeral(0) == "0";
      return Accepted(0);
    }
    if s[pos] < '1' || s[pos] > '9' {
      assert s[pos..][0] == s[pos];
      RefutedIsNoSpelling(s, pos, limit);
      return Rejected;
    }
    var ok, magnitude := ParseDigits(s, pos, limit);
    if !ok {
      RefutedIsNoSpelling(s, pos, limit);
      return Rejected;
    }
    var signed: int := magnitude;
    var value := if negative then -signed else signed;
    AcceptedIsSpelling(s, pos, value);
    return Accepted(value);
  }

  /** Printing and parsing are inverse: every 64-bit integer is parsed back from its spelling. */
  lemma SpellInjective(v: int, w: int)
    requires InRange(v) && InRange(w) && Spell(v) == Spell(w)
    ensures v == w
  {
    SpellDigits(v);
    SpellDigits(w);
  }
}
