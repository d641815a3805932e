/**
 * The command table: an open-addressed index over command names that ignores ASCII case and has to
 * agree with a plain scan of the rows. Rows are named by their position; -1 means "no such command".
 */
module CommandIndex {
  type Name = seq<bv8>

  // ---- names -----------------------------------------------------------------------------------------

  function Upper(c: bv8): bv8 { if 0x61 <= c <= 0x7A then c - 0x20 else c }

  predicate SameName(a: Name, b: Name) {
    |a| == |b| && forall i :: 0 <= i < |a| ==> Upper(a[i]) == Upper(b[i])
  }

  /** The same byte, or the two cases of one ASCII letter. */
  predicate SameLetter(c: bv8, d: bv8) {
    c == d || (0x41 <= c <= 0x5A && d == c + 0x20) || (0x41 <= d <= 0x5A && c == d + 0x20)
  }

  lemma UpperMeans(c: bv8, d: bv8)
    ensures Upper(c) == Upper(d) <==> SameLetter(c, d)
  {
  }

  method Equal(input: Name, canonical: Name) returns (equal: bool)
    ensures equal == SameName(input, canonical)
    ensures equal <==> |input| == |canonical| && forall i :: 0 <= i < |input| ==> SameLetter(input[i], canonical[i])
  {
    forall i | 0 <= i < |input| && i < |canonical|
      ensures Upper(input[i]) == Upper(canonical[i]) <==> SameLetter(input[i], canonical[i])
    {
      UpperMeans(input[i], canonical[i]);
    }
    if |input| != |canonical| {
      return false;
    }
    for i := 0 to |canonical|
      invariant forall k :: 0 <= k < i ==> Upper(input[k]) == Upper(canonical[k])
    {
      if Upper(input[i]) != Upper(canonical[i]) {
        return false;
      }
    }
    return true;
  }

  /** The row a plain scan of the first `n` rows finds. */
  function Scan(names: seq<Name>, n: nat, name: Name): (r: int)
    requires n <= |names|
    ensures -1 <= r < n
  {
    if n == 0 then -1
    else
      var before := Scan(names, n - 1, name);
      if before >= 0 then before else if SameName(name, names[n - 1]) then n - 1 else -1
  }

  predicate NoRow(names: seq<Name>, n: nat, name: Name)
    requires n <= |names|
  {
    forall i :: 0 <= i < n ==> !SameName(name, names[i])
  }

  predicate NoTwins(names: seq<Name>, n: nat)
    requires n <= |names|
  {
    forall i, j :: 0 <= i < j < n ==> !SameName(names[j], names[i])
  }

  /** With no two rows alike, a scan finds the one row there is. */
  lemma {:induction false} ScanFinds(names: seq<Name>, n: nat, name: Name, r: int)
    requires n <= |names| && NoTwins(names, n)
    requires if r == -1 then NoRow(names, n, name) else 0 <= r < n && SameName(name, names[r])
    ensures Scan(names, n, name) == r
  {
    if n != 0 {
      if r == n - 1 {
        forall i | 0 <= i < n - 1
          ensures !SameName(name, names[i])
        {
          assert !SameName(names[n - 1], names[i]);
        }
        ScanFinds(names, n - 1, name, -1);
      } else {
        ScanFinds(names, n - 1, name, r);
      }
    }
  }

  /** A hash that cannot tell upper from lower case. */
  ghost predicate CaseBlind(hash: Name -> nat) {
    forall a, b :: SameName(a, b) ==> hash(a) == hash(b)
  }

  // ---- the table -------------------------------------------------------------------------------------

  /** The slot `d` steps after `start`, around the table. */
  function Probe(start: nat, d: nat, cap: nat): nat
    requires start < cap && d <= cap
  {
    if start + d < cap then start + d else start + d - cap
  }

  function Start(hash: Name -> nat, name: Name, cap: nat): (p: nat)
    requires cap > 0
    ensures p < cap
  {
    hash(name) % cap
  }

  /** The first `d` slots of a probe sequence are taken. */
  predicate Taken(slots: seq<int>, start: nat, d: nat)
    requires start < |slots| && d <= |slots|
  {
    forall k :: 0 <= k < d ==> slots[Probe(start, k, |slots|)] != -1
  }

  predicate FoundAfter(slots: seq<int>, start: nat, row: int, d: nat)
    requires start < |slots|
  {
    d < |slots| && slots[Probe(start, d, |slots|)] == row && Taken(slots, start, d)
  }

  /** A probe for this row reaches it. */
  ghost predicate Reachable(slots: seq<int>, start: nat, row: int)
    requires start < |slots|
  {
    exists d :: FoundAfter(slots, start, row, d)
  }

  /** The first `n` rows are indexed, each once. */
  ghost predicate Indexed(slots: seq<int>, names: seq<Name>, n: nat, hash: Name -> nat) {
    && n <= |names| && |slots| > 0 && NoTwins(names, n)
    && (forall p :: 0 <= p < |slots| ==> -1 <= slots[p] < n)
    && (forall p, q :: 0 <= p < q < |slots| && slots[p] != -1 ==> slots[p] != slots[q])
    && (forall i :: 0 <= i < n ==> Reachable(slots, Start(hash, names[i], |slots|), i))
  }

  /** None of the first `d` slots holds a row with this name. */
  predicate Missed(slots: seq<int>, names: seq<Name>, start: nat, d: nat, name: Name)
    requires start < |slots| && d <= |slots| && forall p :: 0 <= p < |slots| ==> slots[p] < |names|
  {
    forall k :: 0 <= k < d ==>
      var row := slots[Probe(start, k, |slots|)];
      row >= 0 && !SameName(name, names[row])
  }

  /** A free slot ends the search: the name is in no row. */
  lemma FreeSlotEnds(slots: seq<int>, names: seq<Name>, n: nat, hash: Name -> nat, name: Name, d: nat)
    requires Indexed(slots, names, n, hash) && CaseBlind(hash) && d < |slots|
    requires var start := Start(hash, name, |slots|);
      Missed(slots, names, start, d, name) && slots[Probe(start, d, |slots|)] == -1
    ensures NoRow(names, n, name)
  {
    var start := Start(hash, name, |slots|);
    forall i | 0 <= i < n
      ensures !SameName(name, names[i])
    {
      if hash(name) == hash(names[i]) {
        var at :| FoundAfter(slots, Start(hash, names[i], |slots|), i, at);
        NotPast(slots, names, start, d, at, i, name);
      }
    }
  }

  lemma NotPast(slots: seq<int>, names: seq<Name>, start: nat, d: nat, at: nat, row: int, name: Name)
    requires start < |slots| && d < |slots| && forall p :: 0 <= p < |slots| ==> slots[p] < |names|
    requires 0 <= row < |names| && FoundAfter(slots, start, row, at)
    requires Missed(slots, names, start, d, name) && slots[Probe(start, d, |slots|)] == -1
    ensures !SameName(name, names[row])
  {
  }

  /** A full round without a match is as good. */
  lemma FullRoundEnds(slots: seq<int>, names: seq<Name>, n: nat, hash: Name -> nat, name: Name)
    requires Indexed(slots, names, n, hash) && CaseBlind(hash)
    requires Missed(slots, names, Start(hash, name, |slots|), |slots|, name)
    ensures NoRow(names, n, name)
  {
    forall i | 0 <= i < n
      ensures !SameName(name, names[i])
    {
      if hash(name) == hash(names[i]) {
        var at :| FoundAfter(slots, Start(hash, names[i], |slots|), i, at);
      }
    }
  }

  // ---- insertion ---------------------------------------------------------------------------------------

  function Values(slots: seq<int>): set<int> { set x | x in slots }

  lemma {:induction false} DistinctCount(slots: seq<int>)
    requires forall p, q :: 0 <= p < q < |slots| ==> slots[p] != slots[q]
    ensures |Values(slots)| == |slots|
  {
    if slots == [] {
      assert Values(slots) == {};
    } else {
      var last := |slots| - 1;
      DistinctCount(slots[..last]);
      assert slots == slots[..last] + [slots[last]];
      assert Values(slots) == Values(slots[..last]) + {slots[last]};
    }
  }

  lemma {:induction false} BelowCount(s: set<int>, n: nat)
    requires forall x :: x in s ==> 0 <= x < n
    ensures |s| <= n
  {
    if n == 0 {
      assert forall x :: x !in s;
    } else {
      BelowCount(s - {n - 1}, n - 1);
    }
  }

  /** A table with fewer rows than slots has a free slot. */
  lemma SomeFree(slots: seq<int>, n: nat)
    requires n < |slots| && (forall p :: 0 <= p < |slots| ==> -1 <= slots[p] < n)
    requires forall p, q :: 0 <= p < q < |slots| && slots[p] != -1 ==> slots[p] != slots[q]
    ensures exists p :: 0 <= p < |slots| && slots[p] == -1
  {
    if forall p :: 0 <= p < |slots| ==> slots[p] != -1 {
      DistinctCount(slots);
      BelowCount(Values(slots), n);
    }
  }

  /** So no probe sequence is taken all the way round. */
  lemma ProbeStops(slots: seq<int>, n: nat, start: nat)
    requires n < |slots| && start < |slots| && (forall p :: 0 <= p < |slots| ==> -1 <= slots[p] < n)
    requires forall p, q :: 0 <= p < q < |slots| && slots[p] != -1 ==> slots[p] != slots[q]
    ensures !Taken(slots, start, |slots|)
  {
    SomeFree(slots, n);
    var p :| 0 <= p < |slots| && slots[p] == -1;
    var k := if p >= start then p - start else p - start + |slots|;
    assert Probe(start, k, |slots|) == p;
  }

  lemma Advance(start: nat, d: nat, cap: nat)
    requires start < cap && d < cap
    ensures (Probe(start, d, cap) + 1) % cap == Probe(start, if d + 1 == cap then 0 else d + 1, cap)
  {
    var pos := Probe(start, d, cap);
    if pos + 1 < cap {
      Small(pos + 1, cap);
    }
  }

  lemma Small(a: nat, cap: nat)
    requires a < cap
    ensures a % cap == a
  {
  }

  /** Filling a free slot leaves every probe working. */
  lemma FilledReachable(slots: seq<int>, pos: nat, row: int, start: nat, other: int)
    requires pos < |slots| && slots[pos] == -1 && row != -1 && other != -1 && start < |slots|
    requires Reachable(slots, start, other)
    ensures Reachable(slots[pos := row], start, other)
  {
    var d :| FoundAfter(slots, start, other, d);
    assert FoundAfter(slots[pos := row], start, other, d);
  }

  lemma FilledIndexed(slots: seq<int>, names: seq<Name>, n: nat, hash: Name -> nat, d: nat)
    requires Indexed(slots, names, n, hash) && n < |names| && d < |slots| && NoRow(names, n, names[n])
    requires var start := Start(hash, names[n], |slots|);
      Taken(slots, start, d) && slots[Probe(start, d, |slots|)] == -1
    ensures Indexed(slots[Probe(Start(hash, names[n], |slots|), d, |slots|) := n], names, n + 1, hash)
  {
    var start := Start(hash, names[n], |slots|);
    var pos := Probe(start, d, |slots|);
    var after := slots[pos := n];
    assert FoundAfter(after, start, n, d);
    forall i | 0 <= i < n
      ensures Reachable(after, Start(hash, names[i], |slots|), i)
    {
      FilledReachable(slots, pos, n, Start(hash, names[i], |slots|), i);
    }
  }

  lemma TakenNext(slots: seq<int>, start: nat, d: nat)
    requires start < |slots| && d < |slots| && Taken(slots, start, d) && slots[Probe(start, d, |slots|)] != -1
    ensures Taken(slots, start, d + 1)
  {
  }

  lemma MissedNext(slots: seq<int>, names: seq<Name>, start: nat, d: nat, name: Name)
    requires start < |slots| && d < |slots| && forall p :: 0 <= p < |slots| ==> slots[p] < |names|
    requires Missed(slots, names, start, d, name)
    requires var row := slots[Probe(start, d, |slots|)]; row >= 0 && !SameName(name, names[row])
    ensures Missed(slots, names, start, d + 1, name)
  {
  }

  /** Indexes row `n`, or reports that an earlier row has the same name. */
  method Insert(slots: array<int>, names: seq<Name>, n: nat, hash: Name -> nat) returns (ok: bool)
    requires Indexed(slots[..], names, n, hash) && CaseBlind(hash) && n < |names| && n < slots.Length
    modifies slots
    ensures ok == NoRow(names, n, names[n])
    ensures ok ==> Indexed(slots[..], names, n + 1, hash)
    ensures !ok ==> slots[..] == old(slots[..])
  {
    var pos := Start(hash, names[n], slots.Length);
    ghost var start := pos;
    ghost var d := 0;
    while slots[pos] != -1
      invariant d < slots.Length && pos == Probe(start, d, slots.Length) && slots[..] == old(slots[..])
      invariant Taken(slots[..], start, d) && Missed(slots[..], names, start, d, names[n])
      decreases slots.Length - d
    {
      var equal := Equal(names[n], names[slots[pos]]);
      if equal {
        assert SameName(names[n], names[slots[pos]]);
        return false;
      }
      ProbeStops(slots[..], n, start);
      Advance(start, d, slots.Length);
      TakenNext(slots[..], start, d);
      MissedNext(slots[..], names, start, d, names[n]);
      pos := (pos + 1) % slots.Length;
      d := d + 1;
    }
    FreeSlotEnds(slots[..], names, n, hash, names[n], d);
    FilledIndexed(slots[..], names, n, hash, d);
    slots[pos] := n;
    ok := true;
  }

  /** The probe a lookup makes. */
  method Find(slots: array<int>, names: seq<Name>, n: nat, hash: Name -> nat, name: Name) returns (row: int)
    requires Indexed(slots[..], names, n, hash) && CaseBlind(hash)
    ensures row == Scan(names, n, name)
  {
    var pos := Start(hash, name, slots.Length);
    ghost var start := pos;
    for probes := 0 to slots.Length
      invariant pos == Probe(start, if probes == slots.Length then 0 else probes, slots.Length)
      invariant Missed(slots[..], names, start, probes, name)
    {
      row := slots[pos];
      if row == -1 {
        FreeSlotEnds(slots[..], names, n, hash, name, probes);
        ScanFinds(names, n, name, -1);
        return;
      }
      var equal := Equal(name, names[row]);
      if equal {
        ScanFinds(names, n, name, row);
        return;
      }
      Advance(start, probes, slots.Length);
      MissedNext(slots[..], names, start, probes, name);
      pos := (pos + 1) % slots.Length;
    }
    FullRoundEnds(slots[..], names, n, hash, name);
    ScanFinds(names, n, name, -1);
    row := -1;
  }
}
