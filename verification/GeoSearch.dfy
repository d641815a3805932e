/** GEOSEARCH over a sorted set of scores: scan the covered intervals, test, sort, cut. */
module GeoSearch {
  // Entries are named by their position in the set. The reach of a search, the shape test and the
  // distance are parameters, functions of the centre.

  import opened GeoHash
  import opened GeoCover

  datatype Entry = Entry(member: string, score: nat)

  datatype Order = Unsorted | Ascending | Descending

  datatype From = Member(name: string) | Point(lon: real, lat: real)

  datatype Result = MissingMember | Found(out: seq<nat>)

  predicate SortedByScore(source: seq<Entry>) {
    && (forall i :: 0 <= i < |source| ==> source[i].score < SCORES)
    && (forall i, j :: 0 <= i < j < |source| ==> source[i].score <= source[j].score)
  }

  predicate Distinct(out: seq<nat>) { forall i, j :: 0 <= i < j < |out| ==> out[i] != out[j] }

  // ---- scanning ----------------------------------------------------------------------------------------

  method LowerBound(source: seq<Entry>, first: int) returns (k: nat)
    requires SortedByScore(source)
    ensures k <= |source|
    ensures forall i :: 0 <= i < |source| ==> (i < k <==> source[i].score < first)
  {
    var low, high := 0, |source|;
    while low < high
      invariant 0 <= low <= high <= |source|
      invariant forall i :: 0 <= i < low ==> source[i].score < first
      invariant forall i :: high <= i < |source| ==> source[i].score >= first
    {
      var mid := (low + high) / 2;
      if source[mid].score < first {
        low := mid + 1;
      } else {
        high := mid;
      }
    }
    k := low;
  }

  /** The score is in one of the first `t` intervals. */
  ghost predicate InFirst(intervals: seq<Interval>, t: nat, h: nat) {
    exists k :: 0 <= k < t && k < |intervals| && Contains(intervals[k], h)
  }

  /** `out` holds, once each, the entries that pass and are in the first `t` intervals or were just scanned. */
  ghost predicate Scanned(source: seq<Entry>, intervals: seq<Interval>, inside: nat -> bool, t: nat, low: nat, high: nat,
                          out: seq<nat>) {
    && Distinct(out)
    && (forall i :: i in out ==> i < |source| && inside(source[i].score))
    && (forall i :: 0 <= i < |source| && inside(source[i].score) ==>
          (i in out <==> InFirst(intervals, t, source[i].score) || low <= i < high))
  }

  /** What an early stop leaves: a selection of what would have been found. */
  ghost predicate Selected(source: seq<Entry>, intervals: seq<Interval>, inside: nat -> bool, out: seq<nat>) {
    && Distinct(out)
    && (forall i :: i in out ==>
          i < |source| && inside(source[i].score) && SomeContains(intervals, source[i].score))
  }

  ghost predicate Everything(source: seq<Entry>, intervals: seq<Interval>, inside: nat -> bool, out: seq<nat>) {
    forall i :: 0 <= i < |source| && inside(source[i].score) && SomeContains(intervals, source[i].score) ==> i in out
  }

  predicate Full(any: bool, count: nat, out: seq<nat>) { any && count != 0 && |out| >= count }

  /** Scans one interval from its first entry on, or stops when enough have been found. */
  method ScanInterval(source: seq<Entry>, intervals: seq<Interval>, t: nat, inside: nat -> bool, any: bool, count: nat,
                      found: seq<nat>) returns (out: seq<nat>, early: bool)
    requires SortedByScore(source) && t < |intervals|
    requires forall i, j :: 0 <= i < j < |intervals| ==> Apart(intervals[i], intervals[j])
    requires Scanned(source, intervals, inside, t, 0, 0, found) && !Full(any, count, found)
    ensures !early ==> Scanned(source, intervals, inside, t + 1, 0, 0, out) && !Full(any, count, out)
    ensures early ==> Selected(source, intervals, inside, out) && Full(any, count, out) && |out| == count
  {
    var low := LowerBound(source, intervals[t].first);
    var e := low;
    out, early := found, false;
    while e < |source| && source[e].score <= intervals[t].last
      invariant low <= e <= |source| && !Full(any, count, out)
      invariant forall i :: low <= i < e ==> Contains(intervals[t], source[i].score)
      invariant Scanned(source, intervals, inside, t, low, e, out)
    {
      assert Contains(intervals[t], source[e].score);
      NotBefore(intervals, t, source[e].score);
      if inside(source[e].score) {
        assert e !in out;
        out := out + [e];
      }
      if any && count != 0 && |out| >= count {
        early := true;
        SelectedSoFar(source, intervals, inside, t, low, e + 1, out);
        return;
      }
      e := e + 1;
    }
    IntervalDone(source, intervals, inside, t, low, e, out);
  }

  lemma NotBefore(intervals: seq<Interval>, t: nat, h: nat)
    requires t < |intervals| && Contains(intervals[t], h)
    requires forall i, j :: 0 <= i < j < |intervals| ==> Apart(intervals[i], intervals[j])
    ensures !InFirst(intervals, t, h)
  {
    forall k | 0 <= k < t
      ensures !Contains(intervals[k], h)
    {
      assert Apart(intervals[k], intervals[t]);
    }
  }

  lemma SelectedSoFar(source: seq<Entry>, intervals: seq<Interval>, inside: nat -> bool, t: nat, low: nat, high: nat,
                      out: seq<nat>)
    requires t < |intervals| && high <= |source| && Scanned(source, intervals, inside, t, low, high, out)
    requires forall i :: low <= i < high ==> Contains(intervals[t], source[i].score)
    ensures Selected(source, intervals, inside, out)
  {
    forall i | i in out
      ensures SomeContains(intervals, source[i].score)
    {
      if low <= i < high {
        assert Contains(intervals[t], source[i].score);
      } else {
        assert InFirst(intervals, t, source[i].score);
      }
    }
  }

  /** After the last entry of an interval, that interval is done. */
  lemma IntervalDone(source: seq<Entry>, intervals: seq<Interval>, inside: nat -> bool, t: nat, low: nat, e: nat, out: seq<nat>)
    requires SortedByScore(source) && t < |intervals| && low <= e <= |source|
    requires forall i :: 0 <= i < |source| ==> (i < low <==> source[i].score < intervals[t].first)
    requires forall i :: low <= i < e ==> Contains(intervals[t], source[i].score)
    requires e < |source| ==> source[e].score > intervals[t].last
    requires Scanned(source, intervals, inside, t, low, e, out)
    ensures Scanned(source, intervals, inside, t + 1, 0, 0, out)
  {
    forall i | 0 <= i < |source|
      ensures InFirst(intervals, t + 1, source[i].score) <==> InFirst(intervals, t, source[i].score) || low <= i < e
    {
      InFirstNext(intervals, t, source[i].score);
      assert Contains(intervals[t], source[i].score) <==> low <= i < e;
    }
  }

  lemma InFirstNext(intervals: seq<Interval>, t: nat, h: nat)
    requires t < |intervals|
    ensures InFirst(intervals, t + 1, h) <==> InFirst(intervals, t, h) || Contains(intervals[t], h)
  {
  }

  method Scan(source: seq<Entry>, intervals: seq<Interval>, inside: nat -> bool, any: bool, count: nat)
    returns (out: seq<nat>)
    requires SortedByScore(source)
    requires forall i, j :: 0 <= i < j < |intervals| ==> Apart(intervals[i], intervals[j])
    ensures Selected(source, intervals, inside, out)
    ensures Everything(source, intervals, inside, out) || (any && count != 0 && |out| == count)
  {
    out := [];
    var early := false;
    for t := 0 to |intervals|
      invariant Scanned(source, intervals, inside, t, 0, 0, out) && !Full(any, count, out)
    {
      out, early := ScanInterval(source, intervals, t, inside, any, count, out);
      if early {
        return;
      }
    }
    ScanDone(source, intervals, inside, out);
  }

  lemma ScanDone(source: seq<Entry>, intervals: seq<Interval>, inside: nat -> bool, out: seq<nat>)
    requires Scanned(source, intervals, inside, |intervals|, 0, 0, out)
    ensures Selected(source, intervals, inside, out) && Everything(source, intervals, inside, out)
  {
    assert forall h: nat :: InFirst(intervals, |intervals|, h) <==> SomeContains(intervals, h);
  }

  // ---- sorting -------------------------------------------------------------------------------------------

  /** The comparator: by distance in the asked order, then by score. */
  predicate Before(order: Order, distance: nat -> real, a: nat, b: nat) {
    if distance(a) != distance(b)
    then if order == Descending then distance(a) > distance(b) else distance(a) < distance(b)
    else a < b
  }

  /** `a` may stand before `b`: no farther away, or no nearer when descending, and by score when equally far. */
  predicate Ranked(order: Order, farA: real, scoreA: nat, farB: real, scoreB: nat) {
    && (order == Ascending ==> farA <= farB)
    && (order == Descending ==> farA >= farB)
    && (farA == farB ==> scoreA <= scoreB)
  }

  lemma RankedMeans(order: Order, distance: nat -> real, a: nat, b: nat)
    requires order != Unsorted
    ensures Ranked(order, distance(a), a, distance(b), b) <==> !Before(order, distance, b, a)
  {
  }

  /** The entries of a reply, by distance and score. */
  predicate ByDistance(order: Order, distance: nat -> real, source: seq<Entry>, out: seq<nat>)
    requires forall i :: 0 <= i < |out| ==> out[i] < |source|
  {
    forall i, j :: 0 <= i < j < |out| ==>
      var a, b := source[out[i]].score, source[out[j]].score;
      Ranked(order, distance(a), a, distance(b), b)
  }

  lemma InOrderMeans(order: Order, distance: nat -> real, source: seq<Entry>, out: seq<nat>)
    requires order != Unsorted && forall i :: 0 <= i < |out| ==> out[i] < |source|
    requires InOrder(order, distance, source, out)
    ensures ByDistance(order, distance, source, out)
  {
    forall i, j | 0 <= i < j < |out|
      ensures var a, b := source[out[i]].score, source[out[j]].score;
        Ranked(order, distance(a), a, distance(b), b)
    {
      RankedMeans(order, distance, source[out[i]].score, source[out[j]].score);
    }
  }

  predicate InOrder(order: Order, distance: nat -> real, source: seq<Entry>, out: seq<nat>)
    requires forall i :: 0 <= i < |out| ==> out[i] < |source|
  {
    forall i, j :: 0 <= i < j < |out| ==> !Before(order, distance, source[out[j]].score, source[out[i]].score)
  }

  ghost predicate SameEntries(a: seq<nat>, b: seq<nat>) {
    |a| == |b| && forall i :: i in a <==> i in b
  }

  /** Puts one more entry into its place. */
  method Insert(order: Order, distance: nat -> real, source: seq<Entry>, sorted: seq<nat>, x: nat) returns (out: seq<nat>)
    requires x < |source| && (forall i :: 0 <= i < |sorted| ==> sorted[i] < |source|)
    requires InOrder(order, distance, source, sorted) && Distinct(sorted) && x !in sorted
    ensures SameEntries(out, sorted + [x]) && Distinct(out) && forall i :: 0 <= i < |out| ==> out[i] < |source|
    ensures InOrder(order, distance, source, out)
  {
    var k := |sorted|;
    while k > 0 && Before(order, distance, source[x].score, source[sorted[k - 1]].score)
      invariant 0 <= k <= |sorted|
      invariant forall j :: k <= j < |sorted| ==>
                  Before(order, distance, source[x].score, source[sorted[j]].score)
    {
      k := k - 1;
    }
    out := sorted[..k] + [x] + sorted[k..];
    InsertedEntries(sorted, x, k);
    InsertedInOrder(order, distance, source, sorted, x, k);
  }

  function Inserted(sorted: seq<nat>, x: nat, k: nat): seq<nat>
    requires k <= |sorted|
  {
    sorted[..k] + [x] + sorted[k..]
  }

  lemma InsertedEntries(sorted: seq<nat>, x: nat, k: nat)
    requires k <= |sorted| && Distinct(sorted) && x !in sorted
    ensures SameEntries(Inserted(sorted, x, k), sorted + [x]) && Distinct(Inserted(sorted, x, k))
  {
    var out := Inserted(sorted, x, k);
    forall i, j | 0 <= i < j < |out|
      ensures out[i] != out[j]
    {
      InsertedAt(sorted, x, k, i);
      InsertedAt(sorted, x, k, j);
    }
    forall y
      ensures y in out <==> y in sorted + [x]
    {
      InsertedHolds(sorted, x, k, y);
    }
  }

  lemma InsertedAt(sorted: seq<nat>, x: nat, k: nat, i: nat)
    requires k <= |sorted| && i <= |sorted|
    ensures Inserted(sorted, x, k)[i] == if i < k then sorted[i] else if i == k then x else sorted[i - 1]
  {
  }

  lemma InsertedHolds(sorted: seq<nat>, x: nat, k: nat, y: nat)
    requires k <= |sorted|
    ensures y in Inserted(sorted, x, k) <==> y in sorted || y == x
  {
    assert sorted == sorted[..k] + sorted[k..];
  }

  /** Two comparisons in a row. */
  lemma NotBefore2(order: Order, distance: nat -> real, a: nat, b: nat, c: nat)
    requires !Before(order, distance, b, a) && !Before(order, distance, c, b)
    ensures !Before(order, distance, c, a)
  {
  }

  lemma InsertedInOrder(order: Order, distance: nat -> real, source: seq<Entry>, sorted: seq<nat>, x: nat, k: nat)
    requires x < |source| && (forall i :: 0 <= i < |sorted| ==> sorted[i] < |source|) && k <= |sorted|
    requires InOrder(order, distance, source, sorted)
    requires forall j :: k <= j < |sorted| ==> Before(order, distance, source[x].score, source[sorted[j]].score)
    requires k > 0 ==> !Before(order, distance, source[x].score, source[sorted[k - 1]].score)
    ensures forall i :: 0 <= i <= |sorted| ==> Inserted(sorted, x, k)[i] < |source|
    ensures InOrder(order, distance, source, Inserted(sorted, x, k))
  {
    var out := Inserted(sorted, x, k);
    assert forall i :: 0 <= i < |out| ==> out[i] == if i < k then sorted[i] else if i == k then x else sorted[i - 1];
    forall i, j | 0 <= i < j < |out|
      ensures !Before(order, distance, source[out[j]].score, source[out[i]].score)
    {
      if j == k && i < k - 1 {
        NotBefore2(order, distance, source[sorted[i]].score, source[sorted[k - 1]].score, source[x].score);
      }
    }
  }

  method Sort(order: Order, distance: nat -> real, source: seq<Entry>, found: seq<nat>) returns (out: seq<nat>)
    requires Distinct(found) && forall i :: 0 <= i < |found| ==> found[i] < |source|
    ensures SameEntries(out, found) && Distinct(out) && forall i :: 0 <= i < |out| ==> out[i] < |source|
    ensures InOrder(order, distance, source, out) && (order != Unsorted ==> ByDistance(order, distance, source, out))
  {
    out := [];
    for k := 0 to |found|
      invariant SameEntries(out, found[..k]) && Distinct(out)
      invariant forall i :: 0 <= i < |out| ==> out[i] < |source|
      invariant InOrder(order, distance, source, out)
    {
      assert found[..k + 1] == found[..k] + [found[k]];
      assert found[k] !in found[..k];
      out := Insert(order, distance, source, out, found[k]);
    }
    assert found[..|found|] == found;
    if order != Unsorted {
      InOrderMeans(order, distance, source, out);
    }
  }

  // ---- the search ----------------------------------------------------------------------------------------

  /** What a search does around a centre. */
  datatype Shape = Shape(lonReach: (real, real) -> real, latReach: (real, real) -> real,
                         inside: (real, real) -> (nat -> bool), distance: (real, real) -> (nat -> real))

  /** An entry of a covered cell that passes the shape test. */
  predicate Match(e: Entry, shape: Shape, step: nat, lon: real, lat: real)
    requires ValidCoordinates(lon, lat) && step <= AXIS_BITS
  {
    Covered(step, lon, lat, e.score) && shape.inside(lon, lat)(e.score)
  }

  /** The matches a reply may hold, and those it must hold. */
  ghost predicate Answers(source: seq<Entry>, shape: Shape, step: nat, lon: real, lat: real, order: Order, count: nat,
                          any: bool, out: seq<nat>)
    requires ValidCoordinates(lon, lat) && step <= AXIS_BITS
  {
    var distance := shape.distance(lon, lat);
    // each match at most once, and nothing else
    && Distinct(out)
    && (forall i :: i in out ==> i < |source| && Match(source[i], shape, step, lon, lat))
    && (forall i :: 0 <= i < |out| ==> out[i] < |source|)
    // all of them, unless COUNT cut the reply
    && (count != 0 ==> |out| <= count)
    && (count == 0 || |out| < count ==>
          forall i :: 0 <= i < |source| && Match(source[i], shape, step, lon, lat) ==> i in out)
    // sorted, and without ANY nothing better was left out
    && (order != Unsorted ==> ByDistance(order, distance, source, out))
    && (order != Unsorted && !any ==>
          forall i, j :: i in out && 0 <= j < |source| && j !in out && Match(source[j], shape, step, lon, lat) ==>
            Ranked(order, distance(source[i].score), source[i].score, distance(source[j].score), source[j].score))
  }

  /** The position of the first entry with this member, or the length. */
  method Find(source: seq<Entry>, name: string) returns (k: nat)
    ensures k <= |source| && (k < |source| ==> source[k].member == name)
    ensures forall i :: 0 <= i < k ==> source[i].member != name
  {
    k := 0;
    while k < |source| && source[k].member != name
      invariant k <= |source| && forall i :: 0 <= i < k ==> source[i].member != name
    {
      k := k + 1;
    }
  }

  /** Where the search is centred: the given point, or the middle of the member's cell. */
  predicate IsCenter(source: seq<Entry>, from: From, lon: real, lat: real) {
    match from
    case Point(plon, plat) => lon == plon && lat == plat
    case Member(name) =>
      exists k :: 0 <= k < |source| && source[k].member == name
                  && lon == MiddleLon(Odds(source[k].score)) && lat == MiddleLat(Evens(source[k].score))
  }

  method RunSearch(source: seq<Entry>, from: From, shape: Shape, order: Order, count: nat, any: bool)
    returns (result: Result, ghost step: nat, ghost lon: real, ghost lat: real)
    requires SortedByScore(source) && (from.Point? ==> ValidCoordinates(from.lon, from.lat))
    ensures result.MissingMember? <==>
              source != [] && from.Member? && forall i :: 0 <= i < |source| ==> source[i].member != from.name
    ensures source == [] ==> result == Found([])
    ensures result.Found? && source != [] ==>
              && ValidCoordinates(lon, lat) && step <= AXIS_BITS && IsCenter(source, from, lon, lat)
              && (step > 0 ==> WideEnough(step, shape.lonReach(lon, lat), shape.latReach(lon, lat)))
              && Answers(source, shape, step, lon, lat, order, count, any, result.out)
  {
    step, lon, lat := 0, 0.0, 0.0;
    if source == [] {
      return Found([]), step, lon, lat;
    }
    var centerLon, centerLat;
    match from {
      case Point(plon, plat) =>
        centerLon, centerLat := plon, plat;
      case Member(name) =>
        var k := Find(source, name);
        if k == |source| {
          return MissingMember, step, lon, lat;
        }
        centerLon, centerLat := Decode(source[k].score);
    }
    lon, lat := centerLon, centerLat;
    var out;
    out, step := SearchAround(source, shape, order, count, any, centerLon, centerLat);
    result := Found(out);
  }

  method SearchAround(source: seq<Entry>, shape: Shape, order: Order, count: nat, any: bool, lon: real, lat: real)
    returns (out: seq<nat>, ghost step: nat)
    requires SortedByScore(source) && ValidCoordinates(lon, lat)
    ensures step <= AXIS_BITS && (step > 0 ==> WideEnough(step, shape.lonReach(lon, lat), shape.latReach(lon, lat)))
    ensures Answers(source, shape, step, lon, lat, order, count, any, out)
  {
    var chosen, intervals := NeighborIntervals(shape.lonReach(lon, lat), shape.latReach(lon, lat), lon, lat);
    step := chosen;
    var found := Scan(source, intervals, shape.inside(lon, lat), any, count);
    assert forall i :: 0 <= i < |found| ==> found[i] in found;
    Matching(source, shape, step, lon, lat, intervals, found);
    var sorted := found;
    if order != Unsorted {
      sorted := Sort(order, shape.distance(lon, lat), source, found);
    }
    out := if count != 0 && |sorted| > count then sorted[..count] else sorted;
    CutAnswers(source, shape, step, lon, lat, order, count, any, found, sorted, out);
  }

  /** Scanning the intervals finds matches, and all of them unless it stopped early. */
  lemma Matching(source: seq<Entry>, shape: Shape, step: nat, lon: real, lat: real, intervals: seq<Interval>, found: seq<nat>)
    requires SortedByScore(source) && ValidCoordinates(lon, lat) && step <= AXIS_BITS
    requires forall h: nat :: h < SCORES ==> (SomeContains(intervals, h) <==> Covered(step, lon, lat, h))
    requires Selected(source, intervals, shape.inside(lon, lat), found)
    ensures OnlyMatches(source, shape, step, lon, lat, found)
    ensures Everything(source, intervals, shape.inside(lon, lat), found) ==> AllMatches(source, shape, step, lon, lat, found)
  {
  }

  ghost predicate OnlyMatches(source: seq<Entry>, shape: Shape, step: nat, lon: real, lat: real, out: seq<nat>)
    requires ValidCoordinates(lon, lat) && step <= AXIS_BITS
  {
    forall i :: i in out ==> i < |source| && Match(source[i], shape, step, lon, lat)
  }

  ghost predicate AllMatches(source: seq<Entry>, shape: Shape, step: nat, lon: real, lat: real, out: seq<nat>)
    requires ValidCoordinates(lon, lat) && step <= AXIS_BITS
  {
    forall i :: 0 <= i < |source| && Match(source[i], shape, step, lon, lat) ==> i in out
  }

  /** Sorting and cutting keeps the best. */
  lemma CutAnswers(source: seq<Entry>, shape: Shape, step: nat, lon: real, lat: real, order: Order, count: nat, any: bool,
                   found: seq<nat>, sorted: seq<nat>, out: seq<nat>)
    requires ValidCoordinates(lon, lat) && step <= AXIS_BITS && Distinct(sorted) && SameEntries(sorted, found)
    requires OnlyMatches(source, shape, step, lon, lat, found)
    requires AllMatches(source, shape, step, lon, lat, found) || (any && count != 0 && |found| == count)
    requires forall i :: 0 <= i < |sorted| ==> sorted[i] < |source|
    requires order != Unsorted ==> InOrder(order, shape.distance(lon, lat), source, sorted)
    requires out == if count != 0 && |sorted| > count then sorted[..count] else sorted
    ensures Answers(source, shape, step, lon, lat, order, count, any, out)
  {
    assert forall i :: i in out ==> i in sorted;
    var distance := shape.distance(lon, lat);
    if order != Unsorted {
      InOrderMeans(order, distance, source, out);
    }
    if order != Unsorted && !any {
      forall i, j | i in out && 0 <= j < |source| && j !in out && Match(source[j], shape, step, lon, lat)
        ensures Ranked(order, distance(source[i].score), source[i].score, distance(source[j].score), source[j].score)
      {
        LeftOut(order, distance, source, sorted, |out|, i, j);
        RankedMeans(order, distance, source[i].score, source[j].score);
      }
    }
  }

  lemma LeftOut(order: Order, distance: nat -> real, source: seq<Entry>, sorted: seq<nat>, n: nat, i: nat, j: nat)
    requires n <= |sorted| && i in sorted[..n] && j in sorted && j !in sorted[..n]
    requires forall k :: 0 <= k < |sorted| ==> sorted[k] < |source|
    requires InOrder(order, distance, source, sorted)
    ensures !Before(order, distance, source[j].score, source[i].score)
  {
    var p :| 0 <= p < n && sorted[p] == i;
    assert sorted == sorted[..n] + sorted[n..];
    var q :| 0 <= q < |sorted| - n && sorted[n..][q] == j;
    assert sorted[n + q] == j;
  }

  /** Without COUNT, every stored entry within reach that passes the shape test is returned. */
  lemma NothingWithinReachIsMissed(source: seq<Entry>, shape: Shape, step: nat, lon: real, lat: real, order: Order, any: bool,
                                   out: seq<nat>, i: nat, j: int)
    requires SortedByScore(source) && ValidCoordinates(lon, lat) && step <= AXIS_BITS
    requires step > 0 ==> WideEnough(step, shape.lonReach(lon, lat), shape.latReach(lon, lat))
    requires Answers(source, shape, step, lon, lat, order, 0, any, out)
    requires i < |source| && shape.inside(lon, lat)(source[i].score) && -1 <= j <= 1
    requires var d := MiddleLon(Odds(source[i].score)) - lon + j as real * 360.0;
             -shape.lonReach(lon, lat) <= d <= shape.lonReach(lon, lat)
    requires var d := MiddleLat(Evens(source[i].score)) - lat;
             -shape.latReach(lon, lat) <= d <= shape.latReach(lon, lat)
    ensures i in out
  {
    StoredCovered(step, shape.lonReach(lon, lat), shape.latReach(lon, lat), lon, lat, source[i].score, j);
  }
}
