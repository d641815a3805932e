/** The metadata generator's global flag order, and the bit masks that rely on it. */
module FlagOrder {
  // One order of all flag names in which every command's flags appear as Redis lists them is found
  // by repeatedly taking the first name without an unplaced predecessor. With such an order a bit
  // mask is enough to print a command's flags again.

  import opened Options
  import opened Powers

  type Row = seq<string>

  // ---- what an order has to do -----------------------------------------------------------------------------

  /** A ranking of all names under which every row goes strictly up. */
  ghost predicate Ranks(rank: string -> int, rows: seq<Row>) {
    forall r, i :: 0 <= r < |rows| && 0 <= i < |rows[r]| - 1 ==> rank(rows[r][i]) < rank(rows[r][i + 1])
  }

  predicate Distinct(s: seq<string>) { forall i, j :: 0 <= i < j < |s| ==> s[i] != s[j] }

  /** `a` is placed before `b`. */
  predicate Precedes(order: seq<string>, a: string, b: string) {
    exists i, j :: 0 <= i < j < |order| && order[i] == a && order[j] == b
  }

  predicate RowInOrder(order: seq<string>, row: Row) {
    forall i :: 0 <= i < |row| - 1 ==> Precedes(order, row[i], row[i + 1])
  }

  ghost predicate SameNames(order: seq<string>, rows: seq<Row>) {
    forall name :: name in order <==> exists r :: 0 <= r < |rows| && name in rows[r]
  }

  // ---- the graph -------------------------------------------------------------------------------------------

  type Edges = map<string, set<string>>

  /** How many of the first `k` names seen are unplaced and have an edge to `name`. */
  function Waiting(seen: seq<string>, k: nat, placed: seq<string>, edges: Edges, name: string): nat
    requires k <= |seen|
  {
    if k == 0 then 0
    else
      var from := seen[k - 1];
      Waiting(seen, k - 1, placed, edges, name)
      + (if from !in placed && from in edges && name in edges[from] then 1 else 0)
  }

  /** Every name seen has an edge set and a counter of its unplaced predecessors. */
  ghost predicate Tracked(seen: seq<string>, placed: seq<string>, edges: Edges, indegree: map<string, int>) {
    && Distinct(seen)
    && (forall name :: name in seen <==> name in edges) && (forall name :: name in seen <==> name in indegree)
    && (forall a, b :: a in edges && b in edges[a] ==> b in seen)
    && (forall name :: name in seen ==> indegree[name] == Waiting(seen, |seen|, placed, edges, name))
  }

  /** The edges are the neighbours in the rows: all of the first `n` rows, and `k` pairs of the next. */
  ghost predicate Adjacent(edges: Edges, rows: seq<Row>, n: nat, k: nat) {
    && (forall r, i :: 0 <= r < n && r < |rows| && 0 <= i < |rows[r]| - 1 ==> Edge(edges, rows[r][i], rows[r][i + 1]))
    && (forall i :: n < |rows| && 0 <= i < k && i < |rows[n]| - 1 ==> Edge(edges, rows[n][i], rows[n][i + 1]))
    && (forall a, b :: Edge(edges, a, b) ==> Listed(rows, a, b))
  }

  predicate Edge(edges: Edges, a: string, b: string) { a in edges && b in edges[a] }

  /** `a` is directly before `b` in some row. */
  ghost predicate Listed(rows: seq<Row>, a: string, b: string) {
    exists r, i :: 0 <= r < |rows| && 0 <= i < |rows[r]| - 1 && rows[r][i] == a && rows[r][i + 1] == b
  }

  // ---- counting predecessors -------------------------------------------------------------------------------

  lemma {:induction false} WaitingSome(seen: seq<string>, k: nat, placed: seq<string>, edges: Edges, name: string)
    requires k <= |seen|
    ensures Waiting(seen, k, placed, edges, name) > 0 <==>
              exists i :: 0 <= i < k && seen[i] !in placed && Edge(edges, seen[i], name)
  {
    if k != 0 {
      WaitingSome(seen, k - 1, placed, edges, name);
    }
  }

  lemma {:induction false} WaitingSame(seen: seq<string>, longer: seq<string>, k: nat, placed: seq<string>, more: seq<string>,
                                       edges: Edges, others: Edges, name: string)
    requires k <= |seen| && k <= |longer|
    requires forall i :: 0 <= i < k ==> seen[i] == longer[i]
    requires forall i :: 0 <= i < k ==>
      (seen[i] !in placed && Edge(edges, seen[i], name)) == (seen[i] !in more && Edge(others, seen[i], name))
    ensures Waiting(seen, k, placed, edges, name) == Waiting(longer, k, more, others, name)
  {
    if k != 0 {
      WaitingSame(seen, longer, k - 1, placed, more, edges, others, name);
    }
  }

  /** Placing a name releases what it points at, once. */
  lemma {:induction false} WaitingPlaced(seen: seq<string>, k: nat, placed: seq<string>, edges: Edges, at: nat, name: string)
    requires k <= |seen| && at < |seen| && Distinct(seen) && seen[at] !in placed
    ensures Waiting(seen, k, placed, edges, name)
         == Waiting(seen, k, placed + [seen[at]], edges, name) + (if at < k && Edge(edges, seen[at], name) then 1 else 0)
  {
    if k != 0 {
      WaitingPlaced(seen, k - 1, placed, edges, at, name);
    }
  }

  /** A new edge is one more predecessor of its target. */
  lemma {:induction false} WaitingEdge(seen: seq<string>, k: nat, edges: Edges, at: nat, to: string, name: string)
    requires k <= |seen| && at < |seen| && Distinct(seen) && seen[at] in edges && to !in edges[seen[at]]
    ensures Waiting(seen, k, [], edges[seen[at] := edges[seen[at]] + {to}], name)
         == Waiting(seen, k, [], edges, name) + (if at < k && name == to then 1 else 0)
  {
    if k != 0 {
      WaitingEdge(seen, k - 1, edges, at, to, name);
    }
  }

  // ---- building the graph ----------------------------------------------------------------------------------

  lemma TrackedNew(seen: seq<string>, edges: Edges, indegree: map<string, int>, name: string)
    requires Tracked(seen, [], edges, indegree) && name !in seen
    ensures Tracked(seen + [name], [], edges[name := {}], indegree[name := 0])
  {
    var longer, others := seen + [name], edges[name := {}];
    forall n | n in longer
      ensures indegree[name := 0][n] == Waiting(longer, |longer|, [], others, n)
    {
      WaitingSame(seen, longer, |seen|, [], [], edges, others, n);
      WaitingSome(seen, |seen|, [], edges, n);
    }
  }

  lemma TrackedEdge(seen: seq<string>, edges: Edges, indegree: map<string, int>, left: string, right: string)
    requires Tracked(seen, [], edges, indegree) && left in seen && right in seen && right !in edges[left]
    ensures Tracked(seen, [], edges[left := edges[left] + {right}], indegree[right := indegree[right] + 1])
  {
    var others := edges[left := edges[left] + {right}];
    var at :| 0 <= at < |seen| && seen[at] == left;
    forall n | n in seen
      ensures indegree[right := indegree[right] + 1][n] == Waiting(seen, |seen|, [], others, n)
    {
      WaitingEdge(seen, |seen|, edges, at, right, n);
    }
  }

  // ---- the order of first appearance -------------------------------------------------------------------------

  /** The names of all rows in one sequence. */
  function Flat(rows: seq<Row>): seq<string> {
    if rows == [] then [] else Flat(rows[..|rows| - 1]) + rows[|rows| - 1]
  }

  /** `a` occurs before `b` does. */
  predicate Sooner(all: seq<string>, a: string, b: string) {
    exists k :: 0 <= k < |all| && all[k] == a && b !in all[..k + 1]
  }

  ghost predicate ByAppearance(seen: seq<string>, all: seq<string>) {
    && (forall name :: name in seen ==> name in all)
    && (forall name :: name in all ==> name in seen)
    && (forall i, j :: 0 <= i < j < |seen| ==> Sooner(all, seen[i], seen[j]))
  }

  /** The names of the rows, each once, in the order in which they first appear. */
  ghost predicate FirstSeen(seen: seq<string>, rows: seq<Row>) { ByAppearance(seen, Flat(rows)) }

  lemma SoonerStays(all: seq<string>, name: string, a: string, b: string)
    requires Sooner(all, a, b)
    ensures Sooner(all + [name], a, b)
  {
    var k :| 0 <= k < |all| && all[k] == a && b !in all[..k + 1];
    assert (all + [name])[k] == a && (all + [name])[..k + 1] == all[..k + 1];
  }

  lemma AppearanceNext(seen: seq<string>, all: seq<string>, name: string)
    requires ByAppearance(seen, all)
    ensures ByAppearance(if name in seen then seen else seen + [name], all + [name])
  {
    var after := if name in seen then seen else seen + [name];
    forall i, j | 0 <= i < j < |after|
      ensures Sooner(all + [name], after[i], after[j])
    {
      if j < |seen| {
        SoonerStays(all, name, seen[i], seen[j]);
      } else {
        assert seen[i] in all;
        var k :| 0 <= k < |all| && all[k] == seen[i];
        assert (all + [name])[..k + 1] == all[..k + 1];
        assert forall x :: x in all[..k + 1] ==> x in all;
      }
    }
  }

  /** Notes the names of a row that have not been seen before. */
  method See(seen: seq<string>, edges: Edges, indegree: map<string, int>, row: Row, ghost all: seq<string>)
    returns (seen': seq<string>, edges': Edges, indegree': map<string, int>)
    requires Tracked(seen, [], edges, indegree) && ByAppearance(seen, all)
    ensures Tracked(seen', [], edges', indegree') && ByAppearance(seen', all + row)
    ensures forall name :: name in seen' <==> name in seen || name in row
    ensures forall a, b :: Edge(edges', a, b) <==> Edge(edges, a, b)
  {
    seen', edges', indegree' := seen, edges, indegree;
    assert all + row[..0] == all;
    for i := 0 to |row|
      invariant Tracked(seen', [], edges', indegree') && ByAppearance(seen', all + row[..i])
      invariant forall name :: name in seen' <==> name in seen || name in row[..i]
      invariant forall a, b :: Edge(edges', a, b) <==> Edge(edges, a, b)
    {
      assert row[..i + 1] == row[..i] + [row[i]];
      assert all + row[..i + 1] == (all + row[..i]) + [row[i]];
      AppearanceNext(seen', all + row[..i], row[i]);
      if row[i] !in seen' {
        TrackedNew(seen', edges', indegree', row[i]);
        seen', edges', indegree' := seen' + [row[i]], edges'[row[i] := {}], indegree'[row[i] := 0];
      }
    }
    assert row[..|row|] == row;
  }

  /** Adds an edge for every two neighbours of a row. */
  method Link(seen: seq<string>, edges: Edges, indegree: map<string, int>, ghost rows: seq<Row>, ghost n: nat, row: Row)
    returns (edges': Edges, indegree': map<string, int>)
    requires Tracked(seen, [], edges, indegree) && n < |rows| && row == rows[n] && Adjacent(edges, rows, n, 0)
    requires forall name :: name in row ==> name in seen
    ensures Tracked(seen, [], edges', indegree') && Adjacent(edges', rows, n + 1, 0)
  {
    edges', indegree' := edges, indegree;
    var i := 0;
    while i < |row| - 1
      invariant 0 <= i && (i <= |row| - 1 || i == 0)
      invariant Tracked(seen, [], edges', indegree') && Adjacent(edges', rows, n, i)
    {
      var left, right := row[i], row[i + 1];
      if right !in edges'[left] {
        TrackedEdge(seen, edges', indegree', left, right);
        AdjacentMore(edges', rows, n, i, left, right);
        edges', indegree' := edges'[left := edges'[left] + {right}], indegree'[right := indegree'[right] + 1];
      }
      i := i + 1;
    }
  }

  lemma AdjacentMore(edges: Edges, rows: seq<Row>, n: nat, i: nat, left: string, right: string)
    requires n < |rows| && i < |rows[n]| - 1 && left == rows[n][i] && right == rows[n][i + 1] && left in edges
    requires Adjacent(edges, rows, n, i)
    ensures Adjacent(edges[left := edges[left] + {right}], rows, n, i + 1)
  {
    var more := edges[left := edges[left] + {right}];
    assert Listed(rows, left, right);
    assert forall a, b :: Edge(edges, a, b) ==> Edge(more, a, b);
  }

  method Build(rows: seq<Row>) returns (seen: seq<string>, edges: Edges, indegree: map<string, int>)
    ensures Tracked(seen, [], edges, indegree) && Adjacent(edges, rows, |rows|, 0) && SameNames(seen, rows)
    ensures FirstSeen(seen, rows)
  {
    seen, edges, indegree := [], map[], map[];
    for n := 0 to |rows|
      invariant Tracked(seen, [], edges, indegree) && Adjacent(edges, rows, n, 0) && FirstSeen(seen, rows[..n])
      invariant forall name :: name in seen <==> exists r :: 0 <= r < n && name in rows[r]
    {
      seen, edges, indegree := See(seen, edges, indegree, rows[n], Flat(rows[..n]));
      assert rows[..n + 1][..n] == rows[..n];
      edges, indegree := Link(seen, edges, indegree, rows, n, rows[n]);
    }
    assert rows[..|rows|] == rows;
  }

  // ---- counting names --------------------------------------------------------------------------------------

  function Elements(s: seq<string>): set<string> { set x | x in s }

  lemma {:induction false} ElementsCount(s: seq<string>)
    requires Distinct(s)
    ensures |Elements(s)| == |s|
  {
    if s == [] {
      assert Elements(s) == {};
    } else {
      var last := |s| - 1;
      ElementsCount(s[..last]);
      assert s == s[..last] + [s[last]];
      assert Elements(s) == Elements(s[..last]) + {s[last]};
    }
  }

  lemma {:induction false} SubsetCount(a: set<string>, b: set<string>)
    requires a <= b
    ensures |a| <= |b| && (|a| == |b| ==> a == b)
  {
    assert b == a + (b - a);
    if b - a != {} {
      var x :| x in b - a;
      assert |b - a| > 0;
    }
  }

  /** Distinct names out of a list of distinct names: no more than the list, and all of it if as many. */
  lemma PartOf(part: seq<string>, whole: seq<string>)
    requires Distinct(part) && Distinct(whole) && forall name :: name in part ==> name in whole
    ensures |part| <= |whole|
    ensures |part| == |whole| ==> forall name :: name in whole ==> name in part
  {
    ElementsCount(part);
    ElementsCount(whole);
    SubsetCount(Elements(part), Elements(whole));
    assert forall name :: name in whole <==> name in Elements(whole);
    assert forall name :: name in part <==> name in Elements(part);
  }

  // ---- placing names -----------------------------------------------------------------------------------------

  /** What has been placed is placed after everything that has to come before it. */
  ghost predicate Placing(seen: seq<string>, order: seq<string>, edges: Edges) {
    && Distinct(order) && (forall name :: name in order ==> name in seen)
    && (forall a, b :: Edge(edges, a, b) && b in order ==> Precedes(order, a, b))
  }

  /** Everything that some row lists directly before `name` has been placed, and `name` has not. */
  ghost predicate Ready(rows: seq<Row>, placed: seq<string>, name: string) {
    name !in placed && forall a :: Listed(rows, a, name) ==> a in placed
  }

  /** `name` is the first of the names seen that was ready when `placed` had been placed. */
  ghost predicate Earliest(rows: seq<Row>, seen: seq<string>, placed: seq<string>, name: string) {
    && Ready(rows, placed, name)
    && exists at :: 0 <= at < |seen| && seen[at] == name && (forall k :: 0 <= k < at ==> !Ready(rows, placed, seen[k]))
  }

  /** Each name was placed as soon as it could be, in the order in which the names were first seen. */
  ghost predicate Greedy(rows: seq<Row>, seen: seq<string>, order: seq<string>) {
    forall p :: 0 <= p < |order| ==> Earliest(rows, seen, order[..p], order[p])
  }

  /** The counters say which names are ready. */
  lemma ReadyCounted(rows: seq<Row>, seen: seq<string>, order: seq<string>, edges: Edges, indegree: map<string, int>, name: string)
    requires Tracked(seen, order, edges, indegree) && Adjacent(edges, rows, |rows|, 0) && name in seen
    ensures Ready(rows, order, name) <==> indegree[name] == 0 && name !in order
  {
    WaitingSome(seen, |seen|, order, edges, name);
    forall a | Listed(rows, a, name)
      ensures a in seen && Edge(edges, a, name)
    {
      var r, i :| 0 <= r < |rows| && 0 <= i < |rows[r]| - 1 && rows[r][i] == a && rows[r][i + 1] == name;
      assert Edge(edges, rows[r][i], rows[r][i + 1]);
    }
    if indegree[name] != 0 {
      var i :| 0 <= i < |seen| && seen[i] !in order && Edge(edges, seen[i], name);
      assert Listed(rows, seen[i], name);
    }
  }

  lemma EarliestFound(rows: seq<Row>, seen: seq<string>, order: seq<string>, edges: Edges, indegree: map<string, int>, at: nat)
    requires Tracked(seen, order, edges, indegree) && Adjacent(edges, rows, |rows|, 0) && at < |seen|
    requires indegree[seen[at]] == 0 && seen[at] !in order
    requires NoneReady(seen, at, order, indegree)
    ensures Earliest(rows, seen, order, seen[at])
  {
    forall k | 0 <= k <= at
      ensures Ready(rows, order, seen[k]) <==> k == at
    {
      ReadyCounted(rows, seen, order, edges, indegree, seen[k]);
    }
  }

  lemma GreedyNext(rows: seq<Row>, seen: seq<string>, order: seq<string>, name: string)
    requires Greedy(rows, seen, order) && Earliest(rows, seen, order, name)
    ensures Greedy(rows, seen, order + [name])
  {
    var more := order + [name];
    forall p | 0 <= p < |more|
      ensures Earliest(rows, seen, more[..p], more[p])
    {
      assert more[..p] == if p < |order| then order[..p] else order;
    }
  }

  /** None of the first `k` names seen is unplaced and without a predecessor. */
  predicate NoneReady(seen: seq<string>, k: nat, order: seq<string>, indegree: map<string, int>)
    requires k <= |seen| && forall name :: name in seen ==> name in indegree
  {
    forall i :: 0 <= i < k ==> indegree[seen[i]] != 0 || seen[i] in order
  }

  /** The first unplaced name without an unplaced predecessor. */
  method FirstReady(seen: seq<string>, order: seq<string>, indegree: map<string, int>) returns (ready: Option<string>)
    requires forall name :: name in seen ==> name in indegree
    ensures ready.Some? ==> ready.value in seen && ready.value !in order && indegree[ready.value] == 0
    ensures ready.Some? ==>
              exists at :: 0 <= at < |seen| && seen[at] == ready.value && NoneReady(seen, at, order, indegree)
    ensures ready.None? ==> forall i :: 0 <= i < |seen| ==> indegree[seen[i]] != 0 || seen[i] in order
  {
    for i := 0 to |seen|
      invariant NoneReady(seen, i, order, indegree)
    {
      if indegree[seen[i]] == 0 && seen[i] !in order {
        return Some(seen[i]);
      }
    }
    return None;
  }

  /** Takes one predecessor off every target. */
  method Release(indegree: map<string, int>, targets: set<string>) returns (fewer: map<string, int>)
    requires forall name :: name in targets ==> name in indegree
    ensures fewer.Keys == indegree.Keys
    ensures forall name :: name in indegree ==> fewer[name] == indegree[name] - (if name in targets then 1 else 0)
  {
    fewer := indegree;
    var left := targets;
    while left != {}
      invariant left <= targets && fewer.Keys == indegree.Keys
      invariant forall name :: name in indegree ==>
                  fewer[name] == indegree[name] - (if name in targets && name !in left then 1 else 0)
      decreases left
    {
      var right :| right in left;
      fewer := fewer[right := fewer[right] - 1];
      left := left - {right};
    }
  }

  lemma TrackedPlace(seen: seq<string>, order: seq<string>, edges: Edges, indegree: map<string, int>,
                     fewer: map<string, int>, name: string)
    requires Tracked(seen, order, edges, indegree) && name in seen && name !in order && fewer.Keys == indegree.Keys
    requires forall n :: n in indegree ==> fewer[n] == indegree[n] - (if n in edges[name] then 1 else 0)
    ensures Tracked(seen, order + [name], edges, fewer)
  {
    var at :| 0 <= at < |seen| && seen[at] == name;
    forall n | n in seen
      ensures fewer[n] == Waiting(seen, |seen|, order + [name], edges, n)
    {
      WaitingPlaced(seen, |seen|, order, edges, at, n);
    }
  }

  lemma PlacingNext(seen: seq<string>, order: seq<string>, edges: Edges, indegree: map<string, int>, name: string)
    requires Tracked(seen, order, edges, indegree) && Placing(seen, order, edges)
    requires name in seen && name !in order && indegree[name] == 0
    ensures Placing(seen, order + [name], edges)
  {
    var more := order + [name];
    WaitingSome(seen, |seen|, order, edges, name);
    forall a, b | Edge(edges, a, b) && b in more
      ensures Precedes(more, a, b)
    {
      if b in order {
        PrecedesMore(order, name, a, b);
      } else {
        var k :| 0 <= k < |seen| && seen[k] == a;
        assert a in order;
        var i :| 0 <= i < |order| && order[i] == a;
        assert more[i] == a && more[|order|] == b;
      }
    }
  }

  lemma PrecedesMore(order: seq<string>, name: string, a: string, b: string)
    requires Precedes(order, a, b)
    ensures Precedes(order + [name], a, b)
  {
    var i, j :| 0 <= i < j < |order| && order[i] == a && order[j] == b;
    assert (order + [name])[i] == a && (order + [name])[j] == b;
  }

  /** An unplaced name of least rank. */
  lemma {:induction false} LeastUnplaced(seen: seq<string>, order: seq<string>, rank: string -> int, k: nat, some: nat)
    returns (m: nat)
    requires some < k <= |seen| && seen[some] !in order
    ensures m < k && seen[m] !in order
    ensures forall i :: 0 <= i < k && seen[i] !in order ==> rank(seen[m]) <= rank(seen[i])
  {
    if some < k - 1 {
      m := LeastUnplaced(seen, order, rank, k - 1, some);
      if seen[k - 1] !in order && rank(seen[k - 1]) < rank(seen[m]) {
        m := k - 1;
      }
    } else if other :| 0 <= other < k - 1 && seen[other] !in order {
      m := LeastUnplaced(seen, order, rank, k - 1, other);
      if rank(seen[k - 1]) < rank(seen[m]) {
        m := k - 1;
      }
    } else {
      m := k - 1;
    }
  }

  /** If every unplaced name waits for an unplaced one, no ranking suits all rows. */
  lemma NoRanking(rows: seq<Row>, seen: seq<string>, order: seq<string>, edges: Edges, indegree: map<string, int>,
                  some: nat, rank: string -> int)
    requires Tracked(seen, order, edges, indegree) && Adjacent(edges, rows, |rows|, 0)
    requires some < |seen| && seen[some] !in order
    requires forall i :: 0 <= i < |seen| ==> indegree[seen[i]] != 0 || seen[i] in order
    ensures !Ranks(rank, rows)
  {
    var m := LeastUnplaced(seen, order, rank, |seen|, some);
    WaitingSome(seen, |seen|, order, edges, seen[m]);
    var k :| 0 <= k < |seen| && seen[k] !in order && Edge(edges, seen[k], seen[m]);
    assert Listed(rows, seen[k], seen[m]);
    var r, i :| 0 <= r < |rows| && 0 <= i < |rows[r]| - 1 && rows[r][i] == seen[k] && rows[r][i + 1] == seen[m];
    assert rank(rows[r][i]) >= rank(rows[r][i + 1]);
  }

  lemma SomeUnplaced(seen: seq<string>, order: seq<string>) returns (some: nat)
    requires Distinct(seen) && Distinct(order) && |order| < |seen|
    ensures some < |seen| && seen[some] !in order
  {
    if k :| 0 <= k < |seen| && seen[k] !in order {
      some := k;
    } else {
      PartOf(seen, order);
      assert false;
    }
  }

  /**
   * One order of all names under which every row is strictly increasing, or nothing; nothing only
   * if there is no such order.
   */
  method OrderedUnion(rows: seq<Row>) returns (result: Option<seq<string>>, ghost seen: seq<string>)
    ensures result.Some? ==>
              Distinct(result.value) && SameNames(result.value, rows)
              && forall r :: 0 <= r < |rows| ==> RowInOrder(result.value, rows[r])
    ensures result.Some? ==> Ranks(RankOf(result.value), rows)
    ensures FirstSeen(seen, rows) && (result.Some? ==> Greedy(rows, seen, result.value))
    ensures result.None? ==> forall rank: string -> int :: !Ranks(rank, rows)
  {
    var names, edges, indegree := Build(rows);
    seen := names;
    var order: seq<string> := [];
    while |order| != |names|
      invariant Tracked(names, order, edges, indegree) && Placing(names, order, edges) && |order| <= |names|
      invariant Greedy(rows, names, order)
      decreases |names| - |order|
    {
      var ready := FirstReady(names, order, indegree);
      if ready.None? {
        ghost var some := SomeUnplaced(names, order);
        forall rank: string -> int
          ensures !Ranks(rank, rows)
        {
          NoRanking(rows, names, order, edges, indegree, some, rank);
        }
        return None, seen;
      }
      ghost var at :| 0 <= at < |names| && names[at] == ready.value && NoneReady(names, at, order, indegree);
      EarliestFound(rows, names, order, edges, indegree, at);
      GreedyNext(rows, names, order, ready.value);
      order, indegree := Place(names, order, edges, indegree, ready.value);
    }
    PartOf(order, names);
    AllInOrder(rows, names, order, edges);
    OrderRanks(rows, order);
    var stable := CheckRows(rows, order);
    result := if stable then Some(order) else None;
  }

  method Place(seen: seq<string>, order: seq<string>, edges: Edges, indegree: map<string, int>, name: string)
    returns (more: seq<string>, fewer: map<string, int>)
    requires Tracked(seen, order, edges, indegree) && Placing(seen, order, edges)
    requires name in seen && name !in order && indegree[name] == 0
    ensures more == order + [name] && Tracked(seen, more, edges, fewer) && Placing(seen, more, edges)
    ensures |more| <= |seen|
  {
    PlacingNext(seen, order, edges, indegree, name);
    more := order + [name];
    fewer := Release(indegree, edges[name]);
    TrackedPlace(seen, order, edges, indegree, fewer, name);
    PartOf(more, seen);
  }

  lemma AllInOrder(rows: seq<Row>, seen: seq<string>, order: seq<string>, edges: Edges)
    requires Adjacent(edges, rows, |rows|, 0) && Placing(seen, order, edges) && SameNames(seen, rows)
    requires forall name :: name in seen <==> name in order
    ensures SameNames(order, rows) && forall r :: 0 <= r < |rows| ==> RowInOrder(order, rows[r])
  {
    forall r, i | 0 <= r < |rows| && 0 <= i < |rows[r]| - 1
      ensures Precedes(order, rows[r][i], rows[r][i + 1])
    {
      assert Edge(edges, rows[r][i], rows[r][i + 1]);
      assert rows[r][i + 1] in rows[r];
    }
  }

  // ---- the check at the end, and the mask ----------------------------------------------------------------------

  function Position(order: seq<string>, name: string): (p: nat)
    requires name in order
    ensures p < |order| && order[p] == name
  {
    if order[0] == name then 0 else 1 + Position(order[1..], name)
  }

  lemma PositionUnique(order: seq<string>, i: nat)
    requires Distinct(order) && i < |order|
    ensures Position(order, order[i]) == i
  {
  }

  /** Positions along a row go strictly up. */
  predicate Climbs(order: seq<string>, row: Row) {
    && (forall i :: 0 <= i < |row| ==> row[i] in order)
    && (forall i, j :: 0 <= i < j < |row| ==> Position(order, row[i]) < Position(order, row[j]))
  }

  lemma {:induction false} ClimbsBetween(order: seq<string>, row: Row, i: nat, j: nat)
    requires Distinct(order) && RowInOrder(order, row) && i < j < |row|
    ensures row[i] in order && row[j] in order && Position(order, row[i]) < Position(order, row[j])
    decreases j
  {
    assert Precedes(order, row[j - 1], row[j]);
    var p, q :| 0 <= p < q < |order| && order[p] == row[j - 1] && order[q] == row[j];
    PositionUnique(order, p);
    PositionUnique(order, q);
    if i < j - 1 {
      ClimbsBetween(order, row, i, j - 1);
    }
  }

  /** A row of names in an order it respects climbs. */
  lemma RowClimbs(order: seq<string>, row: Row)
    requires Distinct(order) && RowInOrder(order, row) && forall i :: 0 <= i < |row| ==> row[i] in order
    ensures Climbs(order, row)
  {
    forall i, j | 0 <= i < j < |row|
      ensures Position(order, row[i]) < Position(order, row[j])
    {
      ClimbsBetween(order, row, i, j);
    }
  }

  /** Whether a row equals itself sorted by rank. */
  method IsSorted(order: seq<string>, row: Row) returns (sorted: bool)
    requires forall i :: 0 <= i < |row| ==> row[i] in order
    ensures sorted == forall i :: 0 <= i < |row| - 1 ==> Position(order, row[i]) <= Position(order, row[i + 1])
  {
    var i := 0;
    while i < |row| - 1
      invariant 0 <= i && forall k :: 0 <= k < i && k < |row| - 1 ==> Position(order, row[k]) <= Position(order, row[k + 1])
    {
      if Position(order, row[i]) > Position(order, row[i + 1]) {
        return false;
      }
      i := i + 1;
    }
    return true;
  }

  /** The final check of every row. It never fails. */
  method CheckRows(rows: seq<Row>, order: seq<string>) returns (stable: bool)
    requires Distinct(order) && SameNames(order, rows) && forall r :: 0 <= r < |rows| ==> RowInOrder(order, rows[r])
    ensures stable
  {
    stable := true;
    for r := 0 to |rows|
      invariant stable
    {
      assert forall i :: 0 <= i < |rows[r]| ==> rows[r][i] in rows[r];
      RowClimbs(order, rows[r]);
      var sorted := IsSorted(order, rows[r]);
      stable := stable && sorted;
    }
  }

  /** The ranking an order gives. */
  function RankOf(order: seq<string>): string -> int {
    (name: string) => if name in order then Position(order, name) else -1
  }

  lemma OrderRanks(rows: seq<Row>, order: seq<string>)
    requires Distinct(order) && forall r :: 0 <= r < |rows| ==> RowInOrder(order, rows[r])
    ensures Ranks(RankOf(order), rows)
  {
    forall r, i | 0 <= r < |rows| && 0 <= i < |rows[r]| - 1
      ensures RankOf(order)(rows[r][i]) < RankOf(order)(rows[r][i + 1])
    {
      ClimbsBetween(order, rows[r], i, i + 1);
    }
  }

  // ---- masks -------------------------------------------------------------------------------------------------

  predicate Bit(mask: nat, i: nat) { if i == 0 then mask % 2 == 1 else Bit(mask / 2, i - 1) }

  /** `mask | 1 << i`. */
  function SetBit(mask: nat, i: nat): nat {
    if i == 0 then if mask % 2 == 1 then mask else mask + 1 else 2 * SetBit(mask / 2, i - 1) + mask % 2
  }

  lemma {:induction false} SetBitSets(mask: nat, i: nat, j: nat)
    ensures Bit(SetBit(mask, i), j) <==> i == j || Bit(mask, j)
  {
    if i != 0 && j != 0 {
      SetBitSets(mask / 2, i - 1, j - 1);
    }
  }

  function Popcount(mask: nat): nat { if mask == 0 then 0 else mask % 2 + Popcount(mask / 2) }

  lemma SetBitHalves(half: nat, bit: nat, i: nat)
    requires bit < 2
    ensures SetBit(2 * half + bit, i) == if i == 0 then 2 * half + 1 else 2 * SetBit(half, i - 1) + bit
    ensures Bit(2 * half + bit, i) <==> if i == 0 then bit == 1 else Bit(half, i - 1)
  {
    assert (2 * half + bit) / 2 == half && (2 * half + bit) % 2 == bit;
  }

  lemma {:induction false} SetBitCounts(mask: nat, i: nat)
    ensures Popcount(SetBit(mask, i)) == Popcount(mask) + (if Bit(mask, i) then 0 else 1)
  {
    var half, bit := mask / 2, mask % 2;
    SetBitHalves(half, bit, i);
    PopcountStep(half, bit);
    if i != 0 {
      SetBitCounts(half, i - 1);
      PopcountStep(SetBit(half, i - 1), bit);
    } else {
      PopcountStep(half, 1);
    }
  }

  lemma PopcountStep(half: nat, bit: nat)
    requires bit < 2
    ensures Popcount(2 * half + bit) == Popcount(half) + bit
  {
  }

  lemma {:induction false} NoBits(i: nat)
    ensures !Bit(0, i)
  {
    if i != 0 {
      NoBits(i - 1);
    }
  }

  lemma {:induction false} SetBitFits(mask: nat, i: nat, width: nat)
    requires mask < Pow2(width) && i < width
    ensures SetBit(mask, i) < Pow2(width)
  {
    if i != 0 {
      SetBitFits(mask / 2, i - 1, width - 1);
    }
  }

  /** The positions of a row's names, as bits; nothing if a name is missing from the order. */
  method MaskFor(row: Row, order: seq<string>) returns (mask: Option<nat>)
    requires Distinct(order)
    ensures mask.None? <==> exists k :: 0 <= k < |row| && row[k] !in order
    ensures mask.Some? ==> forall i :: 0 <= i < |order| ==> (Bit(mask.value, i) <==> order[i] in row)
    ensures mask.Some? && Distinct(row) ==> Popcount(mask.value) == |row|
    ensures mask.Some? ==> mask.value < Pow2(|order|)
  {
    var bits: nat := 0;
    Pow2Monotone(0, |order|);
    forall i: nat
      ensures !Bit(0, i)
    {
      NoBits(i);
    }
    for k := 0 to |row|
      invariant forall i :: 0 <= i < k ==> row[i] in order
      invariant forall i :: 0 <= i < |order| ==> (Bit(bits, i) <==> order[i] in row[..k])
      invariant Distinct(row) ==> Popcount(bits) == k
      invariant bits < Pow2(|order|)
    {
      if row[k] !in order {
        return None;
      }
      var at := Position(order, row[k]);
      MaskNext(order, row, k, bits, at);
      if Distinct(row) {
        MaskCounts(order, row, k, bits, at);
      }
      SetBitFits(bits, at, |order|);
      bits := SetBit(bits, at);
    }
    assert row[..|row|] == row;
    mask := Some(bits);
  }

  lemma MaskCounts(order: seq<string>, row: Row, k: nat, bits: nat, at: nat)
    requires k < |row| && row[k] in order && at == Position(order, row[k]) && Distinct(row)
    requires Bit(bits, at) <==> order[at] in row[..k]
    ensures Popcount(SetBit(bits, at)) == Popcount(bits) + 1
  {
    SetBitCounts(bits, at);
    assert row[k] !in row[..k];
  }

  lemma MaskNext(order: seq<string>, row: Row, k: nat, bits: nat, at: nat)
    requires Distinct(order) && k < |row| && row[k] in order && at == Position(order, row[k])
    requires forall i :: 0 <= i < |order| ==> (Bit(bits, i) <==> order[i] in row[..k])
    ensures forall i :: 0 <= i < |order| ==> (Bit(SetBit(bits, at), i) <==> order[i] in row[..k + 1])
  {
    assert row[..k + 1] == row[..k] + [row[k]];
    forall i | 0 <= i < |order|
      ensures Bit(SetBit(bits, at), i) <==> order[i] in row[..k + 1]
    {
      SetBitSets(bits, at, i);
      PositionUnique(order, i);
    }
  }

  /** The names whose bits are set, by ascending position. */
  function Chosen(names: seq<string>, mask: nat, k: nat): seq<string>
    requires k <= |names|
  {
    if k == 0 then [] else Chosen(names, mask, k - 1) + (if Bit(mask, k - 1) then [names[k - 1]] else [])
  }

  /** The count announced in front of the names, and the names. */
  method Render(mask: nat, names: seq<string>) returns (header: nat, out: seq<string>)
    ensures header == Popcount(mask) && out == Chosen(names, mask, |names|)
    ensures header == |out| <==> mask < Pow2(|names|)
  {
    HeaderCounts(names, mask);
    header := Popcount(mask);
    out := [];
    for index := 0 to |names|
      invariant out == Chosen(names, mask, index)
    {
      if Bit(mask, index) {
        out := out + [names[index]];
      }
    }
  }

  /** What is left of a mask above its lowest `k` bits. */
  function Above(mask: nat, k: nat): nat { if k == 0 then mask else Above(mask / 2, k - 1) }

  lemma {:induction false} AboveNothing(mask: nat, k: nat)
    ensures Above(mask, k) == 0 <==> mask < Pow2(k)
  {
    if k != 0 {
      AboveNothing(mask / 2, k - 1);
    }
  }

  lemma {:induction false} PopcountNothing(mask: nat)
    ensures Popcount(mask) == 0 <==> mask == 0
  {
    if mask != 0 {
      PopcountNothing(mask / 2);
    }
  }

  function CountLow(mask: nat, k: nat): nat {
    if k == 0 then 0 else CountLow(mask, k - 1) + (if Bit(mask, k - 1) then 1 else 0)
  }

  lemma {:induction false} CountLowHalves(mask: nat, k: nat)
    requires k > 0
    ensures CountLow(mask, k) == mask % 2 + CountLow(mask / 2, k - 1)
  {
    if k > 1 {
      CountLowHalves(mask, k - 1);
    }
  }

  lemma {:induction false} PopcountSplits(mask: nat, k: nat)
    ensures Popcount(mask) == CountLow(mask, k) + Popcount(Above(mask, k))
  {
    if k != 0 {
      PopcountSplits(mask / 2, k - 1);
      CountLowHalves(mask, k);
    }
  }

  lemma {:induction false} ChosenLength(names: seq<string>, mask: nat, k: nat)
    requires k <= |names|
    ensures |Chosen(names, mask, k)| == CountLow(mask, k)
  {
    if k != 0 {
      ChosenLength(names, mask, k - 1);
    }
  }

  /** The announced count is the number of names if and only if no bit lies beyond the names. */
  lemma HeaderCounts(names: seq<string>, mask: nat)
    ensures Popcount(mask) == |Chosen(names, mask, |names|)| <==> mask < Pow2(|names|)
  {
    ChosenLength(names, mask, |names|);
    PopcountSplits(mask, |names|);
    PopcountNothing(Above(mask, |names|));
    AboveNothing(mask, |names|);
  }

  /** Rendering reaches the first `t` names of a row once it has passed their positions. */
  lemma {:induction false} ChosenPrefix(order: seq<string>, row: Row, mask: nat, k: nat) returns (t: nat)
    requires Distinct(order) && Climbs(order, row) && k <= |order|
    requires forall i :: 0 <= i < |order| ==> (Bit(mask, i) <==> order[i] in row)
    ensures t <= |row| && Chosen(order, mask, k) == row[..t] && Passed(order, row, k, t)
  {
    if k == 0 {
      t := 0;
    } else {
      t := ChosenPrefix(order, row, mask, k - 1);
      if Bit(mask, k - 1) {
        NextInRow(order, row, k - 1, t);
        assert row[..t + 1] == row[..t] + [row[t]];
        t := t + 1;
      } else {
        NotInRow(order, row, k - 1);
      }
    }
  }

  /** The names of a row before position `k` of the order are its first `t`. */
  predicate Passed(order: seq<string>, row: Row, k: nat, t: nat)
    requires forall i :: 0 <= i < |row| ==> row[i] in order
  {
    forall j :: 0 <= j < |row| ==> (j < t <==> Position(order, row[j]) < k)
  }

  lemma NextInRow(order: seq<string>, row: Row, k: nat, t: nat)
    requires Distinct(order) && Climbs(order, row) && k < |order| && order[k] in row && Passed(order, row, k, t)
    ensures t < |row| && row[t] == order[k] && Passed(order, row, k + 1, t + 1)
  {
    PositionUnique(order, k);
    var j :| 0 <= j < |row| && row[j] == order[k];
    assert j >= t;
    assert Position(order, row[t]) <= Position(order, row[j]);
  }

  lemma NotInRow(order: seq<string>, row: Row, k: nat)
    requires Climbs(order, row) && k < |order| && order[k] !in row
    ensures forall j :: 0 <= j < |row| ==> Position(order, row[j]) != k
  {
  }

  /** Printing a row's mask prints the row. */
  lemma RenderInvertsMask(order: seq<string>, row: Row, mask: nat)
    requires Distinct(order) && Climbs(order, row)
    requires forall i :: 0 <= i < |order| ==> (Bit(mask, i) <==> order[i] in row)
    ensures Chosen(order, mask, |order|) == row
  {
    var t := ChosenPrefix(order, row, mask, |order|);
    assert row != [] ==> Position(order, row[|row| - 1]) < |order|;
    assert row[..|row|] == row;
  }

  /** The whole way: order all rows, make the mask of one of them, and print it again. */
  method RoundTrip(rows: seq<Row>, r: nat) returns (printed: Option<Row>)
    requires r < |rows|
    ensures printed.Some? ==> printed.value == rows[r]
    ensures printed.None? ==> forall rank: string -> int :: !Ranks(rank, rows)
  {
    var order, seen := OrderedUnion(rows);
    if order.None? {
      return None;
    }
    assert forall i :: 0 <= i < |rows[r]| ==> rows[r][i] in rows[r];
    RowClimbs(order.value, rows[r]);
    var mask := MaskFor(rows[r], order.value);
    RenderInvertsMask(order.value, rows[r], mask.value);
    var header, out := Render(mask.value, order.value);
    assert header == |out|;
    printed := Some(out);
  }
}
