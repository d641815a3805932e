/** Each executor thread's table of functions, stamped with the generation it was built from. */
module FunctionSync {
  // The steps below interleave freely: a mutator changes the libraries under the lock and then bumps
  // the generation; a thread reads the generation without the lock, copies the libraries under it,
  // rebuilds its table and writes its stamp.

  import opened Options
  import opened FunctionRegistry

  /** Where a thread is in its synchronisation call, and the generation it read first. */
  datatype Phase =
    | Outside
    | Stale(from: nat)
    | Building(from: nat, order: seq<Library>, taken: nat)

  datatype Thread = Thread(phase: Phase, table: Table, stamp: Option<nat>)

  /** A call that returned success: the generations at its start and end, and the table it left. */
  datatype Report = Report(from: nat, to: nat, table: Table)

  /** `history[g]` is what the libraries were at generation `g`. */
  datatype System = System(libs: Libraries, generation: nat, lock: Option<Libraries>, threads: seq<Thread>,
                           history: seq<Libraries>, reports: seq<Report>)

  datatype Step =
    | Change(libs: Libraries)                // under the lock, not yet visible
    | Bump                                   // the generation moves and the lock is released
    | Rollback                               // nothing changed after all
    | Enter(t: nat)                          // read the generation, compare the stamp
    | Take(t: nat, order: seq<Library>)      // copy the libraries, start an empty table
    | Succeed(t: nat)                        // every library ran: the stamp is written
    | Fail(t: nat)                           // a library failed: an empty table, the old stamp
    | GiveUp(t: nat)                         // the copy failed: nothing was touched
    | Reset(t: nat)                          // the interpreter is rebuilt and loses both

  const NEW_THREAD := Thread(Outside, map[], None)

  function Boot(threads: nat): System {
    System(map[], 0, None, seq(threads, _ => NEW_THREAD), [map[]], [])
  }

  predicate Enabled(s: System, e: Step) {
    match e
    case Change(libs) => s.lock.None? && Wellformed(libs)
    case Bump => s.lock.Some?
    case Rollback => s.lock.Some?
    case Enter(t) => t < |s.threads| && s.threads[t].phase.Outside?
    case Take(t, order) => t < |s.threads| && s.threads[t].phase.Stale? && s.lock.None? && Enumerates(order, s.libs)
    case Succeed(t) => t < |s.threads| && s.threads[t].phase.Building?
    case Fail(t) => t < |s.threads| && s.threads[t].phase.Building?
    case GiveUp(t) => t < |s.threads| && s.threads[t].phase.Stale?
    case Reset(t) => t < |s.threads| && s.threads[t].phase.Outside?
  }

  function Next(s: System, e: Step): System
    requires Enabled(s, e)
  {
    match e
    case Change(libs) => s.(lock := Some(libs))
    case Bump =>
      s.(libs := s.lock.value, generation := s.generation + 1, lock := None, history := s.history + [s.lock.value])
    case Rollback => s.(lock := None)
    case Enter(t) =>
      var thread := s.threads[t];
      if thread.stamp == Some(s.generation)
      then s.(reports := s.reports + [Report(s.generation, s.generation, thread.table)])
      else s.(threads := s.threads[t := thread.(phase := Stale(s.generation))])
    case Take(t, order) =>
      var thread := s.threads[t];
      s.(threads := s.threads[t := thread.(phase := Building(thread.phase.from, order, s.generation), table := map[])])
    case Succeed(t) =>
      var phase, table := s.threads[t].phase, TableOf(s.threads[t].phase.order);
      s.(threads := s.threads[t := Thread(Outside, table, Some(phase.taken))],
         reports := s.reports + [Report(phase.from, s.generation, table)])
    case Fail(t) => s.(threads := s.threads[t := Thread(Outside, map[], s.threads[t].stamp)])
    case GiveUp(t) => s.(threads := s.threads[t := s.threads[t].(phase := Outside)])
    case Reset(t) => s.(threads := s.threads[t := NEW_THREAD])
  }

  /** Where a run leads, if each of its steps can happen when its turn comes. */
  function Play(threads: nat, run: seq<Step>): Option<System> {
    if run == [] then Some(Boot(threads))
    else match Play(threads, run[..|run| - 1])
      case None => None
      case Some(s) => if Enabled(s, run[|run| - 1]) then Some(Next(s, run[|run| - 1])) else None
  }

  predicate Legal(threads: nat, run: seq<Step>) { Play(threads, run).Some? }

  function After(threads: nat, run: seq<Step>): System
    requires Legal(threads, run)
  {
    Play(threads, run).value
  }

  // ---- what every step keeps -----------------------------------------------------------------------------

  /** The table is what these libraries materialize to; by `TableOrderFree` the order is irrelevant. */
  ghost predicate Mirrors(table: Table, libs: Libraries) {
    exists order :: Enumerates(order, libs) && table == TableOf(order)
  }

  predicate Recorded(s: System) {
    && |s.history| == s.generation + 1 && s.history[s.generation] == s.libs
    && (forall g :: 0 <= g < |s.history| ==> Wellformed(s.history[g]))
    && (s.lock.Some? ==> Wellformed(s.lock.value))
  }

  /** A stamp that is still current belongs to the table beside it. */
  ghost predicate Honest(thread: Thread, history: seq<Libraries>) {
    thread.stamp.Some? ==>
      thread.stamp.value < |history|
      && (thread.stamp.value + 1 < |history| || Mirrors(thread.table, history[thread.stamp.value]))
  }

  /** Inside a call the old stamp is behind the generation the call started with. */
  ghost predicate InCall(thread: Thread, history: seq<Libraries>) {
    match thread.phase
    case Outside => Honest(thread, history)
    case Stale(from) => from < |history| && (thread.stamp.Some? ==> thread.stamp.value < from)
    case Building(from, order, taken) =>
      && from <= taken < |history| && Enumerates(order, history[taken])
      && (thread.stamp.Some? ==> thread.stamp.value < from)
  }

  /** The table was right at some moment of the call. */
  ghost predicate Truthful(r: Report, history: seq<Libraries>) {
    exists g :: r.from <= g <= r.to && g < |history| && Mirrors(r.table, history[g])
  }

  ghost predicate Inv(s: System) {
    && Recorded(s)
    && (forall t :: 0 <= t < |s.threads| ==> InCall(s.threads[t], s.history))
    && (forall i :: 0 <= i < |s.reports| ==> Truthful(s.reports[i], s.history))
  }

  lemma MirrorsLater(thread: Thread, history: seq<Libraries>, libs: Libraries)
    requires InCall(thread, history)
    ensures InCall(thread, history + [libs])
  {
    var longer := history + [libs];
    assert forall g :: 0 <= g < |history| ==> longer[g] == history[g];
  }

  lemma TruthfulLater(r: Report, history: seq<Libraries>, libs: Libraries)
    requires Truthful(r, history)
    ensures Truthful(r, history + [libs])
  {
    var g :| r.from <= g <= r.to && g < |history| && Mirrors(r.table, history[g]);
    assert (history + [libs])[g] == history[g];
  }

  lemma BumpKeeps(s: System)
    requires Inv(s) && Enabled(s, Bump)
    ensures Inv(Next(s, Bump))
  {
    var libs := s.lock.value;
    forall t | 0 <= t < |s.threads|
      ensures InCall(s.threads[t], s.history + [libs])
    {
      MirrorsLater(s.threads[t], s.history, libs);
    }
    forall i | 0 <= i < |s.reports|
      ensures Truthful(s.reports[i], s.history + [libs])
    {
      TruthfulLater(s.reports[i], s.history, libs);
    }
  }

  lemma EnterKeeps(s: System, t: nat)
    requires Inv(s) && Enabled(s, Enter(t))
    ensures Inv(Next(s, Enter(t)))
  {
    var thread := s.threads[t];
    assert InCall(thread, s.history);
    if thread.stamp == Some(s.generation) {
      assert Truthful(Report(s.generation, s.generation, thread.table), s.history);
    }
  }

  lemma SucceedKeeps(s: System, t: nat)
    requires Inv(s) && Enabled(s, Succeed(t))
    ensures Inv(Next(s, Succeed(t)))
  {
    assert InCall(s.threads[t], s.history);
    var phase := s.threads[t].phase;
    assert Mirrors(TableOf(phase.order), s.history[phase.taken]);
    assert Truthful(Report(phase.from, s.generation, TableOf(phase.order)), s.history);
  }

  lemma ThreadKeeps(s: System, e: Step)
    requires Inv(s) && Enabled(s, e) && (e.Take? || e.Fail? || e.GiveUp? || e.Reset?)
    ensures Inv(Next(s, e))
  {
    assert InCall(s.threads[e.t], s.history);
  }

  lemma {:induction false} EveryRun(threads: nat, run: seq<Step>)
    requires Legal(threads, run)
    ensures Inv(After(threads, run))
  {
    if run == [] {
      assert Wellformed(map[]);
    } else {
      var before, e := After(threads, run[..|run| - 1]), run[|run| - 1];
      EveryRun(threads, run[..|run| - 1]);
      match e
      case Change(_) =>
      case Rollback =>
      case Bump => BumpKeeps(before);
      case Enter(t) => EnterKeeps(before, t);
      case Succeed(t) => SucceedKeeps(before, t);
      case Take(_, _) => ThreadKeeps(before, e);
      case Fail(_) => ThreadKeeps(before, e);
      case GiveUp(_) => ThreadKeeps(before, e);
      case Reset(_) => ThreadKeeps(before, e);
    }
  }

  /** In every interleaving a successful call leaves a table that was current during the call. */
  lemma SyncIsLinearizable(threads: nat, run: seq<Step>, i: nat)
    requires Legal(threads, run) && i < |After(threads, run).reports|
    ensures var s := After(threads, run); var r := s.reports[i];
      exists g :: r.from <= g <= r.to && g < |s.history| && Mirrors(r.table, s.history[g])
  {
    EveryRun(threads, run);
    assert Truthful(After(threads, run).reports[i], After(threads, run).history);
  }

  /** A table that a failed call emptied never passes for a current one: its stamp is out of date. */
  lemma CurrentStampIsCurrent(threads: nat, run: seq<Step>, t: nat)
    requires Legal(threads, run) && t < |After(threads, run).threads|
    requires After(threads, run).threads[t].phase.Outside?
    requires After(threads, run).threads[t].stamp == Some(After(threads, run).generation)
    ensures Mirrors(After(threads, run).threads[t].table, After(threads, run).libs)
  {
    EveryRun(threads, run);
    assert InCall(After(threads, run).threads[t], After(threads, run).history);
  }
}
