/** MONITOR, TRACKING and CLIENT REPLY state per I/O thread, its counters, and its move between threads. */
module ClientLanes {
  // One object stands for all threads: field `f[o]` is field `f` of thread `o`. Each method is one
  // uninterrupted action of one thread, so a run of the server is a sequence of calls.

  import opened Clients
  import opened ReplySuppression

  /** What a thread stores about a connection that uses any of the three features. */
  datatype Lane = Lane(mode: Mode, monitor: bool, tracking: bool, brokenRedirect: bool)

  const IDLE := Lane(On, false, false, false)

  type Lanes = map<ClientId, Lane>

  function LaneOf(lanes: Lanes, id: ClientId): Lane {
    if id in lanes then lanes[id] else IDLE
  }

  /** The entry written back: a connection that is idle again is dropped. */
  function Store(lanes: Lanes, id: ClientId, lane: Lane): Lanes {
    if lane == IDLE then lanes - {id} else lanes[id := lane]
  }

  // ---- counting ------------------------------------------------------------------------------------

  datatype Tally = Tally(monitors: nat, trackers: nat, reply: nat)

  function Plus(a: Tally, b: Tally): Tally {
    Tally(a.monitors + b.monitors, a.trackers + b.trackers, a.reply + b.reply)
  }

  function Bit(b: bool): nat { if b then 1 else 0 }

  function Weight(lane: Lane): Tally {
    Tally(Bit(lane.monitor), Bit(lane.tracking), Bit(lane.mode != On))
  }

  /** What the entries of one thread add up to, for connection ids below `ids`. */
  function TallyOf(ids: nat, lanes: Lanes): Tally {
    if ids == 0 then Tally(0, 0, 0) else Plus(TallyOf(ids - 1, lanes), Weight(LaneOf(lanes, ids - 1)))
  }

  function TallyOfAll(ids: nat, conns: seq<Lanes>): Tally {
    if conns == [] then Tally(0, 0, 0)
    else Plus(TallyOfAll(ids, conns[..|conns| - 1]), TallyOf(ids, conns[|conns| - 1]))
  }

  ghost predicate LocallyCounted(ids: nat, conns: seq<Lanes>, local: seq<Tally>) {
    |local| == |conns| && forall o :: 0 <= o < |conns| ==> local[o] == TallyOf(ids, conns[o])
  }

  /** Every thread's counters count its own entries; the server's counters count all of them. */
  ghost predicate Counted(ids: nat, conns: seq<Lanes>, local: seq<Tally>, carried: Lanes, total: Tally) {
    LocallyCounted(ids, conns, local) && total == Plus(TallyOfAll(ids, conns), TallyOf(ids, carried))
  }

  function Users(ids: nat, lanes: Lanes, uses: Lane -> bool): set<ClientId> {
    set id | 0 <= id < ids && id in lanes && uses(lanes[id])
  }

  /** The sums are the numbers of monitoring, tracking and muted connections. */
  lemma {:induction false} TallyIsCount(ids: nat, lanes: Lanes)
    ensures TallyOf(ids, lanes).monitors == |Users(ids, lanes, (l: Lane) => l.monitor)|
    ensures TallyOf(ids, lanes).trackers == |Users(ids, lanes, (l: Lane) => l.tracking)|
    ensures TallyOf(ids, lanes).reply == |Users(ids, lanes, (l: Lane) => l.mode != On)|
  {
    if ids != 0 {
      TallyIsCount(ids - 1, lanes);
      UsersStep(ids, lanes, (l: Lane) => l.monitor);
      UsersStep(ids, lanes, (l: Lane) => l.tracking);
      UsersStep(ids, lanes, (l: Lane) => l.mode != On);
    }
  }

  lemma UsersStep(ids: nat, lanes: Lanes, uses: Lane -> bool)
    requires ids != 0
    ensures |Users(ids, lanes, uses)|
         == |Users(ids - 1, lanes, uses)| + Bit(ids - 1 in lanes && uses(lanes[ids - 1]))
  {
    var fewer := Users(ids - 1, lanes, uses);
    if ids - 1 in lanes && uses(lanes[ids - 1]) {
      assert Users(ids, lanes, uses) == fewer + {ids - 1};
    } else {
      assert Users(ids, lanes, uses) == fewer;
    }
  }

  /** Two thread states that differ in one entry. */
  lemma {:induction false} TallyStored(ids: nat, lanes: Lanes, after: Lanes, id: ClientId)
    requires 0 <= id < ids && forall other :: other != id ==> LaneOf(after, other) == LaneOf(lanes, other)
    ensures Plus(TallyOf(ids, after), Weight(LaneOf(lanes, id))) == Plus(TallyOf(ids, lanes), Weight(LaneOf(after, id)))
  {
    var was, now := Weight(LaneOf(lanes, id)), Weight(LaneOf(after, id));
    var last := Weight(LaneOf(lanes, ids - 1));
    if id == ids - 1 {
      TallySame(ids - 1, lanes, after);
      PlusSwap(TallyOf(ids - 1, lanes), was, now);
    } else {
      TallyStored(ids - 1, lanes, after, id);
      PlusExtra(TallyOf(ids - 1, after), TallyOf(ids - 1, lanes), was, now, last);
      assert Weight(LaneOf(after, ids - 1)) == last;
    }
  }

  lemma PlusSwap(t: Tally, a: Tally, b: Tally)
    ensures Plus(Plus(t, a), b) == Plus(Plus(t, b), a)
  {
  }

  lemma PlusExtra(s: Tally, t: Tally, a: Tally, b: Tally, extra: Tally)
    requires Plus(s, a) == Plus(t, b)
    ensures Plus(Plus(s, extra), a) == Plus(Plus(t, extra), b)
  {
  }

  lemma {:induction false} TallySame(ids: nat, lanes: Lanes, after: Lanes)
    requires forall id :: 0 <= id < ids ==> LaneOf(after, id) == LaneOf(lanes, id)
    ensures TallyOf(ids, after) == TallyOf(ids, lanes)
  {
    if ids != 0 {
      TallySame(ids - 1, lanes, after);
    }
  }

  lemma {:induction false} TallyCovers(ids: nat, lanes: Lanes, id: ClientId)
    requires 0 <= id < ids
    ensures TallyOf(ids, lanes).monitors >= Weight(LaneOf(lanes, id)).monitors
    ensures TallyOf(ids, lanes).trackers >= Weight(LaneOf(lanes, id)).trackers
    ensures TallyOf(ids, lanes).reply >= Weight(LaneOf(lanes, id)).reply
  {
    if id < ids - 1 {
      TallyCovers(ids - 1, lanes, id);
    }
  }

  lemma {:induction false} TallyOfAllStored(ids: nat, conns: seq<Lanes>, o: nat, lanes: Lanes)
    requires o < |conns|
    ensures Plus(TallyOfAll(ids, conns[o := lanes]), TallyOf(ids, conns[o]))
         == Plus(TallyOfAll(ids, conns), TallyOf(ids, lanes))
  {
    var last := |conns| - 1;
    if o == last {
      assert conns[o := lanes][..last] == conns[..last];
    } else {
      assert conns[o := lanes][..last] == conns[..last][o := lanes];
      TallyOfAllStored(ids, conns[..last], o, lanes);
    }
  }

  lemma {:induction false} PartOfAll(ids: nat, conns: seq<Lanes>, o: nat)
    requires o < |conns|
    ensures TallyOf(ids, conns[o]).monitors <= TallyOfAll(ids, conns).monitors
    ensures TallyOf(ids, conns[o]).trackers <= TallyOfAll(ids, conns).trackers
    ensures TallyOf(ids, conns[o]).reply <= TallyOfAll(ids, conns).reply
  {
    if o < |conns| - 1 {
      PartOfAll(ids, conns[..|conns| - 1], o);
    }
  }

  /** A counter that was adjusted by what one entry gained and lost. */
  predicate Adjusted(before: Tally, after: Tally, was: Lane, now: Lane) {
    Plus(after, Weight(was)) == Plus(before, Weight(now))
  }

  lemma AdjustedTwice(before: Tally, between: Tally, after: Tally, was: Lane, mid: Lane, now: Lane)
    requires Adjusted(before, between, was, mid) && Adjusted(between, after, mid, now)
    ensures Adjusted(before, after, was, now)
  {
  }

  /** A counted entry keeps its thread's counter and the server's counter above zero. */
  lemma NoUnderflow(ids: nat, conns: seq<Lanes>, local: seq<Tally>, carried: Lanes, total: Tally, o: nat, id: ClientId)
    requires Counted(ids, conns, local, carried, total) && o < |conns| && 0 <= id < ids
    ensures var lane := LaneOf(conns[o], id);
      && (lane.monitor ==> local[o].monitors > 0 && total.monitors > 0)
      && (lane.tracking ==> local[o].trackers > 0 && total.trackers > 0)
      && (lane.mode != On ==> local[o].reply > 0 && total.reply > 0)
  {
    TallyCovers(ids, conns[o], id);
    PartOfAll(ids, conns, o);
  }

  /** Adjusting both counters by what an entry gained and lost keeps the count. */
  lemma Recount(ids: nat, conns: seq<Lanes>, local: seq<Tally>, carried: Lanes, total: Tally,
                o: nat, id: ClientId, lanes: Lanes, mine: Tally, all: Tally)
    requires Counted(ids, conns, local, carried, total) && o < |conns| && 0 <= id < ids
    requires forall other :: other != id ==> LaneOf(lanes, other) == LaneOf(conns[o], other)
    requires Adjusted(local[o], mine, LaneOf(conns[o], id), LaneOf(lanes, id))
    requires Adjusted(total, all, LaneOf(conns[o], id), LaneOf(lanes, id))
    ensures Counted(ids, conns[o := lanes], local[o := mine], carried, all)
  {
    TallyStored(ids, conns[o], lanes, id);
    TallyOfAllStored(ids, conns, o, lanes);
  }

  /** Moving an entry between a thread and a transfer keeps the count. */
  lemma RecountTransfer(ids: nat, conns: seq<Lanes>, local: seq<Tally>, carried: Lanes, total: Tally,
                        o: nat, lanes: Lanes, mine: Tally, load: Lanes)
    requires Counted(ids, conns, local, carried, total) && o < |conns| && mine == TallyOf(ids, lanes)
    requires Plus(mine, TallyOf(ids, load)) == Plus(local[o], TallyOf(ids, carried))
    ensures Counted(ids, conns[o := lanes], local[o := mine], load, total)
  {
    TallyOfAllStored(ids, conns, o, lanes);
  }

  // ---- leaving one feature ---------------------------------------------------------------------------

  /** climon_monitor_stop. The server's counter is decremented from zero only if the process aborts. */
  method StopMonitor(lane: Lane, mine: Tally, all: Tally, bit: bool)
    returns (lane': Lane, mine': Tally, all': Tally, bit': bool)
    requires lane.monitor ==> mine.monitors > 0 && all.monitors > 0
    ensures lane' == lane.(monitor := false)
    ensures Adjusted(mine, mine', lane, lane') && Adjusted(all, all', lane, lane')
    ensures mine'.monitors > 0 ==> bit' == bit
  {
    lane', mine', all', bit' := lane, mine, all, bit;
    if lane.monitor {
      lane' := lane.(monitor := false);
      if mine.monitors != 0 {
        mine' := mine.(monitors := mine.monitors - 1);
      }
      if mine'.monitors == 0 {
        bit' := false;
      }
      assert all.monitors != 0;
      all' := all.(monitors := all.monitors - 1);
    }
  }

  method ForgetTracking(lane: Lane, mine: Tally, all: Tally) returns (lane': Lane, mine': Tally, all': Tally)
    requires lane.tracking ==> mine.trackers > 0 && all.trackers > 0
    ensures lane' == lane.(tracking := false)
    ensures Adjusted(mine, mine', lane, lane') && Adjusted(all, all', lane, lane')
  {
    lane', mine', all' := lane, mine, all;
    if lane.tracking {
      lane' := lane.(tracking := false);
      if mine.trackers != 0 {
        mine' := mine.(trackers := mine.trackers - 1);
      }
      assert all.trackers != 0;
      all' := all.(trackers := all.trackers - 1);
    }
  }

  /** Gives the entry a new reply mode and adjusts the counters when it enters or leaves `On`. */
  method SetMode(lane: Lane, mode: Mode, mine: Tally, all: Tally) returns (lane': Lane, mine': Tally, all': Tally)
    requires lane.mode != On ==> mine.reply > 0 && all.reply > 0
    ensures lane' == lane.(mode := mode)
    ensures Adjusted(mine, mine', lane, lane') && Adjusted(all, all', lane, lane')
    ensures all' == all <==> (lane.mode == On) == (mode == On)
  {
    lane', mine', all' := lane.(mode := mode), mine, all;
    if lane.mode == On && mode != On {
      mine' := mine.(reply := mine.reply + 1);
      all' := all.(reply := all.reply + 1);
    } else if lane.mode != On && mode == On {
      if mine.reply != 0 {
        mine' := mine.(reply := mine.reply - 1);
      }
      assert all.reply != 0;
      all' := all.(reply := all.reply - 1);
    }
  }

  /** The counters of a thread that loses an entry. None of the three aborts can be reached. */
  method TakeOff(lane: Lane, mine: Tally) returns (mine': Tally)
    requires (lane.monitor ==> mine.monitors > 0) && (lane.tracking ==> mine.trackers > 0)
    requires lane.mode != On ==> mine.reply > 0
    ensures Adjusted(mine, mine', lane, IDLE)
  {
    mine' := mine;
    if lane.monitor {
      assert mine'.monitors != 0;
      mine' := mine'.(monitors := mine'.monitors - 1);
    }
    if lane.tracking {
      assert mine'.trackers != 0;
      mine' := mine'.(trackers := mine'.trackers - 1);
    }
    if lane.mode != On {
      assert mine'.reply != 0;
      mine' := mine'.(reply := mine'.reply - 1);
    }
  }

  /** The counters of a thread that gains an entry. */
  method PutOn(lane: Lane, mine: Tally) returns (mine': Tally)
    ensures Adjusted(mine, mine', IDLE, lane)
  {
    mine' := mine;
    if lane.monitor {
      mine' := mine'.(monitors := mine'.monitors + 1);
    }
    if lane.tracking {
      mine' := mine'.(trackers := mine'.trackers + 1);
    }
    if lane.mode != On {
      mine' := mine'.(reply := mine'.reply + 1);
    }
  }

  /** RESET and disconnect: out of MONITOR and TRACKING, and from a mode that is not `On` to `mode`. */
  method LeaveAll(lane: Lane, mode: Mode, mine: Tally, all: Tally, bit: bool)
    returns (lane': Lane, mine': Tally, all': Tally, bit': bool)
    requires lane.monitor ==> mine.monitors > 0 && all.monitors > 0
    requires lane.tracking ==> mine.trackers > 0 && all.trackers > 0
    requires lane.mode != On ==> mine.reply > 0 && all.reply > 0
    ensures lane' == IDLE.(mode := if lane.mode != On then mode else On)
    ensures Adjusted(mine, mine', lane, lane') && Adjusted(all, all', lane, lane')
    ensures mine'.monitors > 0 ==> bit' == bit
  {
    var quiet, mine1, all1, bit1 := StopMonitor(lane, mine, all, bit);
    var untracked, mine2, all2 := ForgetTracking(quiet, mine1, all1);
    AdjustedTwice(mine, mine1, mine2, lane, quiet, untracked);
    AdjustedTwice(all, all1, all2, lane, quiet, untracked);
    lane', mine', all', bit' := untracked, mine2, all2, bit1;
    if untracked.mode != On {
      lane', mine', all' := SetMode(untracked, mode, mine2, all2);
      AdjustedTwice(mine, mine2, mine', lane, untracked, lane');
      AdjustedTwice(all, all2, all', lane, untracked, lane');
    }
    lane' := lane'.(brokenRedirect := false);
  }

  // ---- the state of all threads ------------------------------------------------------------------------

  /** See the fields of `Threads`. */
  datatype State = State(conns: seq<Lanes>, local: seq<Tally>, armed: seq<bool>, monitorBit: seq<bool>, total: Tally,
                         owner: map<ClientId, nat>, moving: set<ClientId>, carried: Lanes, stale: set<nat>, torn: set<nat>)

  /** Every entry is with its connection: at the owner, or travelling, and never in two places. */
  ghost predicate Placed(count: nat, ids: nat, conns: seq<Lanes>, owner: map<ClientId, nat>, moving: set<ClientId>,
                         carried: Lanes) {
    && |conns| == count && moving <= owner.Keys && carried.Keys <= moving
    && (forall id :: id in owner ==> owner[id] < count && 0 <= id < ids)
    && (forall o, id :: 0 <= o < |conns| && id in conns[o] ==> id in owner && owner[id] == o && id !in moving)
  }

  /**
   * The cached bit is set wherever a mode is armed, unless the thread has received a connection since or
   * copied a word without the bit; and MONITOR lines are sent wherever one listens.
   */
  ghost predicate Marked(count: nat, local: seq<Tally>, armed: seq<bool>, monitorBit: seq<bool>, stale: set<nat>,
                         torn: set<nat>) {
    && |local| == count && |armed| == count && |monitorBit| == count
    && (forall o :: 0 <= o < count && local[o].reply > 0 ==> armed[o] || o in stale || o in torn)
    && (forall o :: 0 <= o < count && local[o].monitors > 0 ==> monitorBit[o])
  }

  ghost predicate Sound(count: nat, ids: nat, s: State) {
    && Placed(count, ids, s.conns, s.owner, s.moving, s.carried)
    && Counted(ids, s.conns, s.local, s.carried, s.total)
    && Marked(count, s.local, s.armed, s.monitorBit, s.stale, s.torn)
  }

  /** Thread `o` owns connection `id` and may act on it. */
  predicate OwnsIn(count: nat, owner: map<ClientId, nat>, moving: set<ClientId>, o: nat, id: ClientId) {
    o < count && id in owner && owner[id] == o && id !in moving
  }

  /** The threads that copied a word without the bit, after thread `o` has copied `word`. */
  function Copied(torn: set<nat>, o: nat, word: bool, total: Tally): set<nat> {
    if total.reply != 0 && !word then torn + {o} else torn - {o}
  }

  lemma MarkedAfter(count: nat, local: seq<Tally>, armed: seq<bool>, monitorBit: seq<bool>, stale: set<nat>,
                    torn: set<nat>, o: nat, mine: Tally, bit: bool, word: bool, all: Tally)
    requires Marked(count, local, armed, monitorBit, stale, torn) && o < count
    requires (mine.monitors > 0 ==> bit) && mine.reply <= all.reply
    ensures Marked(count, local[o := mine], armed[o := word], monitorBit[o := bit], stale - {o}, Copied(torn, o, word, all))
  {
  }

  lemma PlacedAfter(count: nat, ids: nat, conns: seq<Lanes>, owner: map<ClientId, nat>, moving: set<ClientId>,
                    carried: Lanes, o: nat, id: ClientId, lanes: Lanes)
    requires Placed(count, ids, conns, owner, moving, carried) && OwnsIn(count, owner, moving, o, id)
    requires lanes.Keys <= conns[o].Keys + {id}
    ensures Placed(count, ids, conns[o := lanes], owner, moving, carried)
  {
  }

  /** The server's counter covers every thread's. */
  lemma TotalCovers(ids: nat, conns: seq<Lanes>, local: seq<Tally>, carried: Lanes, total: Tally, o: nat)
    requires Counted(ids, conns, local, carried, total) && o < |conns|
    ensures local[o].reply <= total.reply
  {
    PartOfAll(ids, conns, o);
  }

  /** The state after writing one entry and both counters back and copying the server's word. */
  function Written(s: State, o: nat, id: ClientId, lane: Lane, mine: Tally, all: Tally, bit: bool, word: bool): State
    requires o < |s.conns| == |s.local| == |s.armed| == |s.monitorBit|
  {
    s.(conns := s.conns[o := Store(s.conns[o], id, lane)], local := s.local[o := mine], total := all,
       monitorBit := s.monitorBit[o := bit], armed := s.armed[o := word], stale := s.stale - {o},
       torn := Copied(s.torn, o, word, all))
  }

  lemma WrittenSound(count: nat, ids: nat, s: State, o: nat, id: ClientId, lane: Lane, mine: Tally, all: Tally, bit: bool,
                     word: bool)
    requires Sound(count, ids, s) && OwnsIn(count, s.owner, s.moving, o, id)
    requires Adjusted(s.local[o], mine, LaneOf(s.conns[o], id), lane)
    requires Adjusted(s.total, all, LaneOf(s.conns[o], id), lane)
    requires mine.monitors > 0 ==> bit
    ensures Sound(count, ids, Written(s, o, id, lane, mine, all, bit, word))
  {
    var lanes := Store(s.conns[o], id, lane);
    Recount(ids, s.conns, s.local, s.carried, s.total, o, id, lanes, mine, all);
    TotalCovers(ids, s.conns[o := lanes], s.local[o := mine], s.carried, all, o);
    MarkedAfter(count, s.local, s.armed, s.monitorBit, s.stale, s.torn, o, mine, bit, word, all);
    PlacedAfter(count, ids, s.conns, s.owner, s.moving, s.carried, o, id, lanes);
  }

  /** Writing an entry that weighs the same changes no counter. */
  lemma RewrittenSound(count: nat, ids: nat, s: State, o: nat, id: ClientId, lane: Lane)
    requires Sound(count, ids, s) && OwnsIn(count, s.owner, s.moving, o, id)
    requires Weight(lane) == Weight(LaneOf(s.conns[o], id))
    ensures Sound(count, ids, s.(conns := s.conns[o := s.conns[o][id := lane]]))
  {
    Recount(ids, s.conns, s.local, s.carried, s.total, o, id, s.conns[o][id := lane], s.local[o], s.total);
    assert s.local[o := s.local[o]] == s.local;
    PlacedAfter(count, ids, s.conns, s.owner, s.moving, s.carried, o, id, s.conns[o][id := lane]);
  }

  lemma ForgottenSound(count: nat, ids: nat, s: State, o: nat, id: ClientId)
    requires Sound(count, ids, s) && OwnsIn(count, s.owner, s.moving, o, id) && id !in s.conns[o]
    ensures Sound(count, ids, s.(owner := s.owner - {id}))
  {
  }

  /** The state after thread `o` gives connection `id` to thread `destination`. */
  function Extracted(s: State, o: nat, id: ClientId, destination: nat, mine: Tally, load: Lanes, bit: bool): State
    requires o < |s.conns| == |s.local| == |s.monitorBit|
  {
    s.(conns := s.conns[o := s.conns[o] - {id}], local := s.local[o := mine], carried := load,
       moving := s.moving + {id}, owner := s.owner[id := destination], monitorBit := s.monitorBit[o := bit])
  }

  lemma ExtractedPlaced(count: nat, ids: nat, s: State, o: nat, id: ClientId, destination: nat, load: Lanes)
    requires Placed(count, ids, s.conns, s.owner, s.moving, s.carried) && OwnsIn(count, s.owner, s.moving, o, id)
    requires destination < count && load.Keys <= s.carried.Keys + {id}
    ensures Placed(count, ids, s.conns[o := s.conns[o] - {id}], s.owner[id := destination], s.moving + {id}, load)
  {
  }

  lemma ExtractedCounted(ids: nat, s: State, o: nat, id: ClientId, mine: Tally)
    requires Counted(ids, s.conns, s.local, s.carried, s.total) && o < |s.conns| && 0 <= id < ids
    requires id in s.conns[o] && id !in s.carried
    requires Adjusted(s.local[o], mine, s.conns[o][id], IDLE)
    ensures Counted(ids, s.conns[o := s.conns[o] - {id}], s.local[o := mine], s.carried[id := s.conns[o][id]], s.total)
  {
    TallyStored(ids, s.conns[o], s.conns[o] - {id}, id);
    TallyStored(ids, s.carried, s.carried[id := s.conns[o][id]], id);
    RecountTransfer(ids, s.conns, s.local, s.carried, s.total, o, s.conns[o] - {id}, mine, s.carried[id := s.conns[o][id]]);
  }

  lemma ExtractedSound(count: nat, ids: nat, s: State, o: nat, id: ClientId, destination: nat, mine: Tally, bit: bool)
    requires Sound(count, ids, s) && OwnsIn(count, s.owner, s.moving, o, id) && destination < count
    requires id in s.conns[o] && Adjusted(s.local[o], mine, s.conns[o][id], IDLE)
    requires mine.monitors > 0 ==> bit
    ensures Sound(count, ids, Extracted(s, o, id, destination, mine, s.carried[id := s.conns[o][id]], bit))
  {
    ExtractedPlaced(count, ids, s, o, id, destination, s.carried[id := s.conns[o][id]]);
    ExtractedCounted(ids, s, o, id, mine);
  }

  /** A connection without an entry takes nothing with it. */
  lemma ExtractedBare(count: nat, ids: nat, s: State, o: nat, id: ClientId, destination: nat, bit: bool)
    requires Sound(count, ids, s) && OwnsIn(count, s.owner, s.moving, o, id) && destination < count
    requires id !in s.conns[o] && (s.local[o].monitors > 0 ==> bit)
    ensures Sound(count, ids, Extracted(s, o, id, destination, s.local[o], s.carried, bit))
  {
    ExtractedPlaced(count, ids, s, o, id, destination, s.carried);
    assert s.conns[o] - {id} == s.conns[o];
    assert s.conns[o := s.conns[o]] == s.conns && s.local[o := s.local[o]] == s.local;
  }

  lemma ExtractSound(count: nat, ids: nat, s: State, o: nat, id: ClientId, destination: nat, mine: Tally, load: Lanes, bit: bool)
    requires Sound(count, ids, s) && OwnsIn(count, s.owner, s.moving, o, id) && destination < count
    requires mine.monitors > 0 ==> bit
    requires if id in s.conns[o] then load == s.carried[id := s.conns[o][id]] && Adjusted(s.local[o], mine, s.conns[o][id], IDLE)
             else load == s.carried && mine == s.local[o]
    ensures Sound(count, ids, Extracted(s, o, id, destination, mine, load, bit))
  {
    if id in s.conns[o] {
      ExtractedSound(count, ids, s, o, id, destination, mine, bit);
    } else {
      ExtractedBare(count, ids, s, o, id, destination, bit);
    }
  }

  /** The state after the owner receives connection `id`. */
  function Installed(s: State, o: nat, id: ClientId, lanes: Lanes, mine: Tally, bit: bool): State
    requires o < |s.conns| == |s.local| == |s.monitorBit|
  {
    s.(conns := s.conns[o := lanes], local := s.local[o := mine], carried := s.carried - {id},
       moving := s.moving - {id}, monitorBit := s.monitorBit[o := bit], stale := s.stale + {o})
  }

  lemma InstalledPlaced(count: nat, ids: nat, s: State, o: nat, id: ClientId, lanes: Lanes)
    requires Placed(count, ids, s.conns, s.owner, s.moving, s.carried) && id in s.moving && s.owner[id] == o
    requires lanes.Keys <= s.conns[o].Keys + {id}
    ensures Placed(count, ids, s.conns[o := lanes], s.owner, s.moving - {id}, s.carried - {id})
  {
  }

  lemma InstalledCounted(ids: nat, s: State, o: nat, id: ClientId, mine: Tally)
    requires Counted(ids, s.conns, s.local, s.carried, s.total) && o < |s.conns| && 0 <= id < ids
    requires id !in s.conns[o] && id in s.carried
    requires Adjusted(s.local[o], mine, IDLE, s.carried[id])
    ensures Counted(ids, s.conns[o := s.conns[o][id := s.carried[id]]], s.local[o := mine], s.carried - {id}, s.total)
  {
    TallyStored(ids, s.conns[o], s.conns[o][id := s.carried[id]], id);
    TallyStored(ids, s.carried, s.carried - {id}, id);
    RecountTransfer(ids, s.conns, s.local, s.carried, s.total, o, s.conns[o][id := s.carried[id]], mine, s.carried - {id});
  }

  lemma InstalledSound(count: nat, ids: nat, s: State, o: nat, id: ClientId, mine: Tally, bit: bool)
    requires Sound(count, ids, s) && id in s.moving && s.owner[id] == o
    requires id in s.carried && Adjusted(s.local[o], mine, IDLE, s.carried[id]) && (mine.monitors > 0 ==> bit)
    ensures id !in s.conns[o]
    ensures Sound(count, ids, Installed(s, o, id, s.conns[o][id := s.carried[id]], mine, bit))
  {
    InstalledPlaced(count, ids, s, o, id, s.conns[o][id := s.carried[id]]);
    InstalledCounted(ids, s, o, id, mine);
  }

  lemma InstalledBare(count: nat, ids: nat, s: State, o: nat, id: ClientId, bit: bool)
    requires Sound(count, ids, s) && id in s.moving && s.owner[id] == o
    requires id !in s.carried && (s.local[o].monitors > 0 ==> bit)
    ensures Sound(count, ids, Installed(s, o, id, s.conns[o], s.local[o], bit))
  {
    InstalledPlaced(count, ids, s, o, id, s.conns[o]);
    assert s.carried - {id} == s.carried;
    assert s.conns[o := s.conns[o]] == s.conns && s.local[o := s.local[o]] == s.local;
  }

  lemma InstallSound(count: nat, ids: nat, s: State, o: nat, id: ClientId, lanes: Lanes, mine: Tally, bit: bool)
    requires Sound(count, ids, s) && id in s.moving && s.owner[id] == o && (mine.monitors > 0 ==> bit)
    requires if id in s.carried then lanes == s.conns[o][id := s.carried[id]] && Adjusted(s.local[o], mine, IDLE, s.carried[id])
             else lanes == s.conns[o] && mine == s.local[o]
    ensures Sound(count, ids, Installed(s, o, id, lanes, mine, bit))
  {
    if id in s.carried {
      InstalledSound(count, ids, s, o, id, mine, bit);
    } else {
      InstalledBare(count, ids, s, o, id, bit);
    }
  }

  // ---- the threads -----------------------------------------------------------------------------------

  class Threads {
    const count: nat
    const ids: nat
    /** climon_conn_ of each thread. */
    var conns: seq<Lanes>
    /** climon_local_monitors_, climon_local_trackers_ and climon_local_reply_ of each thread. */
    var local: seq<Tally>
    /** The "some reply mode is armed" bit of the server's word, and each thread's cached copy of it. */
    var word: bool
    var armed: seq<bool>
    /** Publications under way: the reply counter has been read as zero or not, the word not yet stored. */
    var readings: seq<bool>
    /** Each thread's bit in the mask of threads that are sent MONITOR lines. */
    var monitorBit: seq<bool>
    /** The server-wide counters. */
    var total: Tally
    /** Which thread owns each open connection. */
    var owner: map<ClientId, nat>
    /** Connections between two threads, and the entries that travel with them. */
    var moving: set<ClientId>
    var carried: Lanes
    /** Threads that received a connection since they last copied the word. */
    ghost var stale: set<nat>
    /** Threads that last copied the word while it missed the bit. */
    ghost var torn: set<nat>
    /** Whether a reading has been stored since a counter last changed. */
    ghost var overwritten: bool

    ghost function View(): State
      reads this
    {
      State(conns, local, armed, monitorBit, total, owner, moving, carried, stale, torn)
    }

    ghost predicate Valid()
      reads this
    {
      Sound(count, ids, View()) && (word == (total.reply != 0) || overwritten)
    }

    /** Thread `o` owns connection `id` and may act on it. */
    ghost predicate Owns(o: nat, id: ClientId)
      reads this
    {
      OwnsIn(count, owner, moving, o, id)
    }

    constructor (threads: nat, bound: nat)
      ensures Valid() && count == threads && ids == bound && owner == map[] && total == Tally(0, 0, 0)
      ensures moving == {} && carried == map[] && stale == {} && torn == {} && !word && readings == [] && !overwritten
      ensures forall o :: 0 <= o < count ==> conns[o] == map[] && !armed[o]
    {
      count, ids := threads, bound;
      conns := seq(threads, _ => map[]);
      local := seq(threads, _ => Tally(0, 0, 0));
      armed := seq(threads, _ => false);
      monitorBit := seq(threads, _ => false);
      total := Tally(0, 0, 0);
      owner, moving, carried, stale, torn := map[], {}, map[], {}, {};
      word, readings, overwritten := false, [], false;
      new;
      NoneYet(ids);
      NoneAnywhere(ids, conns);
    }

    static lemma {:induction false} NoneYet(ids: nat)
      ensures TallyOf(ids, map[]) == Tally(0, 0, 0)
    {
      if ids != 0 {
        NoneYet(ids - 1);
      }
    }

    static lemma {:induction false} NoneAnywhere(ids: nat, conns: seq<Lanes>)
      requires forall o :: 0 <= o < |conns| ==> conns[o] == map[]
      ensures TallyOfAll(ids, conns) == Tally(0, 0, 0)
    {
      if conns != [] {
        NoneAnywhere(ids, conns[..|conns| - 1]);
        NoneYet(ids);
      }
    }

    /** A connection is accepted by thread `o`. */
    method Track(o: nat, id: ClientId)
      requires Valid() && o < count && 0 <= id < ids && id !in owner
      modifies `owner
      ensures Valid() && owner == old(owner)[id := o]
    {
      owner := owner[id := o];
    }

    /** Server::refresh_climon_armed, on any thread, for MONITOR, TRACKING, REPLY or PAUSE: the counter is read. */
    method BeginPublish()
      requires Valid()
      modifies `readings
      ensures Valid() && readings == old(readings) + [total.reply != 0]
    {
      readings := readings + [total.reply != 0];
    }

    /** And the word is stored, whatever has happened since. */
    method EndPublish(i: nat)
      requires Valid() && i < |readings|
      modifies `readings, `word, `overwritten
      ensures Valid() && readings == old(readings)[..i] + old(readings)[i + 1..]
      ensures word == old(readings)[i] && overwritten
    {
      word, readings, overwritten := readings[i], readings[..i] + readings[i + 1..], true;
    }

    /** climon_refresh_armed: copies the server's word, at the top of a batch or at the end of a handler. */
    method Refresh(o: nat)
      requires Valid() && o < count
      modifies `armed, `stale, `torn
      ensures Valid() && armed == old(armed)[o := word] && stale == old(stale) - {o}
      ensures torn == Copied(old(torn), o, word, total) && (o in torn ==> overwritten)
    {
      TotalCovers(ids, conns, local, carried, total, o);
      armed, stale, torn := armed[o := word], stale - {o}, Copied(torn, o, word, total);
    }

    /**
     * Writes an entry and both counters back, publishes if a counter changed, and copies the word. When
     * another store comes between these, `EndPublish` and a second `Refresh` follow; when this thread's own
     * store is late, `BeginPublish` stands before the write and `EndPublish` after it.
     */
    method Write(o: nat, id: ClientId, lane: Lane, mine: Tally, all: Tally, bit: bool)
      requires Valid() && Owns(o, id)
      requires Adjusted(local[o], mine, LaneOf(conns[o], id), lane)
      requires Adjusted(total, all, LaneOf(conns[o], id), lane)
      requires mine.monitors > 0 ==> bit
      modifies `conns, `local, `total, `armed, `stale, `torn, `monitorBit, `word, `overwritten
      ensures Valid() && conns == old(conns)[o := Store(old(conns)[o], id, lane)] && total == all
      ensures word == (if all != old(total) then all.reply != 0 else old(word)) && armed == old(armed)[o := word]
      ensures stale == old(stale) - {o} && torn == Copied(old(torn), o, word, all)
    {
      var published := if all != total then all.reply != 0 else word;
      WrittenSound(count, ids, View(), o, id, lane, mine, all, bit, published);
      overwritten := overwritten && all == total;
      word := published;
      Assign(conns[o := Store(conns[o], id, lane)], local[o := mine], all, armed[o := published], monitorBit[o := bit],
             stale - {o}, Copied(torn, o, published, all));
    }

    method Assign(lanes: seq<Lanes>, tallies: seq<Tally>, all: Tally, copies: seq<bool>, bits: seq<bool>,
                  ghost unrefreshed: set<nat>, ghost missing: set<nat>)
      requires Sound(count, ids, State(lanes, tallies, copies, bits, all, owner, moving, carried, unrefreshed, missing))
      modifies `conns, `local, `total, `armed, `stale, `torn, `monitorBit
      ensures Sound(count, ids, View()) && conns == lanes && total == all && armed == copies
      ensures stale == unrefreshed && torn == missing
    {
      conns, local, total, armed, monitorBit := lanes, tallies, all, copies, bits;
      stale, torn := unrefreshed, missing;
      assert View() == State(lanes, tallies, copies, bits, all, owner, moving, carried, unrefreshed, missing);
    }

    method StartMonitor(o: nat, id: ClientId)
      requires Valid() && Owns(o, id)
      modifies `conns, `local, `total, `armed, `stale, `torn, `monitorBit, `word, `overwritten
      ensures Valid()
      ensures conns == old(conns)[o := Store(old(conns)[o], id, LaneOf(old(conns)[o], id).(monitor := true))]
    {
      var lane := LaneOf(conns[o], id);
      if lane.monitor {
        assert Store(conns[o], id, lane) == conns[o];
        return;
      }
      var mine := local[o].(monitors := local[o].monitors + 1);
      var all := total.(monitors := total.monitors + 1);
      Write(o, id, lane.(monitor := true), mine, all, true);
    }

    method StartTracking(o: nat, id: ClientId)
      requires Valid() && Owns(o, id)
      modifies `conns, `local, `total, `armed, `stale, `torn, `monitorBit, `word, `overwritten
      ensures Valid()
      ensures conns == old(conns)[o := Store(old(conns)[o], id,
                                             LaneOf(old(conns)[o], id).(tracking := true, brokenRedirect := false))]
    {
      var lane := LaneOf(conns[o], id);
      var mine, all := local[o], total;
      if !lane.tracking {
        mine := mine.(trackers := mine.trackers + 1);
        all := all.(trackers := all.trackers + 1);
      }
      Write(o, id, lane.(tracking := true, brokenRedirect := false), mine, all, monitorBit[o]);
    }

    method StopTracking(o: nat, id: ClientId)
      requires Valid() && Owns(o, id) && id in conns[o]
      modifies `conns, `local, `total, `armed, `stale, `torn, `monitorBit, `word, `overwritten
      ensures Valid()
      ensures conns == old(conns)[o := Store(old(conns)[o], id,
                                             LaneOf(old(conns)[o], id).(tracking := false, brokenRedirect := false))]
    {
      NoUnderflow(ids, conns, local, carried, total, o, id);
      var lane, mine, all := ForgetTracking(conns[o][id], local[o], total);
      Write(o, id, lane.(brokenRedirect := false), mine, all, monitorBit[o]);
    }

    /** CLIENT REPLY ON, OFF or SKIP, after the gate, with `inFlight` older commands unretired. */
    method ReplyCommand(o: nat, id: ClientId, cmd: Command, inFlight: nat)
      requires Valid() && Owns(o, id) && cmd in {ReplyOn, ReplyOff, ReplySkip}
      modifies `conns, `local, `total, `armed, `stale, `torn, `monitorBit, `word, `overwritten
      ensures Valid() && stale == old(stale) - {o}
      ensures var lane := LaneOf(old(conns)[o], id);
        var mode := AfterHandler(cmd, lane.mode, inFlight);
        && conns == old(conns)[o := Store(old(conns)[o], id, lane.(mode := mode))]
        && word == if (lane.mode == On) != (mode == On) then total.reply != 0 else old(word)
      ensures armed == old(armed)[o := word] && torn == Copied(old(torn), o, word, total)
    {
      NoUnderflow(ids, conns, local, carried, total, o, id);
      var lane := LaneOf(conns[o], id);
      var mode := lane.mode;
      if cmd == ReplyOn {
        mode := if lane.mode != On && inFlight != 0 then SkipNow else On;
      } else if cmd == ReplyOff {
        mode := Off;
      } else if lane.mode != Off {
        mode := SkipNext;
      }
      var lane', mine, all := SetMode(lane, mode, local[o], total);
      Write(o, id, lane', mine, all, monitorBit[o]);
    }

    /** CLIENT REPLY with an unknown word creates the entry and leaves it behind, idle or not. */
    method ReplySyntaxError(o: nat, id: ClientId)
      requires Valid() && Owns(o, id)
      modifies `conns
      ensures Valid() && conns == old(conns)[o := old(conns)[o][id := LaneOf(old(conns)[o], id)]]
    {
      var lane := LaneOf(conns[o], id);
      RewrittenSound(count, ids, View(), o, id, lane);
      conns := conns[o := conns[o][id := lane]];
    }

    /** RESET, with `inFlight` older commands unretired. */
    method ResetClient(o: nat, id: ClientId, inFlight: nat)
      requires Valid() && Owns(o, id)
      modifies `conns, `local, `total, `armed, `stale, `torn, `monitorBit, `word, `overwritten
      ensures Valid()
      ensures var lane := LaneOf(old(conns)[o], id);
        conns == old(conns)[o := Store(old(conns)[o], id, IDLE.(mode := AfterHandler(Reset, lane.mode, inFlight)))]
    {
      if id !in conns[o] {
        assert conns[o] - {id} == conns[o];
        return;
      }
      NoUnderflow(ids, conns, local, carried, total, o, id);
      var lane, mine, all, bit :=
        LeaveAll(conns[o][id], if inFlight != 0 then SkipNow else On, local[o], total, monitorBit[o]);
      Write(o, id, lane, mine, all, bit);
    }

    /**
     * The gate in front of every command: whether it is marked. It is the automaton's gate exactly
     * while the cached bit is set or there is nothing to mark; only a thread that has received a
     * connection since it last copied the word, or copied it without the bit, can miss a mark.
     */
    method MarkReply(o: nat, id: ClientId) returns (skip: bool)
      requires Valid() && Owns(o, id)
      modifies `conns
      ensures Valid()
      ensures var lane := LaneOf(old(conns)[o], id);
        && skip == (armed[o] && Marks(lane.mode))
        && conns == (if armed[o] && lane.mode == SkipNext
                     then old(conns)[o := old(conns)[o][id := lane.(mode := SkipNow)]] else old(conns))
        && (lane.mode != On && !armed[o] ==> o in stale || o in torn)
    {
      skip := false;
      NoUnderflow(ids, conns, local, carried, total, o, id);
      if armed[o] && id in conns[o] {
        if conns[o][id].mode == Off {
          skip := true;
        } else if conns[o][id].mode == SkipNext {
          skip := true;
          RewrittenSound(count, ids, View(), o, id, conns[o][id].(mode := SkipNow));
          conns := conns[o := conns[o][id := conns[o][id].(mode := SkipNow)]];
        }
      }
    }

    /** Which sender drains the connection: the counter only spares a lookup, the cached bit decides. */
    method ReplySuppressed(o: nat, id: ClientId) returns (suppressed: bool)
      requires Valid() && Owns(o, id)
      ensures suppressed == (armed[o] && LaneOf(conns[o], id).mode != On)
      ensures LaneOf(conns[o], id).mode != On && !armed[o] ==> o in stale || o in torn
    {
      NoUnderflow(ids, conns, local, carried, total, o, id);
      suppressed := armed[o] && local[o].reply != 0 && id in conns[o] && conns[o][id].mode != On;
    }

    /** The end of a suppressing drain. */
    method FinishDrain(o: nat, id: ClientId, quiesced: bool)
      requires Valid() && Owns(o, id)
      modifies `conns, `local, `total, `armed, `stale, `torn, `monitorBit, `word, `overwritten
      ensures Valid()
      ensures var lane := LaneOf(old(conns)[o], id);
        conns == if lane.mode == SkipNow && quiesced
                 then old(conns)[o := Store(old(conns)[o], id, lane.(mode := On))] else old(conns)
    {
      if id in conns[o] && conns[o][id].mode == SkipNow && quiesced {
        NoUnderflow(ids, conns, local, carried, total, o, id);
        var lane, mine, all := SetMode(conns[o][id], On, local[o], total);
        Write(o, id, lane, mine, all, monitorBit[o]);
      }
    }

    /** The connection is closed: no trace of it is left. */
    method Untrack(o: nat, id: ClientId)
      requires Valid() && Owns(o, id)
      modifies `conns, `local, `total, `armed, `stale, `torn, `monitorBit, `word, `overwritten, `owner
      ensures Valid() && owner == old(owner) - {id} && conns == old(conns)[o := old(conns)[o] - {id}]
    {
      if id in conns[o] {
        NoUnderflow(ids, conns, local, carried, total, o, id);
        var lane, mine, all, bit := LeaveAll(conns[o][id], On, local[o], total, monitorBit[o]);
        Write(o, id, lane, mine, all, bit);
      } else {
        assert conns[o] - {id} == conns[o];
      }
      ForgottenSound(count, ids, View(), o, id);
      owner := owner - {id};
    }

    /** Replaces the parts of the state that a transfer touches. */
    method Replace(lanes: seq<Lanes>, tallies: seq<Tally>, bits: seq<bool>, load: Lanes, transfers: set<ClientId>,
                   owners: map<ClientId, nat>, ghost unrefreshed: set<nat>)
      requires Sound(count, ids, State(lanes, tallies, armed, bits, total, owners, transfers, load, unrefreshed, torn))
      requires word == (total.reply != 0) || overwritten
      modifies `conns, `local, `monitorBit, `carried, `moving, `owner, `stale
      ensures Valid() && conns == lanes
      ensures carried == load && moving == transfers && owner == owners && stale == unrefreshed
    {
      conns, local, monitorBit := lanes, tallies, bits;
      carried, moving, owner, stale := load, transfers, owners, unrefreshed;
      assert View() == State(lanes, tallies, armed, bits, total, owners, transfers, load, unrefreshed, torn);
    }

    /** The last action of the thread that gives the connection away. */
    method CommitExtract(o: nat, id: ClientId, destination: nat, forwards: bool)
      requires Valid() && Owns(o, id) && destination < count
      modifies `conns, `local, `carried, `moving, `owner, `monitorBit, `stale
      ensures Valid() && moving == old(moving) + {id} && owner == old(owner)[id := destination] && stale == old(stale)
      ensures conns == old(conns)[o := old(conns)[o] - {id}]
      ensures carried == if id in old(conns)[o] then old(carried)[id := old(conns)[o][id]] else old(carried)
    {
      var mine, load := local[o], carried;
      if id in conns[o] {
        NoUnderflow(ids, conns, local, carried, total, o, id);
        mine := TakeOff(conns[o][id], mine);
        load := carried[id := conns[o][id]];
      }
      var bit := mine.monitors != 0 || forwards;
      ExtractSound(count, ids, View(), o, id, destination, mine, load, bit);
      Replace(conns[o := conns[o] - {id}], local[o := mine], monitorBit[o := bit], load, moving + {id}, owner[id := destination], stale);
    }

    /** The first action of the thread that receives it. The insertion cannot find the id taken. */
    method Install(id: ClientId, forwards: bool) returns (inserted: bool)
      requires Valid() && id in moving
      modifies `conns, `local, `carried, `moving, `owner, `monitorBit, `stale
      ensures Valid() && inserted && moving == old(moving) - {id} && owner == old(owner) && Owns(owner[id], id)
      ensures carried == old(carried) - {id}
      ensures var o := owner[id];
        conns == old(conns)[o := if id in old(carried) then old(conns)[o][id := old(carried)[id]] else old(conns)[o]]
    {
      var o := owner[id];
      var mine, lanes := local[o], conns[o];
      inserted := true;
      if id in carried {
        inserted := id !in lanes;
        if !inserted {
          return;
        }
        lanes := lanes[id := carried[id]];
        mine := PutOn(carried[id], mine);
      }
      var bit := mine.monitors != 0 || forwards;
      InstallSound(count, ids, View(), o, id, lanes, mine, bit);
      Replace(conns[o := lanes], local[o := mine], monitorBit[o := bit], carried - {id}, moving - {id}, owner, stale + {o});
    }
  }

  // ---- a mark that is missed ---------------------------------------------------------------------------

  /** A connection of thread 0 is switched off; thread 1 has not looked at the server's bit since. */
  method MuteOne() returns (t: Threads)
    ensures fresh(t) && t.Valid() && t.count == 2 && t.Owns(0, 0) && t.moving == {} && t.carried == map[]
    ensures t.conns[0] == map[0 := IDLE.(mode := Off)] && t.conns[1] == map[] && !t.armed[1]
  {
    t := new Threads(2, 1);
    t.Track(0, 0);
    t.ReplyCommand(0, 0, ReplyOff, 0);
    assert t.conns[0] == map[0 := IDLE.(mode := Off)];
  }

  /** The connection moves to thread 1, which parses and drains it before its next batch: nothing is suppressed. */
  method MoveUnmarked() returns (t: Threads, skip: bool, suppressed: bool)
    ensures fresh(t) && t.Valid() && t.Owns(1, 0) && LaneOf(t.conns[1], 0).mode == Off
    ensures !skip && !suppressed
  {
    t := MuteOne();
    t.CommitExtract(0, 0, 1, false);
    var inserted := t.Install(0, false);
    skip := t.MarkReply(1, 0);
    suppressed := t.ReplySuppressed(1, 0);
  }

  // ---- a bit that is overwritten ------------------------------------------------------------------------

  /** A publication has read the counter as zero. */
  method PublishBegun() returns (t: Threads)
    ensures fresh(t) && t.Valid() && t.count == 2 && t.Owns(1, 0) && t.readings == [false] && t.stale == {}
    ensures t.conns[1] == map[]
  {
    t := new Threads(2, 1);
    t.Track(1, 0);
    t.BeginPublish();
  }

  /** It is still under way when thread 1 switches a connection off. */
  method MuteDuringPublish() returns (t: Threads)
    ensures fresh(t) && t.Valid() && t.count == 2 && t.Owns(1, 0) && t.readings == [false] && t.stale == {}
    ensures t.conns[1] == map[0 := IDLE.(mode := Off)]
  {
    t := PublishBegun();
    t.ReplyCommand(1, 0, ReplyOff, 0);
    assert t.conns[1] == map[0 := IDLE.(mode := Off)];
  }

  /** The publication ends and thread 1 starts its next batch: nothing is suppressed, though nothing moved. */
  method OverwriteUnmarked() returns (t: Threads, skip: bool, suppressed: bool)
    ensures fresh(t) && t.Valid() && t.Owns(1, 0) && LaneOf(t.conns[1], 0).mode == Off && t.stale == {}
    ensures !skip && !suppressed
  {
    t := MuteDuringPublish();
    t.EndPublish(0);
    t.Refresh(1);
    skip := t.MarkReply(1, 0);
    suppressed := t.ReplySuppressed(1, 0);
  }
}
