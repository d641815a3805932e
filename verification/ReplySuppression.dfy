/** CLIENT REPLY ON, OFF and SKIP on one connection. */
module ReplySuppression {
  // Replies leave in program order, long after the command that chose the mode ran. Each published
  // command therefore carries its own suppression mark, set when it is parsed, and the sender looks
  // at marks only while the connection's mode is not `On`. Both tests are skipped while the owning
  // thread's cached copy of the lane word does not cover the connection. The model runs parsing,
  // completion, draining and moves between threads in any order and compares the wire with the
  // mode-switching automaton of the protocol.

  import opened Options

  datatype Mode = On | Off | SkipNext | SkipNow

  /** What a frame asks for, as far as the reply mode is concerned. */
  datatype Command = ReplyOn | ReplyOff | ReplySkip | Reset | Plain

  /** A published command. `silent` commands produce no bytes of their own. */
  datatype Op = Op(id: nat, skip: bool, silent: bool, done: bool)

  const CAPACITY: nat := 64

  /**
   * One connection: its mode, whether the owner's cached word covers it, the next command id, the
   * reorder buffer and the replies sent.
   */
  datatype Stream = Stream(mode: Mode, covered: bool, next: nat, rob: seq<Op>, wire: seq<nat>)

  const START := Stream(On, true, 0, [], [])

  // ---- what the code does ------------------------------------------------------------------------

  /** The armed gate: whether the parsed command is marked, and the mode it leaves behind. */
  function Marks(mode: Mode): bool { mode == Off || mode == SkipNext }

  function AfterGate(mode: Mode): Mode { if mode == SkipNext then SkipNow else mode }

  predicate AlwaysAnswers(cmd: Command) { cmd == ReplyOn || cmd == Reset }

  predicate SaysNothing(cmd: Command) { cmd == ReplyOff || cmd == ReplySkip }

  /** What a parsed command does to the mode: nothing while the owner's word is behind. */
  function Gated(s: Stream): Mode { if s.covered then AfterGate(s.mode) else s.mode }

  predicate Marking(s: Stream) { s.covered && Marks(s.mode) }

  /** The sender that looks at marks. */
  predicate Suppressing(s: Stream) { s.covered && s.mode != On }

  /** The command handler, run after the gate and before the command is published. */
  function AfterHandler(cmd: Command, mode: Mode, inFlight: nat): Mode {
    match cmd
    case ReplyOn => if mode != On && inFlight != 0 then SkipNow else On
    case ReplyOff => Off
    case ReplySkip => if mode != Off then SkipNext else Off
    case Reset => if mode != On && inFlight != 0 then SkipNow else On
    case Plain => mode
  }

  /**
   * Every command but a plain one refreshes the owner's word; if that copy misses the bit, a `Refresh`
   * that loses it follows. (A RESET that finds nothing to switch off copies nothing, but then the mode
   * is `On` and there is nothing to cover.)
   */
  function Publish(s: Stream, cmd: Command): Stream {
    var op := Op(s.next, Marking(s) && !AlwaysAnswers(cmd), SaysNothing(cmd), false);
    Stream(AfterHandler(cmd, Gated(s), |s.rob|), s.covered || cmd != Plain, s.next + 1, s.rob + [op], s.wire)
  }

  function DonePrefix(rob: seq<Op>): (n: nat)
    ensures n <= |rob|
    ensures forall i :: 0 <= i < n ==> rob[i].done
    ensures n < |rob| ==> !rob[n].done
  {
    if rob == [] || !rob[0].done then 0 else 1 + DonePrefix(rob[1..])
  }

  /** The ids a drain sends. Only the suppressing variant looks at the marks. */
  function Emitted(ops: seq<Op>, suppressing: bool): seq<nat> {
    if ops == [] then []
    else
      var op := ops[|ops| - 1];
      Emitted(ops[..|ops| - 1], suppressing) + (if op.silent || (suppressing && op.skip) then [] else [op.id])
  }

  function AfterDrain(mode: Mode, quiesced: bool): Mode {
    if mode == SkipNow && quiesced then On else mode
  }

  function Drain(s: Stream): Stream {
    var n := DonePrefix(s.rob);
    Stream(if s.covered then AfterDrain(s.mode, n == |s.rob|) else s.mode, s.covered, s.next, s.rob[n..],
           s.wire + Emitted(s.rob[..n], Suppressing(s)))
  }

  /**
   * One step of the connection. `Abandon` is a frame that passed the gate and was then left in the
   * input to be parsed again: a full executor queue, a blocking command behind older commands, an
   * ordered local command, a paused dispatcher. `Move` hands the idle connection to another thread,
   * whose cached word may be `behind`. `Refresh` copies the server's word, at the top of a batch or at
   * the end of any handler; the bit is `lost` if a publication that began earlier has overwritten it.
   */
  datatype Event = Parse(cmd: Command) | Abandon | Complete(at: nat) | Serve | Move(behind: bool) | Refresh(lost: bool)

  predicate Enabled(s: Stream, e: Event) {
    match e
    case Parse(_) => |s.rob| < CAPACITY
    case Abandon => |s.rob| < CAPACITY
    case Complete(at) => at < |s.rob|
    case Serve => true
    case Move(_) => s.rob == []
    case Refresh(_) => true
  }

  function Next(s: Stream, e: Event): Stream
    requires Enabled(s, e)
  {
    match e
    case Parse(cmd) => Publish(s, cmd)
    case Abandon => s.(mode := Gated(s))
    case Complete(at) => s.(rob := s.rob[at := s.rob[at].(done := true)])
    case Serve => Drain(s)
    case Move(behind) => s.(covered := !behind)
    case Refresh(lost) => s.(covered := !lost)
  }

  function Last<T>(s: seq<T>): T
    requires s != []
  {
    s[|s| - 1]
  }

  function Init<T>(s: seq<T>): seq<T>
    requires s != []
  {
    s[..|s| - 1]
  }

  /** Where a run leads, if each of its events can happen when its turn comes. */
  function Play(run: seq<Event>): Option<Stream> {
    if run == [] then Some(START)
    else match Play(Init(run))
      case None => None
      case Some(s) => if Enabled(s, Last(run)) then Some(Next(s, Last(run))) else None
  }

  predicate Legal(run: seq<Event>) { Play(run).Some? }

  function After(run: seq<Event>): Stream
    requires Legal(run)
  {
    Play(run).value
  }

  // ---- what the protocol promises ------------------------------------------------------------------

  datatype Promise = Answering | Silenced | SkippingOne

  /** The mode after answering or suppressing `cmds` one at a time. */
  function PromiseAfter(cmds: seq<Command>): Promise {
    if cmds == [] then Answering
    else
      var before := PromiseAfter(Init(cmds));
      match Last(cmds)
      case ReplyOn => Answering
      case Reset => Answering
      case ReplyOff => Silenced
      case ReplySkip => if before == Silenced then Silenced else SkippingOne
      case Plain => if before == SkippingOne then Answering else before
  }

  predicate Answers(before: Promise, cmd: Command) {
    AlwaysAnswers(cmd) || (cmd == Plain && before == Answering)
  }

  /** The ids of the commands that are answered, in order. */
  function Answered(cmds: seq<Command>): seq<nat> {
    if cmds == [] then []
    else Answered(Init(cmds)) + (if Answers(PromiseAfter(Init(cmds)), Last(cmds)) then [|cmds| - 1] else [])
  }

  function Commands(run: seq<Event>): seq<Command> {
    if run == [] then []
    else Commands(Init(run)) + (if Last(run).Parse? then [Last(run).cmd] else [])
  }

  /**
   * The owner's word misses the bit: since a move that left it behind or a refresh that lost it there
   * was no refresh with the bit and no CLIENT REPLY or RESET.
   */
  predicate Behind(run: seq<Event>) {
    run != [] &&
    match Last(run)
    case Parse(cmd) => cmd == Plain && Behind(Init(run))
    case Abandon => Behind(Init(run))
    case Complete(_) => Behind(Init(run))
    case Serve => Behind(Init(run))
    case Move(behind) => behind
    case Refresh(lost) => lost
  }

  /** A frame was abandoned while a SKIP was waiting for its command, and has not been parsed since. */
  predicate SkipSpent(run: seq<Event>) {
    run != [] &&
    match Last(run)
    case Parse(_) => false
    case Abandon =>
      if Behind(Init(run)) then SkipSpent(Init(run)) else PromiseAfter(Commands(Init(run))) == SkippingOne
    case Complete(_) => SkipSpent(Init(run))
    case Serve => SkipSpent(Init(run))
    case Move(_) => SkipSpent(Init(run))
    case Refresh(_) => SkipSpent(Init(run))
  }

  /**
   * The next plain command escapes its suppression: its SKIP is already spent, or it is to be
   * silenced and the owner's word is behind.
   */
  predicate Escapes(run: seq<Event>) {
    SkipSpent(run) || (Behind(run) && PromiseAfter(Commands(run)) != Answering)
  }

  /** A command that is marked and would otherwise be answered. */
  predicate Withheld(op: Op) { op.skip && !op.silent }

  /** The next drain goes to the plain sender and meets a marked command. */
  predicate Exposed(s: Stream) {
    !s.covered && exists i :: 0 <= i < DonePrefix(s.rob) && Withheld(s.rob[i])
  }

  /** One step lets a reply out: a plain command escapes its mark, or a mark is not looked at. */
  predicate Leaks(run: seq<Event>, e: Event)
    requires Legal(run)
  {
    (e == Parse(Plain) && Escapes(run)) || (e == Serve && Exposed(After(run)))
  }

  predicate Leaked(run: seq<Event>)
    requires Legal(run)
  {
    run != [] && (Leaked(Init(run)) || Leaks(Init(run), Last(run)))
  }

  // ---- every run -------------------------------------------------------------------------------------

  /** Whether the code's mode means what the protocol's mode means. */
  predicate Agrees(mode: Mode, promise: Promise, spent: bool) {
    match mode
    case Off => promise == Silenced && !spent
    case SkipNext => promise == SkippingOne && !spent
    case SkipNow => promise == (if spent then SkippingOne else Answering)
    case On => promise == (if spent then SkippingOne else Answering)
  }

  predicate NoMarks(rob: seq<Op>) {
    forall i :: 0 <= i < |rob| ==> !rob[i].skip
  }

  /** Every reply sent or still due, in order. */
  function Due(s: Stream): seq<nat> { s.wire + Emitted(s.rob, true) }

  lemma {:induction false} EmittedSplit(a: seq<Op>, b: seq<Op>, suppressing: bool)
    ensures Emitted(a + b, suppressing) == Emitted(a, suppressing) + Emitted(b, suppressing)
  {
    if b == [] {
      assert a + b == a;
    } else {
      assert (a + b)[..|a + b| - 1] == a + b[..|b| - 1];
      EmittedSplit(a, b[..|b| - 1], suppressing);
    }
  }

  predicate NoneWithheld(ops: seq<Op>) {
    forall i :: 0 <= i < |ops| ==> !Withheld(ops[i])
  }

  lemma {:induction false} EmittedUnmarked(ops: seq<Op>)
    requires NoneWithheld(ops)
    ensures Emitted(ops, false) == Emitted(ops, true)
  {
    if ops != [] {
      EmittedUnmarked(ops[..|ops| - 1]);
    }
  }

  /** The plain sender sends whatever the suppressing one sends, and every withheld reply. */
  lemma {:induction false} EmittedMore(ops: seq<Op>, id: nat)
    requires id in Emitted(ops, true) || exists i :: 0 <= i < |ops| && Withheld(ops[i]) && ops[i].id == id
    ensures id in Emitted(ops, false)
  {
    var front := ops[..|ops| - 1];
    if id in Emitted(front, true) || exists i :: 0 <= i < |front| && Withheld(front[i]) && front[i].id == id {
      EmittedMore(front, id);
    }
  }

  lemma {:induction false} EmittedCompletes(ops: seq<Op>, at: nat)
    requires at < |ops|
    ensures Emitted(ops[at := ops[at].(done := true)], true) == Emitted(ops, true)
  {
    var after := ops[at := ops[at].(done := true)];
    if at == |ops| - 1 {
      assert after[..|ops| - 1] == ops[..|ops| - 1];
    } else {
      assert after[..|ops| - 1] == ops[..|ops| - 1][at := ops[at].(done := true)];
      EmittedCompletes(ops[..|ops| - 1], at);
    }
  }

  /** A drain moves replies from due to sent and loses or invents none, unless it ignores a mark. */
  lemma DrainKeepsDue(s: Stream)
    requires !Exposed(s) && (s.mode == On ==> NoMarks(s.rob))
    ensures Due(Drain(s)) == Due(s)
  {
    var n := DonePrefix(s.rob);
    var front, back := s.rob[..n], s.rob[n..];
    if !Suppressing(s) {
      EmittedUnmarked(front);
    }
    var sent, left := Emitted(front, true), Emitted(back, true);
    assert Emitted(s.rob, true) == sent + left by {
      EmittedSplit(front, back, true);
      assert s.rob == front + back;
    }
    Regroup(s.wire, sent, left);
  }

  /** Even then it loses none, and the reply it ought to have withheld is sent. */
  lemma DrainLosesNone(s: Stream, id: nat)
    requires id in Due(s) && (s.mode == On ==> NoMarks(s.rob))
    ensures id in Due(Drain(s))
  {
    if Exposed(s) {
      var n := DonePrefix(s.rob);
      var front, back := s.rob[..n], s.rob[n..];
      EmittedSplit(front, back, true);
      assert s.rob == front + back;
      if id in Emitted(front, true) {
        EmittedMore(front, id);
      }
    } else {
      DrainKeepsDue(s);
    }
  }

  lemma DrainExposes(s: Stream) returns (i: nat)
    requires Exposed(s)
    ensures i < |s.rob| && Withheld(s.rob[i]) && s.rob[i].id in Due(Drain(s))
  {
    var n := DonePrefix(s.rob);
    i :| 0 <= i < n && Withheld(s.rob[i]);
    assert s.rob[..n][i] == s.rob[i];
    EmittedMore(s.rob[..n], s.rob[i].id);
  }

  lemma Regroup(a: seq<nat>, b: seq<nat>, c: seq<nat>)
    ensures (a + b) + c == a + (b + c)
  {
  }

  lemma PublishDue(s: Stream, cmd: Command)
    ensures Due(Publish(s, cmd))
         == Due(s) + (if SaysNothing(cmd) || (Marking(s) && !AlwaysAnswers(cmd)) then [] else [s.next])
  {
    var t := Publish(s, cmd);
    assert t.rob[..|t.rob| - 1] == s.rob;
  }

  /** While a marked command is unsent the mode is not `On`, so a covered connection is suppressed. */
  lemma {:induction false} MarksKeepTheMode(run: seq<Event>)
    requires Legal(run)
    ensures After(run).mode == On ==> NoMarks(After(run).rob)
  {
    if run != [] {
      MarksKeepTheMode(Init(run));
    }
  }

  lemma {:induction false} CoverAgrees(run: seq<Event>)
    requires Legal(run)
    ensures After(run).covered == !Behind(run)
  {
    if run != [] {
      CoverAgrees(Init(run));
    }
  }

  lemma {:induction false} ModeAgrees(run: seq<Event>)
    requires Legal(run) && !Leaked(run)
    ensures Agrees(After(run).mode, PromiseAfter(Commands(run)), SkipSpent(run))
  {
    if run != [] {
      ModeAgrees(Init(run));
      CoverAgrees(Init(run));
      if Last(run).Parse? {
        assert Init(Commands(run)) == Commands(Init(run));
      } else {
        assert Commands(run) == Commands(Init(run));
      }
    }
  }

  lemma {:induction false} CommandsCounted(run: seq<Event>)
    requires Legal(run)
    ensures |Commands(run)| == After(run).next
  {
    if run != [] {
      CommandsCounted(Init(run));
    }
  }

  lemma {:induction false} AnsweredBelow(cmds: seq<Command>, id: nat)
    requires id in Answered(cmds)
    ensures id < |cmds|
  {
    if id in Answered(Init(cmds)) {
      AnsweredBelow(Init(cmds), id);
    }
  }

  /** What one step adds to the replies due. */
  lemma StepDue(run: seq<Event>)
    requires Legal(run) && run != [] && !(Last(run) == Serve && Exposed(After(Init(run))))
    ensures var s, e := After(Init(run)), Last(run);
      Due(After(run)) == Due(s) + (if e.Parse? && !SaysNothing(e.cmd) && (AlwaysAnswers(e.cmd) || !Marking(s))
                                   then [s.next] else [])
  {
    var s := After(Init(run));
    match Last(run)
    case Parse(cmd) => PublishDue(s, cmd);
    case Abandon =>
    case Complete(at) => EmittedCompletes(s.rob, at);
    case Serve =>
      MarksKeepTheMode(Init(run));
      DrainKeepsDue(s);
    case Move(_) =>
    case Refresh(_) =>
  }

  /** What one step adds to the replies promised. */
  lemma StepAnswered(run: seq<Event>)
    requires Legal(run) && run != []
    ensures var s, e := After(Init(run)), Last(run);
      Answered(Commands(run))
        == Answered(Commands(Init(run)))
           + (if e.Parse? && Answers(PromiseAfter(Commands(Init(run))), e.cmd) then [s.next] else [])
  {
    CommandsCounted(Init(run));
    if Last(run).Parse? {
      assert Init(Commands(run)) == Commands(Init(run));
    } else {
      assert Commands(run) == Commands(Init(run));
    }
  }

  /** Without an escape the replies sent and due are the promised ones. */
  lemma {:induction false} DueIsPromised(run: seq<Event>)
    requires Legal(run) && !Leaked(run)
    ensures Due(After(run)) == Answered(Commands(run))
  {
    if run != [] {
      DueIsPromised(Init(run));
      ModeAgrees(Init(run));
      CoverAgrees(Init(run));
      StepDue(run);
      StepAnswered(run);
    }
  }

  /** Where a command of the reorder buffer was before the step; only a parsed one was nowhere. */
  function Before(s: Stream, e: Event, i: nat): nat { if e == Serve then i + DonePrefix(s.rob) else i }

  lemma WithheldBefore(s: Stream, e: Event, i: nat)
    requires Enabled(s, e) && i < |Next(s, e).rob| && Withheld(Next(s, e).rob[i])
    ensures var k := Before(s, e, i);
      if k < |s.rob| then Withheld(s.rob[k]) && s.rob[k].id == Next(s, e).rob[i].id
      else e.Parse? && Marking(s) && !AlwaysAnswers(e.cmd) && Next(s, e).rob[i].id == s.next
    ensures s.next <= Next(s, e).next && (e.Parse? ==> s.next < Next(s, e).next)
  {
  }

  lemma StaysUnanswered(run: seq<Event>, id: nat)
    requires Legal(run) && run != [] && id < After(Init(run)).next && id !in Answered(Commands(Init(run)))
    ensures id !in Answered(Commands(run))
  {
    StepAnswered(run);
  }

  /** A withheld reply was never promised. */
  lemma {:induction false} WithheldUnanswered(run: seq<Event>, i: nat)
    requires Legal(run) && !Leaked(run) && i < |After(run).rob| && Withheld(After(run).rob[i])
    ensures After(run).rob[i].id < After(run).next && After(run).rob[i].id !in Answered(Commands(run))
  {
    var s, e := After(Init(run)), Last(run);
    var k := Before(s, e, i);
    WithheldBefore(s, e, i);
    if k < |s.rob| {
      WithheldUnanswered(Init(run), k);
      StaysUnanswered(run, s.rob[k].id);
    } else {
      JustWithheld(run);
    }
  }

  /** A command is marked only if it was to be silenced. */
  lemma JustWithheld(run: seq<Event>)
    requires Legal(run) && run != [] && !Leaked(Init(run)) && Last(run).Parse?
    requires Marking(After(Init(run))) && !AlwaysAnswers(Last(run).cmd)
    ensures After(Init(run)).next !in Answered(Commands(run))
  {
    var id := After(Init(run)).next;
    StepAnswered(run);
    ModeAgrees(Init(run));
    CommandsCounted(Init(run));
    if id in Answered(Commands(Init(run))) {
      AnsweredBelow(Commands(Init(run)), id);
    }
  }

  /** An escape leaves a reply that was never promised, for good. */
  lemma {:induction false} LeakIsSent(run: seq<Event>) returns (id: nat)
    requires Legal(run) && Leaked(run)
    ensures id in Due(After(run)) && id !in Answered(Commands(run))
    ensures id < After(run).next
  {
    if Leaked(Init(run)) {
      id := LeakIsSent(Init(run));
      StaysSent(run, id);
    } else if Last(run) == Serve {
      var i := DrainExposes(After(Init(run)));
      id := After(Init(run)).rob[i].id;
      WithheldUnanswered(Init(run), i);
      StepAnswered(run);
    } else {
      id := After(Init(run)).next;
      JustSent(run, id);
    }
  }

  lemma StaysSent(run: seq<Event>, id: nat)
    requires Legal(run) && run != [] && id < After(Init(run)).next
    requires id in Due(After(Init(run))) && id !in Answered(Commands(Init(run)))
    ensures id in Due(After(run)) && id !in Answered(Commands(run)) && id < After(run).next
  {
    assert id in Due(After(run)) by {
      if Last(run) == Serve {
        MarksKeepTheMode(Init(run));
        DrainLosesNone(After(Init(run)), id);
      } else {
        StepDue(run);
      }
    }
    assert id !in Answered(Commands(run)) by {
      StepAnswered(run);
    }
    assert After(run) == Next(After(Init(run)), Last(run));
  }

  /** The moment of the escape: the command is due although it was to be silenced. */
  lemma JustSent(run: seq<Event>, id: nat)
    requires Legal(run) && run != [] && !Leaked(Init(run)) && Last(run) == Parse(Plain) && Escapes(Init(run))
    requires id == After(Init(run)).next
    ensures id in Due(After(run)) && id !in Answered(Commands(run)) && id < After(run).next
  {
    StepDue(run);
    StepAnswered(run);
    ModeAgrees(Init(run));
    CoverAgrees(Init(run));
    CommandsCounted(Init(run));
    if id in Answered(Commands(Init(run))) {
      AnsweredBelow(Commands(Init(run)), id);
    }
  }

  /**
   * Whatever the interleaving, once every published command has been drained the wire holds exactly
   * the promised replies, if and only if nothing leaked: no command was parsed after its SKIP was spent
   * on an abandoned frame, none that was to be silenced was parsed while the owner's word missed the
   * bit, and no marked command was drained while it did.
   */
  lemma WireIsPromised(run: seq<Event>)
    requires Legal(run) && After(run).rob == []
    ensures After(run).wire == Answered(Commands(run)) <==> !Leaked(run)
  {
    if Leaked(run) {
      var id := LeakIsSent(run);
    } else {
      DueIsPromised(run);
    }
  }

  /** At every other moment the wire is a prefix of the promised replies. */
  lemma WireIsPrefix(run: seq<Event>)
    requires Legal(run) && !Leaked(run)
    ensures After(run).wire <= Answered(Commands(run))
  {
    DueIsPromised(run);
  }

  /** Nothing moves and no frame is abandoned. */
  predicate Undisturbed(run: seq<Event>) {
    run == [] || (Undisturbed(Init(run)) && !Last(run).Move? && Last(run) != Abandon)
  }

  lemma Extend(run: seq<Event>, e: Event)
    requires Legal(run) && Enabled(After(run), e)
    ensures Legal(run + [e]) && After(run + [e]) == Next(After(run), e)
    ensures Commands(run + [e]) == Commands(run) + (if e.Parse? then [e.cmd] else [])
    ensures Undisturbed(run + [e]) <==> Undisturbed(run) && !e.Move? && e != Abandon
  {
    assert Init(run + [e]) == run;
  }

  lemma EmittedOne(op: Op, suppressing: bool)
    ensures Emitted([op], suppressing) == if op.silent || (suppressing && op.skip) then [] else [op.id]
  {
    assert [op][..0] == [];
  }

  lemma ServeOne(s: Stream, op: Op)
    requires op.done && s.rob == [op]
    ensures Drain(s) == s.(mode := if s.covered then AfterDrain(s.mode, true) else s.mode, rob := [],
                           wire := s.wire + (if op.silent || (Suppressing(s) && op.skip) then [] else [op.id]))
  {
    EmittedOne(op, Suppressing(s));
    assert [op][..1] == [op];
  }

  /** A command is parsed, completed and served. */
  lemma Round(run: seq<Event>, cmd: Command) returns (longer: seq<Event>)
    requires Legal(run) && After(run).rob == []
    ensures Legal(longer) && (Undisturbed(longer) <==> Undisturbed(run))
    ensures Commands(longer) == Commands(run) + [cmd]
    ensures var s := After(run);
      After(longer) == Drain(Publish(s, cmd).(rob := [Op(s.next, Marking(s) && !AlwaysAnswers(cmd), SaysNothing(cmd), true)]))
  {
    Extend(run, Parse(cmd));
    longer := run + [Parse(cmd)];
    Extend(longer, Complete(0));
    longer := longer + [Complete(0)];
    Extend(longer, Serve);
    longer := longer + [Serve];
  }

  /** After SKIP, its next command is abandoned and the SKIP is drained: nothing is left of the SKIP. */
  lemma SkipIsSpent() returns (run: seq<Event>)
    ensures Legal(run) && Commands(run) == [ReplySkip] && After(run) == Stream(On, true, 1, [], [])
  {
    var skip := Op(0, false, true, false);
    Extend([], Parse(ReplySkip));
    assert After([Parse(ReplySkip)]) == Stream(SkipNext, true, 1, [skip], []);
    run := [] + [Parse(ReplySkip)];
    Extend(run, Abandon);
    run := run + [Abandon];
    assert After(run) == Stream(SkipNow, true, 1, [skip], []);
    Extend(run, Complete(0));
    run := run + [Complete(0)];
    assert After(run) == Stream(SkipNow, true, 1, [skip.(done := true)], []);
    Extend(run, Serve);
    run := run + [Serve];
    ServeOne(Stream(SkipNow, true, 1, [skip.(done := true)], []), skip.(done := true));
  }

  /** SKIP, then a command that is abandoned once: its reply is sent although it was to be skipped. */
  lemma SkipCanBeLost() returns (run: seq<Event>)
    ensures Legal(run) && After(run).rob == []
    ensures Commands(run) == [ReplySkip, Plain] && Answered(Commands(run)) == [] && After(run).wire == [1]
  {
    run := SkipIsSpent();
    var op := Op(1, false, false, true);
    run := Round(run, Plain);
    ServeOne(Stream(On, true, 2, [op], []), op);
    assert Init([ReplySkip, Plain]) == [ReplySkip] && Init([ReplySkip]) == [];
  }

  /** After OFF the connection moves to a thread that has not refreshed its word: the next reply is sent. */
  lemma OffCanBeLost() returns (run: seq<Event>)
    ensures Legal(run) && After(run).rob == []
    ensures Commands(run) == [ReplyOff, Plain] && Answered(Commands(run)) == [] && After(run).wire == [1]
  {
    run := OffDrained();
    Extend(run, Move(true));
    run := run + [Move(true)];
    run := Round(run, Plain);
    ServeOne(Stream(Off, false, 2, [Op(1, false, false, true)], []), Op(1, false, false, true));
    OffAnswersNothing();
  }

  /** OFF has been parsed and drained. */
  lemma OffDrained() returns (run: seq<Event>)
    ensures Legal(run) && Undisturbed(run) && Commands(run) == [ReplyOff] && After(run) == Stream(Off, true, 1, [], [])
  {
    run := Round([], ReplyOff);
    ServeOne(Stream(Off, true, 1, [Op(0, false, true, true)], []), Op(0, false, true, true));
  }

  lemma OffAnswersNothing()
    ensures Answered([ReplyOff, Plain]) == []
  {
    assert Init([ReplyOff, Plain]) == [ReplyOff] && Init([ReplyOff]) == [];
  }

  /** The owner copies a word that has lost the bit, and the next command is not marked. */
  lemma OffCanBeOverwritten() returns (run: seq<Event>)
    ensures Legal(run) && Undisturbed(run) && After(run).rob == []
    ensures Commands(run) == [ReplyOff, Plain] && Answered(Commands(run)) == [] && After(run).wire == [1]
  {
    run := OffDrained();
    Extend(run, Refresh(true));
    run := run + [Refresh(true)];
    run := Round(run, Plain);
    ServeOne(Stream(Off, false, 2, [Op(1, false, false, true)], []), Op(1, false, false, true));
    OffAnswersNothing();
  }

  /** The same after the next command has been marked: the drain does not look at the mark. */
  lemma MarkCanBeIgnored() returns (run: seq<Event>)
    ensures Legal(run) && Undisturbed(run) && After(run).rob == []
    ensures Commands(run) == [ReplyOff, Plain] && Answered(Commands(run)) == [] && After(run).wire == [1]
  {
    run := OffDrained();
    run := MarkedAndDone(run);
    run := ServedUnseen(run);
    OffAnswersNothing();
  }

  lemma ServedUnseen(run: seq<Event>) returns (longer: seq<Event>)
    requires Legal(run) && Undisturbed(run) && After(run) == Stream(Off, true, 2, [Op(1, true, false, true)], [])
    ensures Legal(longer) && Undisturbed(longer) && Commands(longer) == Commands(run)
    ensures After(longer) == Stream(Off, false, 2, [], [1])
  {
    Extend(run, Refresh(true));
    longer := run + [Refresh(true)];
    Extend(longer, Serve);
    longer := longer + [Serve];
    ServeOne(Stream(Off, false, 2, [Op(1, true, false, true)], []), Op(1, true, false, true));
  }

  lemma MarkedAndDone(run: seq<Event>) returns (longer: seq<Event>)
    requires Legal(run) && Undisturbed(run) && After(run) == Stream(Off, true, 1, [], [])
    ensures Legal(longer) && Undisturbed(longer) && Commands(longer) == Commands(run) + [Plain]
    ensures After(longer) == Stream(Off, true, 2, [Op(1, true, false, true)], [])
  {
    Extend(run, Parse(Plain));
    longer := run + [Parse(Plain)];
    assert After(longer) == Stream(Off, true, 2, [Op(1, true, false, false)], []);
    Extend(longer, Complete(0));
    longer := longer + [Complete(0)];
  }

  // ---- what the promise means ----------------------------------------------------------------------

  /** A command is answered exactly when the automaton answers it after the commands before it. */
  lemma {:induction false} AnsweredAt(cmds: seq<Command>, k: nat)
    requires k < |cmds|
    ensures k in Answered(cmds) <==> Answers(PromiseAfter(cmds[..k]), cmds[k])
  {
    if k == |cmds| - 1 {
      if k in Answered(Init(cmds)) {
        AnsweredBelow(Init(cmds), k);
      }
    } else {
      AnsweredAt(Init(cmds), k);
      assert Init(cmds)[..k] == cmds[..k];
    }
  }

  /** No ON and no RESET lies strictly between `k` and `j`. */
  predicate NeitherBetween(cmds: seq<Command>, k: nat, j: nat)
    requires j <= |cmds|
  {
    forall i :: k < i < j ==> !AlwaysAnswers(cmds[i])
  }

  /** OFF holds until the next ON or RESET. */
  lemma {:induction false} OffHolds(cmds: seq<Command>, k: nat, j: nat)
    requires k < j <= |cmds| && cmds[k] == ReplyOff && NeitherBetween(cmds, k, j)
    ensures PromiseAfter(cmds[..j]) == Silenced
    decreases j
  {
    assert Init(cmds[..j]) == cmds[..j - 1];
    if j > k + 1 {
      OffHolds(cmds, k, j - 1);
    }
  }

  /** No OFF and no SKIP lies strictly between `k` and `j`. */
  predicate NothingSilencedBetween(cmds: seq<Command>, k: nat, j: nat)
    requires j <= |cmds|
  {
    forall i :: k < i < j ==> !SaysNothing(cmds[i])
  }

  /** ON and RESET hold until the next OFF or SKIP. */
  lemma {:induction false} OnHolds(cmds: seq<Command>, k: nat, j: nat)
    requires k < j <= |cmds| && AlwaysAnswers(cmds[k]) && NothingSilencedBetween(cmds, k, j)
    ensures PromiseAfter(cmds[..j]) == Answering
    decreases j
  {
    assert Init(cmds[..j]) == cmds[..j - 1];
    if j > k + 1 {
      OnHolds(cmds, k, j - 1);
    }
  }

  /** After ON or RESET every command is answered, up to the next OFF or SKIP. */
  lemma AnsweredAgain(cmds: seq<Command>, k: nat, j: nat)
    requires k < j < |cmds| && AlwaysAnswers(cmds[k]) && NothingSilencedBetween(cmds, k, j) && cmds[j] == Plain
    ensures j in Answered(cmds)
  {
    OnHolds(cmds, k, j);
    AnsweredAt(cmds, j);
  }

  /** So is every command before the first OFF or SKIP. */
  lemma AnsweredAtFirst(cmds: seq<Command>, j: nat)
    requires j < |cmds| && cmds[j] == Plain && forall i :: 0 <= i < j ==> !SaysNothing(cmds[i])
    ensures j in Answered(cmds) && PromiseAfter(cmds[..j]) == Answering
  {
    AnsweringAtFirst(cmds, j);
    AnsweredAt(cmds, j);
  }

  lemma {:induction false} AnsweringAtFirst(cmds: seq<Command>, j: nat)
    requires j <= |cmds| && forall i :: 0 <= i < j ==> !SaysNothing(cmds[i])
    ensures PromiseAfter(cmds[..j]) == Answering
  {
    if j > 0 {
      assert Init(cmds[..j]) == cmds[..j - 1];
      AnsweringAtFirst(cmds, j - 1);
    }
  }

  /**
   * ON and RESET are always answered; SKIP silences one command and only one, unless OFF already
   * silences it; OFF silences every command up to the next ON or RESET.
   */
  lemma PromiseKept(cmds: seq<Command>, k: nat)
    requires k < |cmds|
    ensures AlwaysAnswers(cmds[k]) ==> k in Answered(cmds)
    ensures cmds[k] == ReplySkip && PromiseAfter(cmds[..k]) != Silenced && k + 1 < |cmds| && cmds[k + 1] == Plain
            ==> k + 1 !in Answered(cmds) && (k + 2 < |cmds| && cmds[k + 2] == Plain ==> k + 2 in Answered(cmds))
    ensures forall j :: cmds[k] == ReplyOff && k < j < |cmds| && cmds[j] == Plain && NeitherBetween(cmds, k, j)
              ==> j !in Answered(cmds)
  {
    AnsweredAt(cmds, k);
    if k + 1 < |cmds| {
      AnsweredAt(cmds, k + 1);
      assert Init(cmds[..k + 1]) == cmds[..k];
      if k + 2 < |cmds| {
        AnsweredAt(cmds, k + 2);
        assert Init(cmds[..k + 2]) == cmds[..k + 1];
      }
    }
    forall j | cmds[k] == ReplyOff && k < j < |cmds| && cmds[j] == Plain && NeitherBetween(cmds, k, j)
      ensures j !in Answered(cmds)
    {
      OffHolds(cmds, k, j);
      AnsweredAt(cmds, j);
    }
  }

  // ---- the connection as it is updated in place ------------------------------------------------------

  class Connection {
    var mode: Mode
    /** Whether the cached word of the owning thread covers this connection. */
    var covered: bool
    var next: nat
    var rob: seq<Op>
    var wire: seq<nat>
    /** What has happened to this connection, newest last. */
    ghost var run: seq<Event>

    ghost function View(): Stream
      reads this
    {
      Stream(mode, covered, next, rob, wire)
    }

    ghost predicate Valid()
      reads this
    {
      Legal(run) && View() == After(run)
    }

    constructor ()
      ensures Valid() && run == []
    {
      mode, covered, next, rob, wire, run := On, true, 0, [], [], [];
    }

    /** The mark the armed gate gives the command being parsed. */
    method Gate() returns (skip: bool)
      modifies `mode
      ensures skip == Marking(old(View())) && mode == Gated(old(View()))
    {
      skip := false;
      if covered {
        if mode == Off {
          skip := true;
        } else if mode == SkipNext {
          skip := true;
          mode := SkipNow;
        }
      }
    }

    /** The handler of CLIENT REPLY and RESET; `skip` is cleared for the commands that always answer. */
    method Handle(cmd: Command, marked: bool) returns (skip: bool, silent: bool)
      modifies `mode, `covered
      ensures skip == (marked && !AlwaysAnswers(cmd)) && silent == SaysNothing(cmd)
      ensures mode == AfterHandler(cmd, old(mode), |rob|) && covered == (old(covered) || cmd != Plain)
    {
      skip, silent := marked, false;
      match cmd {
        case ReplyOn =>
          skip := false;
          mode := if mode != On && |rob| != 0 then SkipNow else On;
        case ReplyOff =>
          silent := true;
          mode := Off;
        case ReplySkip =>
          silent := true;
          if mode != Off {
            mode := SkipNext;
          }
        case Reset =>
          skip := false;
          if mode != On {
            mode := if |rob| != 0 then SkipNow else On;
          }
        case Plain =>
      }
      covered := covered || cmd != Plain;
    }

    method Dispatch(cmd: Command)
      requires Valid() && |rob| < CAPACITY
      modifies this
      ensures Valid() && run == old(run) + [Parse(cmd)]
    {
      var marked := Gate();
      var skip, silent := Handle(cmd, marked);
      rob := rob + [Op(next, skip, silent, false)];
      next := next + 1;
      run := run + [Parse(cmd)];
      assert Init(run) == old(run);
    }

    method LeaveUnparsed()
      requires Valid() && |rob| < CAPACITY
      modifies this
      ensures Valid() && run == old(run) + [Abandon]
    {
      var skip := Gate();
      run := run + [Abandon];
      assert Init(run) == old(run);
    }

    method MarkDone(at: nat)
      requires Valid() && at < |rob|
      modifies this
      ensures Valid() && run == old(run) + [Complete(at)]
    {
      rob := rob[at := rob[at].(done := true)];
      run := run + [Complete(at)];
      assert Init(run) == old(run);
    }

    /** Retires the finished prefix of the reorder buffer. */
    method Retire(suppressing: bool)
      modifies `rob, `wire
      ensures rob == old(rob)[DonePrefix(old(rob))..]
      ensures wire == old(wire) + Emitted(old(rob)[..DonePrefix(old(rob))], suppressing)
    {
      var n := 0;
      ghost var all := DonePrefix(rob);
      while n < |rob| && rob[n].done
        invariant n <= all && rob == old(rob)
        invariant wire == old(wire) + Emitted(rob[..n], suppressing)
      {
        var op := rob[n];
        if !(suppressing && op.skip) && !op.silent {
          wire := wire + [op.id];
        }
        assert rob[..n + 1][..n] == rob[..n];
        n := n + 1;
      }
      rob := rob[n..];
    }

    method Send()
      requires Valid()
      modifies this
      ensures Valid() && run == old(run) + [Serve]
    {
      if covered && mode != On {
        Retire(true);
        if mode == SkipNow && |rob| == 0 {
          mode := On;
        }
      } else {
        Retire(false);
      }
      run := run + [Serve];
      assert Init(run) == old(run);
    }

    /** The idle connection changes threads; `behind` if the new owner's word does not cover it yet. */
    method ChangeOwner(behind: bool)
      requires Valid() && rob == []
      modifies this
      ensures Valid() && run == old(run) + [Move(behind)]
    {
      covered := !behind;
      run := run + [Move(behind)];
      assert Init(run) == old(run);
    }

    /** The owner copies the server's word; `lost` if that word misses the bit. */
    method CopyWord(lost: bool)
      requires Valid()
      modifies this
      ensures Valid() && run == old(run) + [Refresh(lost)]
    {
      covered := !lost;
      run := run + [Refresh(lost)];
      assert Init(run) == old(run);
    }
  }
}
