/** CLIENT LIST, KILL and UNBLOCK across I/O threads: a request to each target, a result from each, one reply. */
module ClientScatter {
  // One object stands for the connections of all threads and the events between them. Events are
  // delivered in any order, so the results hold for every transport that neither loses nor repeats.

  import opened Clients

  /** A published command: the connection and its id in the reorder buffer. */
  datatype Key = Key(conn: ClientId, op: nat)

  datatype Answer = Answer(target: nat, count: nat, lines: string)

  datatype Event = Request(key: Key, to: nat) | Result(key: Key, answer: Answer)

  datatype Kind = List | Kill | Unblock

  datatype Pending = Pending(kind: Kind, oldForm: bool, op: nat, remaining: nat, count: nat, body: string)

  datatype Reply = Lines(body: string) | Number(n: nat) | Ok | NoSuchClient

  /** What a command asked for, kept for the statement only. */
  datatype Question = Question(kind: Kind, oldForm: bool, targets: seq<nat>)

  // ---- what the reply is to be -------------------------------------------------------------------------

  function Total(heard: seq<Answer>): nat {
    if heard == [] then 0 else Total(heard[..|heard| - 1]) + heard[|heard| - 1].count
  }

  function Text(heard: seq<Answer>): string {
    if heard == [] then "" else Text(heard[..|heard| - 1]) + heard[|heard| - 1].lines
  }

  function Bit(b: bool): nat { if b then 1 else 0 }

  function HeardFrom(heard: seq<Answer>, target: nat): nat {
    if heard == [] then 0 else HeardFrom(heard[..|heard| - 1], target) + Bit(heard[|heard| - 1].target == target)
  }

  function Sent(targets: seq<nat>, target: nat): nat {
    if targets == [] then 0 else Sent(targets[..|targets| - 1], target) + Bit(targets[|targets| - 1] == target)
  }

  /** The reply to a question whose answers arrived in this order. */
  function ReplyTo(q: Question, heard: seq<Answer>): Reply {
    match q.kind
    case List => Lines(Text(heard))
    case Unblock => Number(Total(heard))
    case Kill => if !q.oldForm then Number(Total(heard)) else if Total(heard) != 0 then Ok else NoSuchClient
  }

  /** The counts added one after the other, from zero to `n`. */
  predicate Running(heard: seq<Answer>, sums: seq<nat>, n: nat) {
    && |sums| == |heard| + 1 && sums[0] == 0 && sums[|heard|] == n
    && forall i :: 0 <= i < |heard| ==> sums[i + 1] == sums[i] + heard[i].count
  }

  ghost predicate AddsUp(heard: seq<Answer>, n: nat) { exists sums :: Running(heard, sums, n) }

  /** The texts appended one after the other, from nothing to `body`. */
  predicate Growing(heard: seq<Answer>, texts: seq<string>, body: string) {
    && |texts| == |heard| + 1 && texts[0] == "" && texts[|heard|] == body
    && forall i :: 0 <= i < |heard| ==> texts[i + 1] == texts[i] + heard[i].lines
  }

  ghost predicate StringsTogether(heard: seq<Answer>, body: string) { exists texts :: Growing(heard, texts, body) }

  /** What the asking client has to be told, given the answers in the order of their arrival. */
  ghost predicate Fits(q: Question, heard: seq<Answer>, reply: Reply) {
    if q.kind == List then reply.Lines? && StringsTogether(heard, reply.body)
    else if q.kind == Kill && q.oldForm then
      reply == if exists i :: 0 <= i < |heard| && heard[i].count != 0 then Ok else NoSuchClient
    else
      && reply.Number? && AddsUp(heard, reply.n)
      && (reply.n == 0 <==> forall i :: 0 <= i < |heard| ==> heard[i].count == 0)
  }

  lemma {:induction false} TotalAddsUp(heard: seq<Answer>) returns (sums: seq<nat>)
    ensures Running(heard, sums, Total(heard))
  {
    if heard == [] {
      sums := [0];
    } else {
      sums := TotalAddsUp(heard[..|heard| - 1]);
      sums := sums + [Total(heard)];
    }
  }

  lemma {:induction false} TextStringsTogether(heard: seq<Answer>) returns (texts: seq<string>)
    ensures Growing(heard, texts, Text(heard))
  {
    if heard == [] {
      texts := [""];
    } else {
      texts := TextStringsTogether(heard[..|heard| - 1]);
      texts := texts + [Text(heard)];
    }
  }

  lemma {:induction false} TotalZero(heard: seq<Answer>)
    ensures Total(heard) == 0 <==> forall i :: 0 <= i < |heard| ==> heard[i].count == 0
  {
    if heard != [] {
      var front := heard[..|heard| - 1];
      TotalZero(front);
      assert (forall i :: 0 <= i < |heard| ==> heard[i].count == 0)
        <==> (forall i :: 0 <= i < |front| ==> front[i].count == 0) && heard[|heard| - 1].count == 0;
    }
  }

  /** The reply computed is the one called for. */
  lemma ReplyFits(q: Question, heard: seq<Answer>)
    ensures Fits(q, heard, ReplyTo(q, heard))
  {
    var sums := TotalAddsUp(heard);
    var texts := TextStringsTogether(heard);
    TotalZero(heard);
  }

  /** From every thread as many answers as it was sent requests. */
  ghost predicate Complete(q: Question, heard: seq<Answer>) {
    forall target: nat :: HeardFrom(heard, target) == Sent(q.targets, target)
  }

  // ---- events that are still under way -----------------------------------------------------------------

  function Target(e: Event): nat { if e.Request? then e.to else e.answer.target }

  /** How many requests and results of a command are under way. */
  function Outstanding(events: seq<Event>, key: Key): nat {
    if events == [] then 0
    else Outstanding(events[..|events| - 1], key) + Bit(events[|events| - 1].key == key)
  }

  predicate Concerns(e: Event, key: Key, target: nat) { e.key == key && Target(e) == target }

  /** How many of them are to or from one thread. */
  function OutstandingAt(events: seq<Event>, key: Key, target: nat): nat {
    if events == [] then 0
    else OutstandingAt(events[..|events| - 1], key, target) + Bit(Concerns(events[|events| - 1], key, target))
  }

  function Without(events: seq<Event>, i: nat): seq<Event>
    requires i < |events|
  {
    events[..i] + events[i + 1..]
  }

  lemma {:induction false} OutstandingWithout(events: seq<Event>, i: nat, key: Key, target: nat)
    requires i < |events|
    ensures Outstanding(events, key) == Outstanding(Without(events, i), key) + Bit(events[i].key == key)
    ensures OutstandingAt(events, key, target)
         == OutstandingAt(Without(events, i), key, target) + Bit(Concerns(events[i], key, target))
  {
    var last := |events| - 1;
    if i == last {
      assert Without(events, i) == events[..last];
    } else {
      OutstandingWithout(events[..last], i, key, target);
      assert Without(events, i)[..last - 1] == Without(events[..last], i);
    }
  }

  lemma {:induction false} OutstandingServed(events: seq<Event>, i: nat, served: Event, key: Key, target: nat)
    requires i < |events| && served.key == events[i].key && Target(served) == Target(events[i])
    ensures Outstanding(events[i := served], key) == Outstanding(events, key)
    ensures OutstandingAt(events[i := served], key, target) == OutstandingAt(events, key, target)
  {
    var last := |events| - 1;
    if i == last {
      assert events[i := served][..last] == events[..last];
    } else {
      assert events[i := served][..last] == events[..last][i := served];
      OutstandingServed(events[..last], i, served, key, target);
    }
  }

  lemma {:induction false} NoneOutstanding(events: seq<Event>, key: Key)
    requires forall i :: 0 <= i < |events| ==> events[i].key != key
    ensures Outstanding(events, key) == 0
  {
    if events != [] {
      NoneOutstanding(events[..|events| - 1], key);
    }
  }

  lemma {:induction false} OutstandingCovers(events: seq<Event>, key: Key, target: nat)
    ensures OutstandingAt(events, key, target) <= Outstanding(events, key)
  {
    if events != [] {
      OutstandingCovers(events[..|events| - 1], key, target);
    }
  }

  /** The requests of one command, as they are posted. */
  function Requests(key: Key, targets: seq<nat>): seq<Event> {
    if targets == [] then [] else Requests(key, targets[..|targets| - 1]) + [Request(key, targets[|targets| - 1])]
  }

  lemma {:induction false} RequestsOutstanding(events: seq<Event>, key: Key, targets: seq<nat>, other: Key, target: nat)
    ensures Outstanding(events + Requests(key, targets), other)
         == Outstanding(events, other) + (if other == key then |targets| else 0)
    ensures OutstandingAt(events + Requests(key, targets), other, target)
         == OutstandingAt(events, other, target) + (if other == key then Sent(targets, target) else 0)
  {
    if targets == [] {
      assert events + Requests(key, targets) == events;
    } else {
      var last := |targets| - 1;
      RequestsOutstanding(events, key, targets[..last], other, target);
      var longer := events + Requests(key, targets);
      assert longer[..|longer| - 1] == events + Requests(key, targets[..last]);
    }
  }

  lemma {:induction false} RequestsKeyed(key: Key, targets: seq<nat>, i: nat)
    requires i < |Requests(key, targets)|
    ensures Requests(key, targets)[i].key == key
  {
    if i < |Requests(key, targets[..|targets| - 1])| {
      RequestsKeyed(key, targets[..|targets| - 1], i);
    }
  }

  // ---- the state ---------------------------------------------------------------------------------------

  /** Requests, results and heard answers add up to what was sent, thread by thread. */
  ghost predicate Conserved(events: seq<Event>, key: Key, q: Question, heard: seq<Answer>) {
    forall target: nat :: OutstandingAt(events, key, target) + HeardFrom(heard, target) == Sent(q.targets, target)
  }

  /** A pending record counts what is under way and has accumulated what has arrived. */
  ghost predicate Tracks(p: Pending, events: seq<Event>, key: Key, q: Question, heard: seq<Answer>) {
    && q.kind == p.kind && q.oldForm == p.oldForm
    && p.remaining == Outstanding(events, key) && p.remaining > 0
    && Conserved(events, key, q, heard)
    && (if p.kind == List then p.body == Text(heard) else p.count == Total(heard))
  }

  ghost predicate Tracked(pending: map<ClientId, Pending>, events: seq<Event>, asked: map<Key, Question>,
                          heard: map<Key, seq<Answer>>) {
    && (forall conn :: conn in pending ==> Key(conn, pending[conn].op) in asked && Key(conn, pending[conn].op) in heard)
    && (forall conn :: conn in pending ==>
          var key := Key(conn, pending[conn].op);
          Tracks(pending[conn], events, key, asked[key], heard[key]))
  }

  /** A waiting connection waits for the newest command it published, and its parser is barred. */
  predicate Waiting(pending: map<ClientId, Pending>, next: map<ClientId, nat>, barred: set<ClientId>, replies: map<Key, Reply>) {
    forall conn :: conn in pending ==>
      conn in next && next[conn] == pending[conn].op + 1 && conn in barred && Key(conn, pending[conn].op) !in replies
  }

  predicate IsFor(e: Event, pending: map<ClientId, Pending>) {
    e.key.conn in pending && pending[e.key.conn].op == e.key.op
  }

  /** Every event finds the record it belongs to. */
  predicate Expected(events: seq<Event>, pending: map<ClientId, Pending>) {
    forall i :: 0 <= i < |events| ==> IsFor(events[i], pending)
  }

  /** Every reply is the one its complete set of answers calls for. */
  ghost predicate Answered(replies: map<Key, Reply>, asked: map<Key, Question>, heard: map<Key, seq<Answer>>) {
    && (forall key :: key in replies ==> key in asked && key in heard)
    && (forall key :: key in replies ==> Complete(asked[key], heard[key]) && replies[key] == ReplyTo(asked[key], heard[key]))
  }

  predicate Published(asked: map<Key, Question>, next: map<ClientId, nat>) {
    forall key :: key in asked ==> key.conn in next && key.op < next[key.conn]
  }

  /** Every command is waiting, answered, or its connection is gone. */
  predicate Settled(asked: map<Key, Question>, pending: map<ClientId, Pending>, replies: map<Key, Reply>, dead: set<ClientId>) {
    forall key :: key in asked ==>
      (key.conn in pending && pending[key.conn].op == key.op) || key in replies || key.conn in dead
  }

  ghost predicate Holds(pending: map<ClientId, Pending>, events: seq<Event>, next: map<ClientId, nat>, barred: set<ClientId>,
                        dead: set<ClientId>, replies: map<Key, Reply>, asked: map<Key, Question>, heard: map<Key, seq<Answer>>) {
    && Tracked(pending, events, asked, heard)
    && Waiting(pending, next, barred, replies)
    && Expected(events, pending)
    && Answered(replies, asked, heard)
    && Published(asked, next)
    && Settled(asked, pending, replies, dead)
  }

  // ---- the steps, part by part ---------------------------------------------------------------------------

  lemma WaitingDispatch(pending: map<ClientId, Pending>, next: map<ClientId, nat>, barred: set<ClientId>,
                        replies: map<Key, Reply>, conn: ClientId, n: nat)
    requires Waiting(pending, next, barred, replies) && conn !in pending
    ensures Waiting(pending, next[conn := n], barred, replies)
  {
  }

  lemma WaitingRelease(pending: map<ClientId, Pending>, next: map<ClientId, nat>, barred: set<ClientId>,
                       replies: map<Key, Reply>, conn: ClientId)
    requires Waiting(pending, next, barred, replies) && conn !in pending
    ensures Waiting(pending, next, barred - {conn}, replies)
  {
  }

  lemma FreshKey(pending: map<ClientId, Pending>, events: seq<Event>, key: Key, targets: seq<nat>)
    requires Expected(events, pending) && key.conn !in pending
    ensures Outstanding(events + Requests(key, targets), key) == |targets|
    ensures forall target: nat :: OutstandingAt(events + Requests(key, targets), key, target) == Sent(targets, target)
  {
    NoneOutstanding(events, key);
    RequestsOutstanding(events, key, targets, key, 0);
    forall target: nat
      ensures OutstandingAt(events + Requests(key, targets), key, target) == Sent(targets, target)
    {
      RequestsOutstanding(events, key, targets, key, target);
      OutstandingCovers(events, key, target);
    }
  }

  lemma TracksMore(p: Pending, events: seq<Event>, key: Key, q: Question, heard: seq<Answer>, other: Key, targets: seq<nat>)
    requires Tracks(p, events, key, q, heard) && key != other
    ensures Tracks(p, events + Requests(other, targets), key, q, heard)
  {
    RequestsOutstanding(events, other, targets, key, 0);
    forall target: nat
      ensures OutstandingAt(events + Requests(other, targets), key, target) + HeardFrom(heard, target)
           == Sent(q.targets, target)
    {
      RequestsOutstanding(events, other, targets, key, target);
    }
  }

  lemma TrackedBegin(pending: map<ClientId, Pending>, events: seq<Event>, asked: map<Key, Question>,
                     heard: map<Key, seq<Answer>>, key: Key, q: Question)
    requires Tracked(pending, events, asked, heard) && Expected(events, pending)
    requires key.conn !in pending && q.targets != []
    ensures Tracked(pending[key.conn := Pending(q.kind, q.oldForm, key.op, |q.targets|, 0, "")],
                    events + Requests(key, q.targets), asked[key := q], heard[key := []])
  {
    FreshKey(pending, events, key, q.targets);
    forall conn | conn in pending
      ensures var other := Key(conn, pending[conn].op);
        Tracks(pending[conn], events + Requests(key, q.targets), other, asked[other], heard[other])
    {
      var other := Key(conn, pending[conn].op);
      TracksMore(pending[conn], events, other, asked[other], heard[other], key, q.targets);
    }
  }

  lemma ExpectedBegin(pending: map<ClientId, Pending>, events: seq<Event>, key: Key, targets: seq<nat>, p: Pending)
    requires Expected(events, pending) && key.conn !in pending && p.op == key.op
    ensures Expected(events + Requests(key, targets), pending[key.conn := p])
  {
    var all := events + Requests(key, targets);
    forall i | 0 <= i < |all|
      ensures IsFor(all[i], pending[key.conn := p])
    {
      if i < |events| {
        assert IsFor(events[i], pending);
      } else {
        RequestsKeyed(key, targets, i - |events|);
      }
    }
  }

  lemma WaitingBegin(pending: map<ClientId, Pending>, next: map<ClientId, nat>, barred: set<ClientId>,
                     replies: map<Key, Reply>, asked: map<Key, Question>, heard: map<Key, seq<Answer>>, conn: ClientId, p: Pending)
    requires Waiting(pending, next, barred, replies) && Published(asked, next) && Answered(replies, asked, heard)
    requires conn in next && p.op == next[conn] && conn !in pending
    ensures Waiting(pending[conn := p], next[conn := p.op + 1], barred + {conn}, replies)
  {
  }

  lemma AnsweredBegin(replies: map<Key, Reply>, asked: map<Key, Question>, heard: map<Key, seq<Answer>>, key: Key, q: Question)
    requires Answered(replies, asked, heard) && key !in asked
    ensures Answered(replies, asked[key := q], heard[key := []])
  {
  }

  lemma TracksServed(p: Pending, events: seq<Event>, key: Key, q: Question, heard: seq<Answer>, i: nat, served: Event)
    requires Tracks(p, events, key, q, heard)
    requires i < |events| && served.key == events[i].key && Target(served) == Target(events[i])
    ensures Tracks(p, events[i := served], key, q, heard)
  {
    OutstandingServed(events, i, served, key, 0);
    forall target: nat
      ensures OutstandingAt(events[i := served], key, target) + HeardFrom(heard, target) == Sent(q.targets, target)
    {
      OutstandingServed(events, i, served, key, target);
    }
  }

  lemma TrackedServed(pending: map<ClientId, Pending>, events: seq<Event>, asked: map<Key, Question>,
                      heard: map<Key, seq<Answer>>, i: nat, served: Event)
    requires Tracked(pending, events, asked, heard)
    requires i < |events| && served.key == events[i].key && Target(served) == Target(events[i])
    ensures Tracked(pending, events[i := served], asked, heard)
  {
    forall conn | conn in pending
      ensures var key := Key(conn, pending[conn].op);
        Tracks(pending[conn], events[i := served], key, asked[key], heard[key])
    {
      var key := Key(conn, pending[conn].op);
      TracksServed(pending[conn], events, key, asked[key], heard[key], i, served);
    }
  }

  /** The record after one more answer, as the handler updates it. */
  function Noted(p: Pending, a: Answer): Pending
    requires p.remaining > 0
  {
    if p.kind == List then p.(body := p.body + a.lines, remaining := p.remaining - 1)
    else p.(count := p.count + a.count, remaining := p.remaining - 1)
  }

  lemma HeardMore(heard: seq<Answer>, a: Answer, target: nat)
    ensures Total(heard + [a]) == Total(heard) + a.count && Text(heard + [a]) == Text(heard) + a.lines
    ensures HeardFrom(heard + [a], target) == HeardFrom(heard, target) + Bit(a.target == target)
  {
    assert (heard + [a])[..|heard|] == heard;
  }

  /** Taking a result off the way and adding it to the record keeps the two in step. */
  lemma TracksNoted(p: Pending, events: seq<Event>, key: Key, q: Question, heard: seq<Answer>, i: nat)
    requires Tracks(p, events, key, q, heard) && i < |events| && events[i].Result? && events[i].key == key
    ensures var rest, more := Without(events, i), heard + [events[i].answer];
      var p' := Noted(p, events[i].answer);
      && p'.remaining == Outstanding(rest, key) && Conserved(rest, key, q, more)
      && (if p.kind == List then p'.body == Text(more) else p'.count == Total(more))
  {
    var a := events[i].answer;
    OutstandingWithout(events, i, key, 0);
    HeardMore(heard, a, 0);
    forall target: nat
      ensures OutstandingAt(Without(events, i), key, target) + HeardFrom(heard + [a], target) == Sent(q.targets, target)
    {
      OutstandingWithout(events, i, key, target);
      HeardMore(heard, a, target);
    }
  }

  /** With nothing under way, every thread has answered. */
  lemma LastIsComplete(events: seq<Event>, key: Key, q: Question, heard: seq<Answer>)
    requires Conserved(events, key, q, heard) && Outstanding(events, key) == 0
    ensures Complete(q, heard)
  {
    forall target: nat
      ensures HeardFrom(heard, target) == Sent(q.targets, target)
    {
      OutstandingCovers(events, key, target);
      assert OutstandingAt(events, key, target) + HeardFrom(heard, target) == Sent(q.targets, target);
    }
  }

  lemma TracksOthers(p: Pending, events: seq<Event>, key: Key, q: Question, heard: seq<Answer>, i: nat)
    requires Tracks(p, events, key, q, heard) && i < |events| && events[i].key != key
    ensures Tracks(p, Without(events, i), key, q, heard)
  {
    OutstandingWithout(events, i, key, 0);
    forall target: nat
      ensures OutstandingAt(Without(events, i), key, target) + HeardFrom(heard, target) == Sent(q.targets, target)
    {
      OutstandingWithout(events, i, key, target);
    }
  }

  /** The other records do not notice a result that is not theirs. */
  lemma TrackedOthers(pending: map<ClientId, Pending>, events: seq<Event>, asked: map<Key, Question>,
                      heard: map<Key, seq<Answer>>, i: nat, more: seq<Answer>, rest: map<ClientId, Pending>)
    requires Tracked(pending, events, asked, heard) && i < |events|
    requires forall conn :: conn in rest ==> conn in pending && rest[conn] == pending[conn] && conn != events[i].key.conn
    ensures Tracked(rest, Without(events, i), asked, heard[events[i].key := more])
  {
    forall conn | conn in rest
      ensures var key := Key(conn, rest[conn].op);
        Tracks(rest[conn], Without(events, i), key, asked[key], heard[events[i].key := more][key])
    {
      var key := Key(conn, pending[conn].op);
      TracksOthers(pending[conn], events, key, asked[key], heard[key], i);
    }
  }

  lemma TrackedWith(pending: map<ClientId, Pending>, events: seq<Event>, asked: map<Key, Question>,
                    heard: map<Key, seq<Answer>>, conn: ClientId, p: Pending)
    requires Tracked(pending, events, asked, heard)
    requires Key(conn, p.op) in asked && Key(conn, p.op) in heard
    requires Tracks(p, events, Key(conn, p.op), asked[Key(conn, p.op)], heard[Key(conn, p.op)])
    ensures Tracked(pending[conn := p], events, asked, heard)
  {
  }

  lemma ExpectedWithout(pending: map<ClientId, Pending>, events: seq<Event>, i: nat, p: Pending)
    requires Expected(events, pending) && i < |events| && p.op == events[i].key.op
    ensures Expected(Without(events, i), pending[events[i].key.conn := p])
  {
    var rest := Without(events, i);
    forall j | 0 <= j < |rest|
      ensures IsFor(rest[j], pending[events[i].key.conn := p])
    {
      assert rest[j] == events[if j < i then j else j + 1];
      assert IsFor(events[i], pending);
    }
  }

  lemma {:induction false} OneOutstanding(events: seq<Event>, j: nat)
    requires j < |events|
    ensures Outstanding(events, events[j].key) > 0
  {
    OutstandingWithout(events, j, events[j].key, 0);
  }

  /** Once its last result is in, nothing under way refers to a command. */
  lemma ExpectedLast(pending: map<ClientId, Pending>, events: seq<Event>, i: nat)
    requires Expected(events, pending) && i < |events| && Outstanding(Without(events, i), events[i].key) == 0
    ensures Expected(Without(events, i), pending - {events[i].key.conn})
  {
    var rest := Without(events, i);
    forall j | 0 <= j < |rest|
      ensures IsFor(rest[j], pending - {events[i].key.conn})
    {
      assert rest[j] == events[if j < i then j else j + 1];
      assert IsFor(events[i], pending) && IsFor(rest[j], pending);
      if rest[j].key.conn == events[i].key.conn {
        OneOutstanding(rest, j);
      }
    }
  }

  lemma AnsweredHeard(replies: map<Key, Reply>, asked: map<Key, Question>, heard: map<Key, seq<Answer>>,
                      key: Key, more: seq<Answer>)
    requires Answered(replies, asked, heard) && key !in replies
    ensures Answered(replies, asked, heard[key := more])
  {
  }

  lemma AnsweredLast(replies: map<Key, Reply>, asked: map<Key, Question>, heard: map<Key, seq<Answer>>, key: Key)
    requires Answered(replies, asked, heard) && key in asked && key in heard && Complete(asked[key], heard[key])
    ensures Answered(replies[key := ReplyTo(asked[key], heard[key])], asked, heard)
  {
  }

  lemma WaitingNoted(pending: map<ClientId, Pending>, next: map<ClientId, nat>, barred: set<ClientId>,
                     replies: map<Key, Reply>, conn: ClientId, p: Pending)
    requires Waiting(pending, next, barred, replies) && conn in pending && p.op == pending[conn].op
    ensures Waiting(pending[conn := p], next, barred, replies)
  {
  }

  lemma WaitingLast(pending: map<ClientId, Pending>, next: map<ClientId, nat>, barred: set<ClientId>,
                    replies: map<Key, Reply>, key: Key, reply: Reply)
    requires Waiting(pending, next, barred, replies)
    ensures Waiting(pending - {key.conn}, next, barred, replies)
    ensures Waiting(pending - {key.conn}, next, barred, replies[key := reply])
  {
  }

  // ---- the steps ---------------------------------------------------------------------------------------

  lemma BeginHolds(pending: map<ClientId, Pending>, events: seq<Event>, next: map<ClientId, nat>, barred: set<ClientId>,
                   dead: set<ClientId>, replies: map<Key, Reply>, asked: map<Key, Question>, heard: map<Key, seq<Answer>>,
                   key: Key, q: Question, p: Pending)
    requires Holds(pending, events, next, barred, dead, replies, asked, heard) && q.targets != []
    requires key.conn in next && key.op == next[key.conn] && key.conn !in barred
    requires p == Pending(q.kind, q.oldForm, key.op, |q.targets|, 0, "")
    ensures key.conn !in pending && key !in asked
    ensures Holds(pending[key.conn := p], events + Requests(key, q.targets), next[key.conn := key.op + 1],
                  barred + {key.conn}, dead, replies, asked[key := q], heard[key := []])
  {
    TrackedBegin(pending, events, asked, heard, key, q);
    ExpectedBegin(pending, events, key, q.targets, p);
    WaitingBegin(pending, next, barred, replies, asked, heard, key.conn, p);
    AnsweredBegin(replies, asked, heard, key, q);
  }

  /** A result that its record is waiting for, and the record after it. */
  ghost predicate Arriving(pending: map<ClientId, Pending>, events: seq<Event>, i: nat, p: Pending) {
    && i < |events| && events[i].Result? && IsFor(events[i], pending)
    && pending[events[i].key.conn].remaining > 0 && p == Noted(pending[events[i].key.conn], events[i].answer)
  }

  /** A result finds its record, and the record still waits. */
  lemma Matched(pending: map<ClientId, Pending>, events: seq<Event>, next: map<ClientId, nat>, barred: set<ClientId>,
                dead: set<ClientId>, replies: map<Key, Reply>, asked: map<Key, Question>, heard: map<Key, seq<Answer>>,
                i: nat)
    requires Holds(pending, events, next, barred, dead, replies, asked, heard) && i < |events| && events[i].Result?
    ensures var key := events[i].key;
      && IsFor(events[i], pending) && pending[key.conn].remaining > 0
      && key in asked && key in heard && key !in replies
  {
    var key := events[i].key;
    assert IsFor(events[i], pending);
    assert Key(key.conn, pending[key.conn].op) == key;
  }

  lemma KeepTracked(pending: map<ClientId, Pending>, events: seq<Event>, asked: map<Key, Question>,
                    heard: map<Key, seq<Answer>>, i: nat, p: Pending)
    requires Tracked(pending, events, asked, heard) && Arriving(pending, events, i, p) && p.remaining != 0
    ensures var key := events[i].key;
      key in heard && Tracked(pending[key.conn := p], Without(events, i), asked, heard[key := heard[key] + [events[i].answer]])
  {
    var key := events[i].key;
    assert Key(key.conn, p.op) == key;
    var more := heard[key] + [events[i].answer];
    TracksNoted(pending[key.conn], events, key, asked[key], heard[key], i);
    TrackedOthers(pending, events, asked, heard, i, more, pending - {key.conn});
    TrackedWith(pending - {key.conn}, Without(events, i), asked, heard[key := more], key.conn, p);
    assert (pending - {key.conn})[key.conn := p] == pending[key.conn := p];
  }

  lemma KeepOutstanding(pending: map<ClientId, Pending>, events: seq<Event>, asked: map<Key, Question>,
                        heard: map<Key, seq<Answer>>, i: nat, p: Pending)
    requires Tracked(pending, events, asked, heard) && Arriving(pending, events, i, p) && p.remaining != 0
    ensures Outstanding(Without(events, i), events[i].key) != 0
  {
    var key := events[i].key;
    assert Key(key.conn, p.op) == key;
    TracksNoted(pending[key.conn], events, key, asked[key], heard[key], i);
  }

  lemma KeepHolds(pending: map<ClientId, Pending>, events: seq<Event>, next: map<ClientId, nat>, barred: set<ClientId>,
                   dead: set<ClientId>, replies: map<Key, Reply>, asked: map<Key, Question>, heard: map<Key, seq<Answer>>,
                  i: nat, p: Pending)
    requires Holds(pending, events, next, barred, dead, replies, asked, heard)
    requires Arriving(pending, events, i, p) && p.remaining != 0
    ensures var key := events[i].key;
      key in heard && Holds(pending[key.conn := p], Without(events, i), next, barred, dead, replies, asked,
                            heard[key := heard[key] + [events[i].answer]])
  {
    var key := events[i].key;
    assert Key(key.conn, p.op) == key;
    KeepTracked(pending, events, asked, heard, i, p);
    ExpectedWithout(pending, events, i, p);
    AnsweredHeard(replies, asked, heard, key, heard[key] + [events[i].answer]);
    WaitingNoted(pending, next, barred, replies, key.conn, p);
  }

  /** What the finisher writes into the reply. */
  function Rendered(p: Pending): Reply {
    match p.kind
    case List => Lines(p.body)
    case Unblock => Number(p.count)
    case Kill => if !p.oldForm then Number(p.count) else if p.count != 0 then Ok else NoSuchClient
  }

  lemma FinishTracked(pending: map<ClientId, Pending>, events: seq<Event>, asked: map<Key, Question>,
                      heard: map<Key, seq<Answer>>, i: nat, p: Pending)
    requires Tracked(pending, events, asked, heard) && Arriving(pending, events, i, p) && p.remaining == 0
    ensures var key := events[i].key;
      && key in heard && key in asked && Outstanding(Without(events, i), key) == 0
      && Complete(asked[key], heard[key] + [events[i].answer])
      && Rendered(p) == ReplyTo(asked[key], heard[key] + [events[i].answer])
      && Tracked(pending - {key.conn}, Without(events, i), asked, heard[key := heard[key] + [events[i].answer]])
  {
    var key := events[i].key;
    assert Key(key.conn, p.op) == key;
    var more := heard[key] + [events[i].answer];
    TracksNoted(pending[key.conn], events, key, asked[key], heard[key], i);
    LastIsComplete(Without(events, i), key, asked[key], more);
    TrackedOthers(pending, events, asked, heard, i, more, pending - {key.conn});
  }

  lemma FinishHolds(pending: map<ClientId, Pending>, events: seq<Event>, next: map<ClientId, nat>, barred: set<ClientId>,
                   dead: set<ClientId>, replies: map<Key, Reply>, asked: map<Key, Question>, heard: map<Key, seq<Answer>>,
                    i: nat, p: Pending)
    requires Holds(pending, events, next, barred, dead, replies, asked, heard)
    requires Arriving(pending, events, i, p) && p.remaining == 0
    ensures var key := events[i].key;
      && key in heard && key in asked && Outstanding(Without(events, i), key) == 0
      && Rendered(p) == ReplyTo(asked[key], heard[key] + [events[i].answer])
      && Holds(pending - {key.conn}, Without(events, i), next, barred, dead,
               if key.conn in dead then replies else replies[key := Rendered(p)],
               asked, heard[key := heard[key] + [events[i].answer]])
  {
    var key := events[i].key;
    assert Key(key.conn, p.op) == key;
    var more := heard[key] + [events[i].answer];
    FinishTracked(pending, events, asked, heard, i, p);
    ExpectedLast(pending, events, i);
    AnsweredHeard(replies, asked, heard, key, more);
    AnsweredLast(replies, asked, heard[key := more], key);
    WaitingLast(pending, next, barred, replies, key, Rendered(p));
  }

  class Server {
    /** climon_pending_ of every thread. */
    var pending: map<ClientId, Pending>
    var events: seq<Event>
    /** The next command id of every connection. */
    var next: map<ClientId, nat>
    /** Connections whose parser waits for a scattered command to retire. */
    var barred: set<ClientId>
    var dead: set<ClientId>
    var replies: map<Key, Reply>
    ghost var asked: map<Key, Question>
    ghost var heard: map<Key, seq<Answer>>

    ghost predicate Valid()
      reads this
    {
      Holds(pending, events, next, barred, dead, replies, asked, heard)
    }

    constructor ()
      ensures Valid() && pending == map[] && next == map[] && replies == map[]
    {
      pending, events, next, barred, dead, replies := map[], [], map[], {}, {}, map[];
      asked, heard := map[], map[];
    }

    method Accept(conn: ClientId)
      requires Valid() && conn !in next
      modifies `next
      ensures Valid() && next == old(next)[conn := 0]
    {
      WaitingDispatch(pending, next, barred, replies, conn, 0);
      next := next[conn := 0];
    }

    /** Any other command on a connection whose parser is not barred. */
    method Dispatch(conn: ClientId)
      requires Valid() && conn in next && conn !in barred
      modifies `next
      ensures Valid() && next == old(next)[conn := old(next)[conn] + 1]
    {
      WaitingDispatch(pending, next, barred, replies, conn, next[conn] + 1);
      next := next[conn := next[conn] + 1];
    }

    method Die(conn: ClientId)
      requires Valid()
      modifies `dead
      ensures Valid() && dead == old(dead) + {conn}
    {
      dead := dead + {conn};
    }

    /** The scattered command has been retired, so the parser goes on. */
    method Release(conn: ClientId)
      requires Valid() && conn in next && next[conn] > 0 && Key(conn, next[conn] - 1) in replies
      modifies `barred
      ensures Valid() && barred == old(barred) - {conn}
    {
      WaitingRelease(pending, next, barred, replies, conn);
      barred := barred - {conn};
    }

    /** climon_begin_client_scatter; CLIENT UNBLOCK is the case of a single target. */
    method Begin(conn: ClientId, kind: Kind, oldForm: bool, targets: seq<nat>)
      requires Valid() && conn in next && conn !in barred && targets != []
      modifies `pending, `events, `next, `barred, `asked, `heard
      ensures Valid()
      ensures var key := Key(conn, old(next)[conn]);
        && key !in old(asked) && asked == old(asked)[key := Question(kind, oldForm, targets)]
        && heard == old(heard)[key := []] && events == old(events) + Requests(key, targets)
        && conn in pending && pending == old(pending)[conn := pending[conn]]
        && next == old(next)[conn := key.op + 1] && barred == old(barred) + {conn}
    {
      var key := Key(conn, next[conn]);
      ghost var q := Question(kind, oldForm, targets);
      var p := Pending(kind, oldForm, key.op, |targets|, 0, "");
      BeginHolds(pending, events, next, barred, dead, replies, asked, heard, key, q, p);
      assert conn !in pending;
      var posts := Build(key, targets);
      Record(pending[conn := p], events + posts, next[conn := key.op + 1], barred + {conn}, asked[key := q], heard[key := []]);
    }

    /** Stores the record, publishes the command, bars the parser and posts the requests. */
    method Record(records: map<ClientId, Pending>, posted: seq<Event>, published: map<ClientId, nat>, stopped: set<ClientId>,
                  ghost questions: map<Key, Question>, ghost answers: map<Key, seq<Answer>>)
      requires Holds(records, posted, published, stopped, dead, replies, questions, answers)
      modifies `pending, `events, `next, `barred, `asked, `heard
      ensures Valid() && pending == records && events == posted && next == published && barred == stopped
      ensures asked == questions && heard == answers
    {
      pending, events, next, barred, asked, heard := records, posted, published, stopped, questions, answers;
    }

    /** One request for every target. */
    static method Build(key: Key, targets: seq<nat>) returns (posts: seq<Event>)
      ensures posts == Requests(key, targets)
    {
      posts := [];
      for i := 0 to |targets|
        invariant posts == Requests(key, targets[..i])
      {
        assert targets[..i + 1][..i] == targets[..i];
        posts := posts + [Request(key, targets[i])];
      }
      assert targets[..|targets|] == targets;
    }

    /** A target thread answers a request, with whatever it finds among its own connections. */
    method Serve(i: nat, count: nat, lines: string)
      requires Valid() && i < |events| && events[i].Request?
      modifies `events
      ensures Valid()
      ensures events == old(events)[i := Result(old(events)[i].key, Answer(old(events)[i].to, count, lines))]
    {
      var served := Result(events[i].key, Answer(events[i].to, count, lines));
      TrackedServed(pending, events, asked, heard, i, served);
      assert IsFor(events[i], pending);
      events := events[i := served];
    }

    /** climon_handle_client_result. Neither the unmatched branch nor the abort can be reached. */
    method Receive(i: nat)
      requires Valid() && i < |events| && events[i].Result?
      modifies `pending, `events, `replies, `heard
      ensures Valid() && events == Without(old(events), i)
      ensures var key, a := old(events)[i].key, old(events)[i].answer;
        && key in old(heard) && heard == old(heard)[key := old(heard)[key] + [a]] && key in asked && key !in old(replies)
        && (if Outstanding(events, key) != 0 then key.conn in pending && replies == old(replies)
            else pending == old(pending) - {key.conn}
                 && replies == (if key.conn in dead then old(replies)
                                else old(replies)[key := ReplyTo(asked[key], heard[key])])
                 && (key.conn !in dead ==> Fits(asked[key], heard[key], replies[key])))
    {
      var key, a := events[i].key, events[i].answer;
      Matched(pending, events, next, barred, dead, replies, asked, heard, i);
      var p := Note(pending[key.conn], a);
      if p.remaining == 0 {
        Finish(i, p);
      } else {
        Keep(i, p);
      }
    }

    /** Adds an answer to the record. */
    static method Note(before: Pending, a: Answer) returns (p: Pending)
      requires before.remaining > 0
      ensures p == Noted(before, a)
    {
      p := before;
      if p.kind == List {
        p := p.(body := p.body + a.lines);
      } else {
        p := p.(count := p.count + a.count);
      }
      p := p.(remaining := p.remaining - 1);
    }

    /** More results are to come. */
    method Keep(i: nat, p: Pending)
      requires Valid() && Arriving(pending, events, i, p) && p.remaining != 0
      modifies `pending, `events, `replies, `heard
      ensures Valid() && events == Without(old(events), i) && pending == old(pending)[old(events)[i].key.conn := p]
      ensures replies == old(replies)
      ensures var key := old(events)[i].key;
        && key in old(heard) && heard == old(heard)[key := old(heard)[key] + [old(events)[i].answer]]
        && Outstanding(events, key) != 0
    {
      var key, a := events[i].key, events[i].answer;
      KeepOutstanding(pending, events, asked, heard, i, p);
      KeepHolds(pending, events, next, barred, dead, replies, asked, heard, i, p);
      Settle(pending[key.conn := p], Without(events, i), replies, heard[key := heard[key] + [a]]);
    }

    /** climon_finish_client_pending. */
    method Finish(i: nat, p: Pending)
      requires Valid() && Arriving(pending, events, i, p) && p.remaining == 0
      modifies `pending, `events, `replies, `heard
      ensures Valid() && events == Without(old(events), i) && pending == old(pending) - {old(events)[i].key.conn}
      ensures var key := old(events)[i].key;
        && key in old(heard) && heard == old(heard)[key := old(heard)[key] + [old(events)[i].answer]] && key in asked
        && Outstanding(events, key) == 0
        && replies == (if key.conn in dead then old(replies) else old(replies)[key := ReplyTo(asked[key], heard[key])])
        && (key.conn !in dead ==> Fits(asked[key], heard[key], replies[key]))
    {
      var key := events[i].key;
      FinishHolds(pending, events, next, barred, dead, replies, asked, heard, i, p);
      ReplyFits(asked[key], heard[key] + [events[i].answer]);
      var sent := replies;
      if key.conn !in dead {
        sent := replies[key := Rendered(p)];
      }
      Settle(pending - {key.conn}, Without(events, i), sent, heard[key := heard[key] + [events[i].answer]]);
    }

    method Settle(records: map<ClientId, Pending>, rest: seq<Event>, sent: map<Key, Reply>,
                  ghost answers: map<Key, seq<Answer>>)
      requires Holds(records, rest, next, barred, dead, sent, asked, answers)
      modifies `pending, `events, `replies, `heard
      ensures Valid() && pending == records && events == rest && replies == sent && heard == answers
    {
      pending, events, replies, heard := records, rest, sent, answers;
    }
  }
}
