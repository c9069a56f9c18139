/**
 Progress of the channel in head-of-line order. A sender always takes the least file name of
 its outbox, so an alarm is picked only after every lesser file has been sent, answered and
 removed; a file that cannot be read, is never answered or cannot be removed holds up all the
 others behind it. What a scan has picked goes on even if a lesser file arrives meanwhile.

 `Smooth` are the steps in which nothing crashes, is refused or undone. Main results: from
 every reachable state smooth steps can deliver and remove a file if and only if no stuck
 file stands before it, or the sender is busy with it already (`DeliverableExactly`); without
 stuck files every promised alarm can be (`DeliveryStaysPossible`); and nothing overtakes a
 file that stays, whatever fails (`NothingOvertakes`).
 */
module ChannelProgress {
  import opened Bytes
  import opened MonitorData
  import opened Names
  import opened ReliableChannel

  // ----- the order of the files -----

  type Precedence = (Identity, Identity) -> bool

  predicate Before(a: Identity, b: Identity) {
    Below(FileName(a), FileName(b))
  }

  ghost predicate Orders(before: Precedence) {
    && (forall a: Identity, b: Identity :: before(a, b) || before(b, a))
    && (forall a: Identity, b: Identity :: before(a, b) && before(b, a) ==> a == b)
    && (forall a: Identity, b: Identity, c: Identity :: before(a, b) && before(b, c) ==> before(a, c))
  }

  lemma NamesOrder()
    ensures Orders(Before)
  {
    forall a: Identity, b: Identity ensures Before(a, b) || Before(b, a) {
      BelowTotal(FileName(a), FileName(b));
    }
    forall a: Identity, b: Identity | Before(a, b) && Before(b, a) ensures a == b {
      BelowAntisymmetric(FileName(a), FileName(b));
      FileNameInjective(a, b);
    }
    forall a: Identity, b: Identity, c: Identity | Before(a, b) && Before(b, c) ensures Before(a, c) {
      BelowTransitive(FileName(a), FileName(b), FileName(c));
    }
  }

  /** The files of one source's outbox. */
  function Files(outbox: Directory, source: u64): (ids: set<Identity>) {
    set id | id in outbox && id.source == source && outbox[id].current.Some?
  }

  /** The file the scan picks. */
  ghost predicate Head(before: Precedence, outbox: Directory, id: Identity) {
    id in Files(outbox, id.source) && forall other <- Files(outbox, id.source) :: before(id, other)
  }

  lemma {:induction false} Least(before: Precedence, files: set<Identity>) returns (least: Identity)
    requires Orders(before) && files != {}
    ensures least in files && forall other <- files :: before(least, other)
    decreases |files|
  {
    least :| least in files;
    if files != {least} {
      var rest := Least(before, files - {least});
      if !before(least, rest) {
        least := rest;
      }
    }
  }

  // ----- steps in which nothing fails -----

  /** The file the sender's thread is busy with. */
  predicate Engaged(p: Senders, id: Identity) {
    match WorkerOf(p, id.source)
    case Idle => false
    case Picked(other) => other == id
    case Waiting(m) => m.id == id
    case Removing(other) => other == id
  }

  /**
   Nothing crashes, nothing is refused and nothing has to be undone. A scan picks the head of
   the line; what is picked is sent, whatever has arrived since. A frame may arrive while its
   sender waits for it, an answer is taken from the present collector process, and a thread
   may give up what it is doing, as it does after a timeout. Files in `stuck` are never read,
   answered or removed; they may be picked.
   */
  ghost predicate Smooth(before: Precedence, stuck: set<Identity>, s: State, step: Step) {
    match step
    case SenderMoves(EnqueueRename(_)) => true
    case SenderMoves(EnqueueReturn(_)) => true
    case SenderMoves(OutboxSync(_)) => true
    case SenderMoves(GiveUp(_)) => true
    case SenderMoves(Pick(id)) => Head(before, s.senders.outbox, id)
    case SenderMoves(Send(m)) => m.id !in stuck
    case SenderMoves(TakeAck(ack)) => ack.id !in stuck && ack.process == s.receiver.process
    case SenderMoves(RemoveSent(source)) =>
      WorkerOf(s.senders, source).Removing? ==> WorkerOf(s.senders, source).id !in stuck
    case SenderMoves(_) => false
    case ReceiverMoves(Receive(m)) => WorkerOf(s.senders, m.id.source) == Waiting(m)
    case ReceiverMoves(Answer(delivered)) => delivered
    case ReceiverMoves(move) =>
      move.InboxSync? || move.StoreReturn? || move.Ingest? || move.Accept? || move.Recover? || move.RecoveryDone?
  }

  ghost predicate Goes(before: Precedence, stuck: set<Identity>, s: State, next: State) {
    exists step: Step :: Smooth(before, stuck, s, step) && Next(s, step, next)
  }

  type Relation = (State, State) -> bool

  ghost function Smoothly(before: Precedence, stuck: set<Identity>): (go: Relation) {
    (s: State, next: State) => Goes(before, stuck, s, next)
  }

  /** A relation that has every smooth step; the constructions below need no more of it. */
  ghost predicate Admits(go: Relation, before: Precedence, stuck: set<Identity>) {
    forall s: State, step: Step, next: State :: Smooth(before, stuck, s, step) && Next(s, step, next) ==> go(s, next)
  }

  // ----- paths -----

  /** `n` steps of a relation lead from `s` to `t`. */
  ghost predicate Reaches<S(!new)>(go: (S, S) -> bool, s: S, t: S, n: nat)
    decreases n
  {
    if n == 0 then s == t else exists next: S :: go(s, next) && Reaches(go, next, t, n - 1)
  }

  ghost predicate Leads<S(!new)>(go: (S, S) -> bool, s: S, t: S) {
    exists n: nat :: Reaches(go, s, t, n)
  }

  lemma Nowhere<S(!new)>(go: (S, S) -> bool, s: S)
    ensures Leads(go, s, s)
  {
    assert Reaches(go, s, s, 0);
  }

  lemma One<S(!new)>(go: (S, S) -> bool, s: S, t: S)
    requires go(s, t)
    ensures Leads(go, s, t)
  {
    assert Reaches(go, t, t, 0);
    assert Reaches(go, s, t, 1);
  }

  lemma {:induction false} ReachesThen<S(!new)>(go: (S, S) -> bool, s: S, t: S, u: S, n: nat, m: nat)
    requires Reaches(go, s, t, n) && Reaches(go, t, u, m)
    ensures Reaches(go, s, u, n + m)
    decreases n
  {
    if n > 0 {
      var next: S :| go(s, next) && Reaches(go, next, t, n - 1);
      ReachesThen(go, next, t, u, n - 1, m);
    }
  }

  lemma Then<S(!new)>(go: (S, S) -> bool, s: S, t: S, u: S)
    requires Leads(go, s, t) && Leads(go, t, u)
    ensures Leads(go, s, u)
  {
    var n: nat :| Reaches(go, s, t, n);
    var m: nat :| Reaches(go, t, u, m);
    ReachesThen(go, s, t, u, n, m);
  }

  lemma {:induction false} KeepsTrue<S(!new)>(go: (S, S) -> bool, holds: S -> bool, s: S, t: S, n: nat)
    requires (forall x: S, y: S :: holds(x) && go(x, y) ==> holds(y)) && holds(s) && Reaches(go, s, t, n)
    ensures holds(t)
    decreases n
  {
    if n > 0 {
      var next: S :| go(s, next) && Reaches(go, next, t, n - 1);
      KeepsTrue(go, holds, next, t, n - 1);
    }
  }

  lemma StaysTrue<S(!new)>(go: (S, S) -> bool, holds: S -> bool, s: S, t: S)
    requires (forall x: S, y: S :: holds(x) && go(x, y) ==> holds(y)) && holds(s) && Leads(go, s, t)
    ensures holds(t)
  {
    var n: nat :| Reaches(go, s, t, n);
    KeepsTrue(go, holds, s, t, n);
  }

  // ----- what the threads are in the middle of -----

  /** A store under way has renamed its file; a thread is busy with a file of its own source. */
  ghost predicate SendersLive(p: Senders, sent: set<Message>) {
    && (forall source <- p.storing ::
          var m := p.storing[source]; m.id.source == source && At(p.outbox, m.id).current == Some(m.bytes))
    && (forall source <- p.workers ::
          match p.workers[source]
          case Idle => true
          case Picked(id) => id.source == source
          case Waiting(m) => m.id.source == source && m in sent
          case Removing(id) => id.source == source)
  }

  ghost predicate ReceiverLive(r: Receiver) {
    r.collector.Publishing? ==> At(r.inbox, r.collector.message.id).current == Some(r.collector.message.bytes)
  }

  ghost predicate Live(s: State) {
    SendersLive(s.senders, s.sent) && ReceiverLive(s.receiver)
  }

  lemma NextKeepsLive(s: State, step: Step, next: State)
    requires Live(s) && Next(s, step, next)
    ensures Live(next)
  {
    match step
    case SenderMoves(move) => SenderKeepsLive(s, move, next);
    case ReceiverMoves(move) =>
  }

  lemma SenderKeepsLive(s: State, step: SenderStep, next: State)
    requires SendersLive(s.senders, s.sent) && Next(s, SenderMoves(step), next)
    ensures SendersLive(next.senders, next.sent)
  {
  }

  ghost predicate Well(s: State) {
    Base(s) && Live(s)
  }

  lemma {:induction false} RunIsWell(states: seq<State>, steps: seq<Step>, k: nat)
    requires Run(states, steps) && k <= |steps|
    ensures Well(states[k])
  {
    RunKeepsBase(states, steps, k);
    if k > 0 {
      RunIsWell(states, steps, k - 1);
      NextKeepsLive(states[k - 1], steps[k - 1], states[k]);
    }
  }

  /** One smooth step. */
  lemma Go(go: Relation, before: Precedence, stuck: set<Identity>, s: State, step: Step, next: State)
    requires Admits(go, before, stuck) && Well(s) && Smooth(before, stuck, s, step) && Next(s, step, next)
    ensures Leads(go, s, next) && Well(next)
  {
    NextKeepsBase(s, step, next);
    NextKeepsLive(s, step, next);
    One(go, s, next);
  }

  // ----- the collector comes back to its socket -----

  function Unrest(c: Collector): (n: nat) {
    match c
    case Recovering(todo) => |todo| + 1
    case Listening => 0
    case Publishing(_) => 4
    case Holding(_) => 3
    case Ingested(_) => 2
    case Answering(_) => 1
  }

  /** Whose frame the collector is working on. */
  function Serves(c: Collector): (id: Option<Identity>) {
    match c
    case Recovering(_) => None
    case Listening => None
    case Publishing(m) => Some(m.id)
    case Holding(id) => Some(id)
    case Ingested(id) => Some(id)
    case Answering(id) => Some(id)
  }

  /** Only the collector has moved on; what it worked on is still its work or is answered. */
  ghost predicate Advances(s: State, t: State) {
    && t == s.(receiver := t.receiver, acks := t.acks) && s.acks <= t.acks && t.receiver.process == s.receiver.process
    && (Serves(s.receiver.collector).Some? ==>
          || Serves(t.receiver.collector) == Serves(s.receiver.collector)
          || Ack(Serves(s.receiver.collector).value, s.receiver.process) in t.acks)
  }

  lemma StoreAdvances(go: Relation, before: Precedence, stuck: set<Identity>, s: State) returns (t: State)
    requires Admits(go, before, stuck) && Well(s) && s.receiver.collector.Publishing?
    ensures Leads(go, s, t) && Well(t) && Advances(s, t)
    ensures t.receiver.collector == Holding(s.receiver.collector.message.id)
  {
    var r, m := s.receiver, s.receiver.collector.message;
    var a := s.(receiver := r.(inbox := Flush(r.inbox, m.id.source)));
    t := a.(receiver := a.receiver.(collector := Holding(m.id)));
    Go(go, before, stuck, s, ReceiverMoves(InboxSync(m.id.source)), a);
    Go(go, before, stuck, a, ReceiverMoves(StoreReturn), t);
    Then(go, s, a, t);
  }

  lemma SettleStep(go: Relation, before: Precedence, stuck: set<Identity>, s: State) returns (t: State)
    requires Admits(go, before, stuck) && Well(s) && s.receiver.collector != Listening
    ensures Leads(go, s, t) && Well(t) && Advances(s, t) && Unrest(t.receiver.collector) < Unrest(s.receiver.collector)
  {
    var r := s.receiver;
    match r.collector
    case Publishing(_) => t := StoreAdvances(go, before, stuck, s);
    case Recovering(todo) => t := RecoveryAdvances(go, before, stuck, s);
    case Holding(id) =>
      t := s.(receiver := r.(collector := Ingested(id), ingested := r.ingested + multiset{(r.process, id)}));
      Go(go, before, stuck, s, ReceiverMoves(Ingest), t);
    case Ingested(id) =>
      t := s.(receiver := r.(collector := Answering(id), accepted := r.accepted + {id},
                             confirmed := r.confirmed + {id}));
      Go(go, before, stuck, s, ReceiverMoves(Accept), t);
    case Answering(id) =>
      t := s.(receiver := r.(collector := Listening), acks := s.acks + {Ack(id, r.process)});
      Go(go, before, stuck, s, ReceiverMoves(Answer(true)), t);
  }

  lemma RecoveryAdvances(go: Relation, before: Precedence, stuck: set<Identity>, s: State) returns (t: State)
    requires Admits(go, before, stuck) && Well(s) && s.receiver.collector.Recovering?
    ensures Leads(go, s, t) && Well(t) && Advances(s, t) && Unrest(t.receiver.collector) < Unrest(s.receiver.collector)
  {
    var r, todo := s.receiver, s.receiver.collector.todo;
    if todo == {} {
      t := s.(receiver := r.(collector := Listening));
      Go(go, before, stuck, s, ReceiverMoves(RecoveryDone), t);
    } else {
      var id :| id in todo;
      t := s.(receiver := r.(collector := Recovering(todo - {id}), accepted := r.accepted + {id},
                             confirmed := r.confirmed + {id}, ingested := r.ingested + multiset{(r.process, id)}));
      Go(go, before, stuck, s, ReceiverMoves(Recover(id)), t);
    }
  }

  /** The collector finishes what it is doing, and answers it. */
  lemma {:induction false} Settle(go: Relation, before: Precedence, stuck: set<Identity>, s: State) returns (t: State)
    requires Admits(go, before, stuck) && Well(s)
    ensures Leads(go, s, t) && Well(t) && Advances(s, t) && t.receiver.collector == Listening
    decreases Unrest(s.receiver.collector)
  {
    if s.receiver.collector == Listening {
      Nowhere(go, s);
      return s;
    }
    var a := SettleStep(go, before, stuck, s);
    t := Settle(go, before, stuck, a);
    Then(go, s, a, t);
  }

  // ----- the sender's side -----

  predicate Ready(s: State, source: u64) {
    s.receiver.collector == Listening && source !in s.senders.storing
  }

  /** An enqueue under way syncs its directory and returns. */
  lemma FinishStoring(go: Relation, before: Precedence, stuck: set<Identity>, s: State, source: u64) returns (t: State)
    requires Admits(go, before, stuck) && Well(s) && s.receiver.collector == Listening
    ensures Leads(go, s, t) && Well(t) && Ready(t, source) && t.senders.workers == s.senders.workers
    ensures forall id: Identity :: At(t.senders.outbox, id).current == At(s.senders.outbox, id).current
  {
    var p := s.senders;
    if source !in p.storing {
      Nowhere(go, s);
      return s;
    }
    var m := p.storing[source];
    var a := s.(senders := p.(outbox := Flush(p.outbox, source)));
    t := a.(senders := a.senders.(storing := p.storing - {source}, promised := p.promised[m.id := m.bytes]));
    Go(go, before, stuck, s, SenderMoves(OutboxSync(source)), a);
    Go(go, before, stuck, a, SenderMoves(EnqueueReturn(source)), t);
    Then(go, s, a, t);
  }

  /** The frame a thread waits for is received, stored, ingested and answered. */
  lemma Fetch(go: Relation, before: Precedence, stuck: set<Identity>, s: State, m: Message) returns (t: State)
    requires Admits(go, before, stuck) && Well(s) && Ready(s, m.id.source) && m.id !in stuck
    requires WorkerOf(s.senders, m.id.source) == Waiting(m)
    ensures Leads(go, s, t) && Well(t) && t.receiver.collector == Listening && m.id in t.receiver.accepted
    ensures t.senders == s.senders.(workers := s.senders.workers[m.id.source := Removing(m.id)])
  {
    var a := Received(go, before, stuck, s, m);
    var b := Settle(go, before, stuck, a);
    Then(go, s, a, b);
    var ack := Ack(m.id, b.receiver.process);
    t := b.(senders := b.senders.(workers := b.senders.workers[m.id.source := Removing(m.id)]));
    Go(go, before, stuck, b, SenderMoves(TakeAck(ack)), t);
    Then(go, s, b, t);
  }

  lemma Received(go: Relation, before: Precedence, stuck: set<Identity>, s: State, m: Message) returns (t: State)
    requires Admits(go, before, stuck) && Well(s) && s.receiver.collector == Listening
    requires WorkerOf(s.senders, m.id.source) == Waiting(m)
    ensures Leads(go, s, t) && Well(t) && t == s.(receiver := t.receiver)
    ensures t.receiver.process == s.receiver.process && Serves(t.receiver.collector) == Some(m.id)
  {
    var r := s.receiver;
    var next := if m.id in r.accepted then r.(collector := Answering(m.id))
                else if At(r.inbox, m.id).current.Some? then r.(collector := Holding(m.id))
                else r.(collector := Publishing(m), inbox := Put(r.inbox, m.id, Some(m.bytes)));
    t := s.(receiver := next);
    Go(go, before, stuck, s, ReceiverMoves(Receive(m)), t);
  }

  /** Accepted by the collector, and gone from the outbox for good. */
  predicate Delivered(s: State, id: Identity) {
    id in s.receiver.confirmed && At(s.senders.outbox, id) == Entry(None, {None})
  }

  /** The answered file is unlinked and its directory synced. */
  lemma Drop(go: Relation, before: Precedence, stuck: set<Identity>, s: State, id: Identity) returns (t: State)
    requires Admits(go, before, stuck) && Well(s) && Ready(s, id.source) && id !in stuck
    requires WorkerOf(s.senders, id.source) == Removing(id)
    ensures Leads(go, s, t) && Well(t) && Ready(t, id.source) && WorkerOf(t.senders, id.source) == Idle
    ensures Delivered(t, id)
    ensures t.receiver == s.receiver && t.senders.used == s.senders.used
    ensures forall other: Identity :: other != id ==>
      At(t.senders.outbox, other).current == At(s.senders.outbox, other).current
  {
    var p := s.senders;
    var a := s.(senders := p.(workers := p.workers[id.source := Idle], outbox := Put(p.outbox, id, None)));
    t := a.(senders := a.senders.(outbox := Flush(a.senders.outbox, id.source)));
    Go(go, before, stuck, s, SenderMoves(RemoveSent(id.source)), a);
    Go(go, before, stuck, a, SenderMoves(OutboxSync(id.source)), t);
    Then(go, s, a, t);
  }

  /** Taken on by the present collector process, and in its inbox with the frame made for it. */
  ghost predicate Arrived(s: State, id: Identity) {
    && id in s.receiver.accepted && id in s.senders.used
    && At(s.receiver.inbox, id).current == Some(s.senders.used[id])
  }

  lemma AcceptedHasArrived(s: State, id: Identity)
    requires Base(s) && id in s.receiver.accepted
    ensures Arrived(s, id)
  {
    assert Genuine(s.senders.used, id, At(s.receiver.inbox, id));
  }

  /** What a thread has picked is sent, answered and removed. */
  lemma ServePicked(go: Relation, before: Precedence, stuck: set<Identity>, s: State, id: Identity) returns (t: State)
    requires Admits(go, before, stuck) && Well(s) && Ready(s, id.source) && id !in stuck
    requires WorkerOf(s.senders, id.source) == Picked(id) && At(s.senders.outbox, id).current.Some?
    ensures Leads(go, s, t) && Well(t) && Ready(t, id.source) && WorkerOf(t.senders, id.source) == Idle
    ensures Delivered(t, id) && Arrived(t, id)
    ensures forall other: Identity :: other != id ==>
      At(t.senders.outbox, other).current == At(s.senders.outbox, other).current
  {
    var m := Message(id, At(s.senders.outbox, id).current.value);
    var a := s.(senders := s.senders.(workers := s.senders.workers[id.source := Waiting(m)]), sent := s.sent + {m});
    Go(go, before, stuck, s, SenderMoves(Send(m)), a);
    var b := Fetch(go, before, stuck, a, m);
    Then(go, s, a, b);
    t := Drop(go, before, stuck, b, id);
    Then(go, s, b, t);
    AcceptedHasArrived(t, id);
  }

  /** The head of the line is picked, sent, answered and removed. */
  lemma Serve(go: Relation, before: Precedence, stuck: set<Identity>, s: State, id: Identity) returns (t: State)
    requires Admits(go, before, stuck) && Well(s) && Ready(s, id.source) && WorkerOf(s.senders, id.source) == Idle
    requires Head(before, s.senders.outbox, id) && id !in stuck
    ensures Leads(go, s, t) && Well(t) && Ready(t, id.source) && WorkerOf(t.senders, id.source) == Idle
    ensures Delivered(t, id) && Arrived(t, id)
    ensures Files(t.senders.outbox, id.source) == Files(s.senders.outbox, id.source) - {id}
  {
    var a := s.(senders := s.senders.(workers := s.senders.workers[id.source := Picked(id)]));
    Go(go, before, stuck, s, SenderMoves(Pick(id)), a);
    t := ServePicked(go, before, stuck, a, id);
    Then(go, s, a, t);
    FilesLessOne(s.senders.outbox, t.senders.outbox, id);
  }

  lemma FilesLessOne(outbox: Directory, next: Directory, id: Identity)
    requires At(next, id).current == None
    requires forall other: Identity :: other != id ==> At(next, other).current == At(outbox, other).current
    ensures Files(next, id.source) == Files(outbox, id.source) - {id}
  {
    forall other: Identity ensures other in Files(next, id.source) <==> other in Files(outbox, id.source) - {id} {
      assert other in Files(next, id.source) <==> other.source == id.source && At(next, other).current.Some?;
      assert other in Files(outbox, id.source) <==> other.source == id.source && At(outbox, other).current.Some?;
    }
  }

  /** The files that go first. */
  ghost function Line(before: Precedence, outbox: Directory, id: Identity): (ids: set<Identity>) {
    set other | other in Files(outbox, id.source) && before(other, id)
  }

  lemma {:induction false} ClearLine(go: Relation, before: Precedence, stuck: set<Identity>, s: State, id: Identity)
    returns (t: State)
    requires Orders(before) && Admits(go, before, stuck) && Well(s) && Ready(s, id.source)
    requires WorkerOf(s.senders, id.source) == Idle
    requires id in Files(s.senders.outbox, id.source) && Line(before, s.senders.outbox, id) !! stuck
    ensures Leads(go, s, t) && Delivered(t, id) && Arrived(t, id)
    decreases |Line(before, s.senders.outbox, id)|
  {
    var head := Least(before, Files(s.senders.outbox, id.source));
    assert head in Line(before, s.senders.outbox, id);
    var a := Serve(go, before, stuck, s, head);
    if head == id {
      return a;
    }
    LineShrinks(before, s.senders.outbox, a.senders.outbox, id, head);
    t := ClearLine(go, before, stuck, a, id);
    Then(go, s, a, t);
  }

  lemma LineShrinks(before: Precedence, outbox: Directory, next: Directory, id: Identity, head: Identity)
    requires Files(next, id.source) == Files(outbox, id.source) - {head} && head in Line(before, outbox, id)
    ensures Line(before, next, id) == Line(before, outbox, id) - {head}
    ensures |Line(before, next, id)| < |Line(before, outbox, id)|
  {
    assert Line(before, next, id) == Line(before, outbox, id) - {head};
  }

  // ----- exactly when the head of the line blocks -----

  /** A stuck file stands before the alarm, which the sender is not already busy with; or it is stuck itself. */
  ghost predicate Held(before: Precedence, stuck: set<Identity>, p: Senders, id: Identity) {
    exists b: Identity ::
      b in stuck && b in Files(p.outbox, id.source) && before(b, id) && (b == id || !Engaged(p, id))
  }

  lemma Deliver(go: Relation, before: Precedence, stuck: set<Identity>, s: State, id: Identity) returns (t: State)
    requires Orders(before) && Admits(go, before, stuck) && Well(s)
    requires id in Files(s.senders.outbox, id.source) && !Held(before, stuck, s.senders, id)
    ensures Leads(go, s, t) && Delivered(t, id)
  {
    var a := Settle(go, before, stuck, s);
    var b := FinishStoring(go, before, stuck, a, id.source);
    Then(go, s, a, b);
    assert before(id, id) && id !in stuck;
    SameFiles(s.senders.outbox, b.senders.outbox, id.source);
    if Engaged(s.senders, id) {
      t := FinishEngaged(go, before, stuck, b, id);
    } else {
      t := GiveUpAndClear(go, before, stuck, b, id);
    }
    Then(go, s, b, t);
  }

  lemma SameFiles(outbox: Directory, next: Directory, source: u64)
    requires forall id: Identity :: At(next, id).current == At(outbox, id).current
    ensures Files(next, source) == Files(outbox, source)
  {
    forall id: Identity ensures id in Files(next, source) <==> id in Files(outbox, source) {
      assert At(next, id).current == At(outbox, id).current;
    }
  }

  /** A file the sender is busy with goes first, whatever stands before it. */
  lemma FinishEngaged(go: Relation, before: Precedence, stuck: set<Identity>, s: State, id: Identity) returns (t: State)
    requires Admits(go, before, stuck) && Well(s) && Ready(s, id.source) && Engaged(s.senders, id) && id !in stuck
    requires At(s.senders.outbox, id).current.Some?
    ensures Leads(go, s, t) && Delivered(t, id)
  {
    var w := WorkerOf(s.senders, id.source);
    if w.Picked? {
      t := ServePicked(go, before, stuck, s, id);
      return;
    }
    var a := s;
    Nowhere(go, s);
    if w.Waiting? {
      a := Fetch(go, before, stuck, s, w.message);
    }
    t := Drop(go, before, stuck, a, id);
    Then(go, s, a, t);
  }

  lemma GiveUpAndClear(go: Relation, before: Precedence, stuck: set<Identity>, s: State, id: Identity)
    returns (t: State)
    requires Orders(before) && Admits(go, before, stuck) && Well(s) && Ready(s, id.source)
    requires id in Files(s.senders.outbox, id.source) && Line(before, s.senders.outbox, id) !! stuck
    ensures Leads(go, s, t) && Delivered(t, id) && Arrived(t, id)
  {
    var a := s.(senders := s.senders.(workers := s.senders.workers[id.source := Idle]));
    Go(go, before, stuck, s, SenderMoves(GiveUp(id.source)), a);
    t := ClearLine(go, before, stuck, a, id);
    Then(go, s, a, t);
  }

  /** A held file is there and stays held. */
  ghost predicate Blocked(before: Precedence, stuck: set<Identity>, s: State, b: Identity, id: Identity) {
    && Live(s) && b.source == id.source && b in stuck && before(b, id)
    && At(s.senders.outbox, b).current.Some? && At(s.senders.outbox, id).current.Some?
    && (b == id || !Engaged(s.senders, id))
  }

  lemma HeadComesFirst(before: Precedence, outbox: Directory, id: Identity, other: Identity)
    requires id.source == other.source && At(outbox, other).current.Some?
    ensures Head(before, outbox, id) ==> before(id, other)
  {
    assert other in Files(outbox, id.source);
  }

  lemma BlockedStep(before: Precedence, stuck: set<Identity>, s: State, step: Step, next: State, b: Identity,
                    id: Identity)
    requires Orders(before) && Blocked(before, stuck, s, b, id) && Smooth(before, stuck, s, step) && Next(s, step, next)
    ensures Blocked(before, stuck, next, b, id)
  {
    NextKeepsLive(s, step, next);
    HeadComesFirst(before, s.senders.outbox, id, b);
  }

  lemma BlockedGoes(before: Precedence, stuck: set<Identity>, s: State, next: State, b: Identity, id: Identity)
    requires Orders(before) && Blocked(before, stuck, s, b, id) && Goes(before, stuck, s, next)
    ensures Blocked(before, stuck, next, b, id)
  {
    var step: Step :| Smooth(before, stuck, s, step) && Next(s, step, next);
    BlockedStep(before, stuck, s, step, next, b, id);
  }

  lemma SmoothlyAdmits(before: Precedence, stuck: set<Identity>)
    ensures Admits(Smoothly(before, stuck), before, stuck)
  {
    forall s: State, step: Step, next: State | Smooth(before, stuck, s, step) && Next(s, step, next)
      ensures Smoothly(before, stuck)(s, next)
    {
      assert Goes(before, stuck, s, next);
    }
  }

  ghost predicate Deliverable(before: Precedence, stuck: set<Identity>, s: State, id: Identity) {
    exists t: State :: Leads(Smoothly(before, stuck), s, t) && Delivered(t, id)
  }

  lemma HeldIsNotDeliverable(before: Precedence, stuck: set<Identity>, s: State, id: Identity)
    requires Orders(before) && Live(s) && id in Files(s.senders.outbox, id.source) && Held(before, stuck, s.senders, id)
    ensures !Deliverable(before, stuck, s, id)
  {
    var b: Identity :|
      b in stuck && b in Files(s.senders.outbox, id.source) && before(b, id) && (b == id || !Engaged(s.senders, id));
    var go, held := Smoothly(before, stuck), (x: State) => Blocked(before, stuck, x, b, id);
    forall x: State, y: State | held(x) && go(x, y) ensures held(y) {
      BlockedGoes(before, stuck, x, y, b, id);
    }
    forall t: State | Leads(go, s, t) ensures !Delivered(t, id) {
      StaysTrue(go, held, s, t);
    }
  }

  /**
   From every reachable state, whatever was lost or crashed before: a file can be delivered
   and removed by smooth steps if and only if it is not held.
   */
  lemma DeliverableExactly(states: seq<State>, steps: seq<Step>, k: nat, stuck: set<Identity>, id: Identity)
    requires Run(states, steps) && k <= |steps| && id in Files(states[k].senders.outbox, id.source)
    ensures Deliverable(Before, stuck, states[k], id) <==> !Held(Before, stuck, states[k].senders, id)
  {
    RunIsWell(states, steps, k);
    NamesOrder();
    if Held(Before, stuck, states[k].senders, id) {
      HeldIsNotDeliverable(Before, stuck, states[k], id);
    } else {
      SmoothlyAdmits(Before, stuck);
      var t := Deliver(Smoothly(Before, stuck), Before, stuck, states[k], id);
    }
  }

  lemma DeliverAgain(go: Relation, before: Precedence, s: State, id: Identity) returns (t: State)
    requires Orders(before) && Admits(go, before, {}) && Well(s) && id in Files(s.senders.outbox, id.source)
    ensures Leads(go, s, t) && Delivered(t, id) && Arrived(t, id)
  {
    var a := Settle(go, before, {}, s);
    var b := FinishStoring(go, before, {}, a, id.source);
    Then(go, s, a, b);
    SameFiles(s.senders.outbox, b.senders.outbox, id.source);
    t := GiveUpAndClear(go, before, {}, b, id);
    Then(go, s, b, t);
  }

  /**
   Without stuck files, from every state of every run: a promised alarm has been accepted and
   its file removed, or it is still in the outbox and can reach the present collector's inbox
   and be removed, even if an earlier acceptance was undone by a power loss.
   */
  lemma DeliveryStaysPossible(states: seq<State>, steps: seq<Step>, k: nat, id: Identity)
    requires Run(states, steps) && k <= |steps| && id in states[k].senders.promised
    ensures if At(states[k].senders.outbox, id).current.None? then id in states[k].receiver.confirmed
      else exists t: State :: Leads(Smoothly(Before, {}), states[k], t) && Delivered(t, id) && Arrived(t, id)
  {
    RunIsWell(states, steps, k);
    if At(states[k].senders.outbox, id).current.Some? {
      NamesOrder();
      SmoothlyAdmits(Before, {});
      var t := DeliverAgain(Smoothly(Before, {}), Before, states[k], id);
    }
  }

  // ----- whatever fails -----

  /** Scans pick the head of the line, as long as they pass over no file. */
  ghost predicate InLine(before: Precedence, s: State, step: Step) {
    step.SenderMoves? && step.sender.Pick? ==> Head(before, s.senders.outbox, step.sender.id)
  }

  /** Promised, safe in the outbox, and not the file the sender is busy with. */
  ghost predicate Queued(p: Senders, id: Identity, bytes: Content) {
    && id in p.promised && p.promised[id] == bytes && Settled(At(p.outbox, id), bytes) && !Engaged(p, id)
  }

  lemma NotEngagedStep(p: Senders, acks: set<Ack>, step: SenderStep, next: Senders, id: Identity)
    requires SenderNext(p, acks, step, next) && !Engaged(p, id) && step != Pick(id)
    ensures !Engaged(next, id)
  {
  }

  lemma StaysQueued(p: Senders, sent: set<Message>, acks: set<Ack>, step: SenderStep, next: Senders, id: Identity,
                    bytes: Content)
    requires SenderNext(p, acks, step, next) && Queued(p, id, bytes) && step != Pick(id)
    requires StoringOk(p) && SendersLive(p, sent) && id in p.used
    ensures Queued(next, id, bytes)
  {
    NotEngagedStep(p, acks, step, next, id);
  }

  lemma OvertakingStep(before: Precedence, s: State, step: Step, next: State, b: Identity, id: Identity, bytes: Content)
    requires Orders(before) && Next(s, step, next) && InLine(before, s, step) && Well(s)
    requires b != id && b.source == id.source && before(b, id) && At(s.senders.outbox, b).current.Some?
    requires Queued(s.senders, id, bytes)
    ensures Queued(next.senders, id, bytes)
  {
    if step.SenderMoves? {
      HeadComesFirst(before, s.senders.outbox, id, b);
      StaysQueued(s.senders, s.sent, s.acks, step.sender, next.senders, id, bytes);
    }
  }

  lemma {:induction false} HoldsAlong<S(!new)>(holds: S -> bool, states: seq<S>, j: nat, k: nat)
    requires j <= k < |states| && holds(states[j])
    requires forall i :: j <= i < k && holds(states[i]) ==> holds(states[i + 1])
    ensures holds(states[k])
  {
    if j < k {
      HoldsAlong(holds, states, j, k - 1);
      assert holds(states[k - 1 + 1]);
    }
  }

  lemma StepInRun(before: Precedence, states: seq<State>, steps: seq<Step>, i: nat, b: Identity, id: Identity,
                  bytes: Content)
    requires Orders(before) && Run(states, steps) && i < |steps| && b != id && b.source == id.source && before(b, id)
    requires InLine(before, states[i], steps[i]) && At(states[i].senders.outbox, b).current.Some?
    requires Queued(states[i].senders, id, bytes)
    ensures Queued(states[i + 1].senders, id, bytes)
  {
    RunIsWell(states, steps, i);
    OvertakingStep(before, states[i], steps[i], states[i + 1], b, id, bytes);
  }

  /**
   In every run, with every kind of failure: while a lesser file stays in the outbox, a
   promised alarm that no scan has picked before is neither picked, sent nor removed.
   */
  lemma NothingOvertakes(states: seq<State>, steps: seq<Step>, j: nat, k: nat, b: Identity, id: Identity,
                         bytes: Content)
    requires Run(states, steps) && j <= k <= |steps| && b != id && b.source == id.source && Before(b, id)
    requires forall i :: j <= i < k ==>
      InLine(Before, states[i], steps[i]) && At(states[i].senders.outbox, b).current.Some?
    requires Queued(states[j].senders, id, bytes)
    ensures Queued(states[k].senders, id, bytes)
  {
    NamesOrder();
    var queued := (s: State) => Queued(s.senders, id, bytes);
    forall i | j <= i < k && queued(states[i]) ensures queued(states[i + 1]) {
      StepInRun(Before, states, steps, i, b, id, bytes);
    }
    HoldsAlong(queued, states, j, k);
  }
}
