/**
 Progress that does not depend on a lucky schedule. `Diligent` are the smooth steps that do
 something: no new alarms, no waiting given up, no sync of what is synced, no frame received
 twice. Main results: whatever order they come in, only so many are possible from a reachable
 state (`DiligenceIsBounded`), and where no more is possible every outbox is empty and every
 promised alarm has been accepted (`DrainedWhenDone`).
 */
module ChannelDrain {
  import opened Bytes
  import opened MonitorData
  import opened Names
  import opened ReliableChannel
  import opened ChannelProgress

  // ----- sums -----

  ghost function Sum<T(!new)>(w: T -> nat, items: set<T>): (n: nat) {
    if items == {} then 0
    else
      var x :| x in items;
      w(x) + Sum(w, items - {x})
  }

  lemma {:induction false} SumRemove<T(!new)>(w: T -> nat, items: set<T>, x: T)
    requires x in items
    ensures Sum(w, items) == w(x) + Sum(w, items - {x})
    decreases |items|
  {
    var y :| y in items && Sum(w, items) == w(y) + Sum(w, items - {y});
    if y != x {
      SumRemove(w, items - {y}, x);
      SumRemove(w, items - {x}, y);
      assert items - {y} - {x} == items - {x} - {y};
    }
  }

  lemma {:induction false} SumMonotone<T(!new)>(w: T -> nat, v: T -> nat, items: set<T>)
    requires forall x <- items :: v(x) <= w(x)
    ensures Sum(v, items) <= Sum(w, items)
    decreases |items|
  {
    if items != {} {
      var x :| x in items;
      SumRemove(w, items, x);
      SumRemove(v, items, x);
      SumMonotone(w, v, items - {x});
    }
  }

  /** One weight goes down by `d` and none goes up. */
  lemma SumDrops<T(!new)>(w: T -> nat, v: T -> nat, items: set<T>, x: T, d: nat)
    requires x in items && v(x) + d <= w(x) && forall y <- items :: v(y) <= w(y)
    ensures Sum(v, items) + d <= Sum(w, items)
  {
    SumRemove(w, items, x);
    SumRemove(v, items, x);
    SumMonotone(w, v, items - {x});
  }

  // ----- what is left to do -----

  predicate Answered(s: State, id: Identity) {
    Ack(id, s.receiver.process) in s.acks
  }

  /** What a file of an outbox still costs. */
  function Weight(s: State, id: Identity): (n: nat) {
    match WorkerOf(s.senders, id.source)
    case Idle => 30
    case Picked(other) => if other == id then 26 else 30
    case Removing(other) => if other == id then 5 else 30
    case Waiting(m) =>
      if m.id != id then 30
      else if Answered(s, id) then 10
      else if Serves(s.receiver.collector) == Some(id) then 14
      else 22
  }

  function Weights(s: State): (w: Identity -> nat) {
    (id: Identity) => Weight(s, id)
  }

  predicate StoreSettled(p: Senders, source: u64) {
    source in p.storing && Settled(At(p.outbox, p.storing[source].id), p.storing[source].bytes)
  }

  function StoreWeights(p: Senders): (w: u64 -> nat) {
    (source: u64) => if StoreSettled(p, source) then 1 else 2
  }

  predicate InboxSettled(r: Receiver) {
    r.collector.Publishing? && Settled(At(r.inbox, r.collector.message.id), r.collector.message.bytes)
  }

  function Left(r: Receiver): (n: nat) {
    Unrest(r.collector) + (if r.collector.Publishing? && !InboxSettled(r) then 1 else 0)
  }

  ghost function Measure(s: State): (n: nat) {
    Sum(Weights(s), Present(s.senders.outbox)) + Sum(StoreWeights(s.senders), s.senders.storing.Keys) + Left(s.receiver)
  }

  // ----- steps that do something -----

  ghost predicate Diligent(s: State, step: Step) {
    && Smooth(Before, {}, s, step)
    && match step
       case SenderMoves(OutboxSync(source)) => source in s.senders.storing && !StoreSettled(s.senders, source)
       case SenderMoves(move) => move.EnqueueReturn? || move.Pick? || move.Send? || move.TakeAck? || move.RemoveSent?
       case ReceiverMoves(Receive(m)) => !Answered(s, m.id)
       case ReceiverMoves(InboxSync(source)) =>
         s.receiver.collector.Publishing? && s.receiver.collector.message.id.source == source
         && !InboxSettled(s.receiver)
       case ReceiverMoves(_) => true
  }

  // ----- the sender is busy with a file that is there -----

  ghost predicate Holds(p: Senders, source: u64) {
    match WorkerOf(p, source)
    case Idle => true
    case Picked(id) =>
      && id.source == source && At(p.outbox, id).current.Some?
      && (source in p.storing ==> p.storing[source].id != id)
    case Waiting(m) =>
      && m.id.source == source && At(p.outbox, m.id).current.Some?
      && (source in p.storing ==> p.storing[source].id != m.id)
    case Removing(id) =>
      && id.source == source && At(p.outbox, id).current.Some?
      && (source in p.storing ==> p.storing[source].id != id)
  }

  ghost predicate AllHold(p: Senders) {
    forall source: u64 :: Holds(p, source)
  }

  lemma HoldsStep(p: Senders, acks: set<Ack>, step: SenderStep, next: Senders, source: u64)
    requires SenderNext(p, acks, step, next) && Holds(p, source) && StoringOk(p)
    requires step.RemoveSent? ==> Holds(p, step.source)
    requires forall id: Identity :: At(p.outbox, id).current.Some? ==> id in p.used
    ensures Holds(next, source)
  {
    if step.EnqueueRename? || step.EnqueueUndo? || step.RemoveSent? || step.OutboxSync? {
      HoldsFileStep(p, acks, step, next, source);
    }
  }

  lemma HoldsFileStep(p: Senders, acks: set<Ack>, step: SenderStep, next: Senders, source: u64)
    requires SenderNext(p, acks, step, next) && Holds(p, source) && StoringOk(p)
    requires step.EnqueueRename? || step.EnqueueUndo? || step.RemoveSent? || step.OutboxSync?
    requires step.RemoveSent? ==> Holds(p, step.source)
    requires forall id: Identity :: At(p.outbox, id).current.Some? ==> id in p.used
    ensures Holds(next, source)
  {
  }

  lemma PresentIsUsed(p: Senders)
    requires GenuineDirectory(p.used, p.outbox)
    ensures forall id: Identity :: At(p.outbox, id).current.Some? ==> id in p.used
  {
    forall id: Identity | At(p.outbox, id).current.Some? ensures id in p.used {
      assert Genuine(p.used, id, At(p.outbox, id));
    }
  }

  ghost predicate Sane(s: State) {
    Well(s) && AllHold(s.senders)
  }

  lemma NextKeepsHolds(s: State, step: Step, next: State)
    requires Sane(s) && Next(s, step, next)
    ensures AllHold(next.senders)
  {
    if step.SenderMoves? {
      PresentIsUsed(s.senders);
      forall source: u64 ensures Holds(next.senders, source) {
        assert Holds(s.senders, source) && (step.sender.RemoveSent? ==> Holds(s.senders, step.sender.source));
        HoldsStep(s.senders, s.acks, step.sender, next.senders, source);
      }
    }
  }

  lemma {:induction false} RunIsSane(states: seq<State>, steps: seq<Step>, k: nat)
    requires Run(states, steps) && k <= |steps|
    ensures Sane(states[k])
  {
    RunIsWell(states, steps, k);
    if k > 0 {
      RunIsSane(states, steps, k - 1);
      NextKeepsHolds(states[k - 1], steps[k - 1], states[k]);
    } else {
      assert forall source: u64 :: Holds(START.senders, source);
    }
  }

  lemma DiligentKeepsSane(s: State, step: Step, next: State)
    requires Sane(s) && Diligent(s, step) && Next(s, step, next)
    ensures Sane(next)
  {
    NextKeepsBase(s, step, next);
    NextKeepsLive(s, step, next);
    NextKeepsHolds(s, step, next);
  }

  // ----- every diligent step lowers the measure -----

  ghost function FileSum(s: State): (n: nat) {
    Sum(Weights(s), Present(s.senders.outbox))
  }

  ghost function StoreSum(p: Senders): (n: nat) {
    Sum(StoreWeights(p), p.storing.Keys)
  }

  lemma FilesUnmoved(s: State, next: State)
    requires Present(next.senders.outbox) == Present(s.senders.outbox)
    requires forall id: Identity :: Weight(next, id) <= Weight(s, id)
    ensures FileSum(next) <= FileSum(s)
  {
    SumMonotone(Weights(s), Weights(next), Present(s.senders.outbox));
  }

  lemma FileDrops(s: State, next: State, id: Identity, d: nat)
    requires Present(next.senders.outbox) == Present(s.senders.outbox) && id in Present(s.senders.outbox)
    requires forall other: Identity :: Weight(next, other) <= Weight(s, other)
    requires Weight(next, id) + d <= Weight(s, id)
    ensures FileSum(next) + d <= FileSum(s)
  {
    SumDrops(Weights(s), Weights(next), Present(s.senders.outbox), id, d);
  }

  lemma FileLeaves(s: State, next: State, id: Identity)
    requires Present(next.senders.outbox) == Present(s.senders.outbox) - {id} && id in Present(s.senders.outbox)
    requires forall other: Identity :: other != id ==> Weight(next, other) <= Weight(s, other)
    ensures FileSum(next) + Weight(s, id) <= FileSum(s)
  {
    SumRemove(Weights(s), Present(s.senders.outbox), id);
    SumMonotone(Weights(s), Weights(next), Present(next.senders.outbox));
  }

  lemma StoresUnmoved(p: Senders, next: Senders)
    requires next.storing == p.storing
    requires forall source <- p.storing :: StoreSettled(p, source) ==> StoreSettled(next, source)
    ensures StoreSum(next) <= StoreSum(p)
  {
    SumMonotone(StoreWeights(p), StoreWeights(next), p.storing.Keys);
  }

  lemma SendLowers(s: State, m: Message, next: State)
    requires Next(s, SenderMoves(Send(m)), next)
    ensures Measure(next) < Measure(s)
  {
    FileDrops(s, next, m.id, 4);
    StoresUnmoved(s.senders, next.senders);
  }

  lemma PickLowers(s: State, id: Identity, next: State)
    requires Next(s, SenderMoves(Pick(id)), next)
    ensures Measure(next) < Measure(s)
  {
    FileDrops(s, next, id, 4);
    StoresUnmoved(s.senders, next.senders);
  }

  lemma TakeAckLowers(s: State, ack: Ack, next: State)
    requires Holds(s.senders, ack.id.source) && Next(s, SenderMoves(TakeAck(ack)), next)
    requires ack.process == s.receiver.process
    ensures Measure(next) < Measure(s)
  {
    FileDrops(s, next, ack.id, 5);
    StoresUnmoved(s.senders, next.senders);
  }

  lemma RemoveLowers(s: State, source: u64, next: State)
    requires Holds(s.senders, source) && SendersLive(s.senders, s.sent)
    requires Next(s, SenderMoves(RemoveSent(source)), next)
    ensures Measure(next) < Measure(s)
  {
    var id := WorkerOf(s.senders, source).id;
    assert Present(next.senders.outbox) == Present(s.senders.outbox) - {id};
    FileLeaves(s, next, id);
    StoresUnmoved(s.senders, next.senders);
  }

  lemma SyncLowers(s: State, source: u64, next: State)
    requires SendersLive(s.senders, s.sent) && Next(s, SenderMoves(OutboxSync(source)), next)
    requires source in s.senders.storing && !StoreSettled(s.senders, source)
    ensures Measure(next) < Measure(s)
  {
    assert Present(next.senders.outbox) == Present(s.senders.outbox);
    FilesUnmoved(s, next);
    assert StoreSettled(next.senders, source);
    SumDrops(StoreWeights(s.senders), StoreWeights(next.senders), s.senders.storing.Keys, source, 1);
  }

  lemma ReturnLowers(s: State, source: u64, next: State)
    requires Next(s, SenderMoves(EnqueueReturn(source)), next)
    ensures Measure(next) < Measure(s)
  {
    var p, q := s.senders, next.senders;
    FilesUnmoved(s, next);
    SumRemove(StoreWeights(p), p.storing.Keys, source);
    assert q.storing.Keys == p.storing.Keys - {source};
    SumMonotone(StoreWeights(p), StoreWeights(q), q.storing.Keys);
  }

  lemma ReceiveLowers(s: State, m: Message, next: State)
    requires Holds(s.senders, m.id.source) && Next(s, ReceiverMoves(Receive(m)), next) && !Answered(s, m.id)
    requires WorkerOf(s.senders, m.id.source) == Waiting(m)
    ensures Measure(next) < Measure(s)
  {
    assert Left(next.receiver) <= 5;
    FileDrops(s, next, m.id, 8);
    StoresUnmoved(s.senders, next.senders);
  }

  /** The collector's own steps. */
  lemma CollectorLowers(s: State, step: ReceiverStep, next: State)
    requires ReceiverLive(s.receiver) && Next(s, ReceiverMoves(step), next) && Diligent(s, ReceiverMoves(step))
    requires !step.Receive?
    ensures Measure(next) < Measure(s)
  {
    CollectorGoesOn(s, step, next);
    forall id: Identity ensures Weight(next, id) <= Weight(s, id) {
      CollectorEases(s, step, next, id);
    }
    FilesUnmoved(s, next);
    StoresUnmoved(s.senders, next.senders);
  }

  lemma CollectorGoesOn(s: State, step: ReceiverStep, next: State)
    requires ReceiverLive(s.receiver) && Next(s, ReceiverMoves(step), next) && Diligent(s, ReceiverMoves(step))
    requires !step.Receive?
    ensures Left(next.receiver) < Left(s.receiver)
  {
    match step
    case Recover(id) => assert next.receiver.collector.todo == s.receiver.collector.todo - {id};
    case _ =>
  }

  /** Nobody's work grows when the collector goes on. */
  lemma CollectorEases(s: State, step: ReceiverStep, next: State, id: Identity)
    requires Next(s, ReceiverMoves(step), next) && Diligent(s, ReceiverMoves(step)) && !step.Receive?
    ensures Weight(next, id) <= Weight(s, id)
  {
  }

  lemma DiligentLowers(s: State, step: Step, next: State)
    requires Sane(s) && Diligent(s, step) && Next(s, step, next)
    ensures Measure(next) < Measure(s)
  {
    match step
    case SenderMoves(Pick(id)) => PickLowers(s, id, next);
    case SenderMoves(Send(m)) => SendLowers(s, m, next);
    case SenderMoves(TakeAck(ack)) =>
      assert Holds(s.senders, ack.id.source);
      TakeAckLowers(s, ack, next);
    case SenderMoves(RemoveSent(source)) =>
      assert Holds(s.senders, source);
      RemoveLowers(s, source, next);
    case SenderMoves(OutboxSync(source)) => SyncLowers(s, source, next);
    case SenderMoves(EnqueueReturn(source)) => ReturnLowers(s, source, next);
    case SenderMoves(_) =>
    case ReceiverMoves(Receive(m)) =>
      assert Holds(s.senders, m.id.source);
      ReceiveLowers(s, m, next);
    case ReceiverMoves(move) => CollectorLowers(s, move, next);
  }

  // ----- and while anything is left, one is possible -----

  ghost predicate CanWork(s: State) {
    exists step: Step, next: State :: Diligent(s, step) && Next(s, step, next)
  }

  lemma CollectorCanWork(s: State)
    requires Sane(s) && s.receiver.collector != Listening
    ensures CanWork(s)
  {
    var r := s.receiver;
    var step, next;
    match r.collector {
      case Recovering(todo) => step, next := RecoveryWork(s);
      case Publishing(m) => step, next := StoreWork(s);
      case Holding(id) =>
        step, next := Ingest,
                      s.(receiver := r.(collector := Ingested(id), ingested := r.ingested + multiset{(r.process, id)}));
      case Ingested(id) =>
        step := Accept;
        next := s.(receiver := r.(collector := Answering(id), accepted := r.accepted + {id},
                                  confirmed := r.confirmed + {id}));
      case Answering(id) =>
        step, next := Answer(true), s.(receiver := r.(collector := Listening), acks := s.acks + {Ack(id, r.process)});
    }
    assert Diligent(s, ReceiverMoves(step)) && Next(s, ReceiverMoves(step), next);
  }

  lemma RecoveryWork(s: State) returns (step: ReceiverStep, next: State)
    requires s.receiver.collector.Recovering?
    ensures Diligent(s, ReceiverMoves(step)) && Next(s, ReceiverMoves(step), next)
  {
    var r, todo := s.receiver, s.receiver.collector.todo;
    if todo == {} {
      return RecoveryDone, s.(receiver := r.(collector := Listening));
    }
    var id :| id in todo;
    return Recover(id),
      s.(receiver := r.(collector := Recovering(todo - {id}), accepted := r.accepted + {id},
                        confirmed := r.confirmed + {id}, ingested := r.ingested + multiset{(r.process, id)}));
  }

  lemma StoreWork(s: State) returns (step: ReceiverStep, next: State)
    requires s.receiver.collector.Publishing?
    ensures Diligent(s, ReceiverMoves(step)) && Next(s, ReceiverMoves(step), next)
  {
    var r, m := s.receiver, s.receiver.collector.message;
    if InboxSettled(r) {
      return StoreReturn, s.(receiver := r.(collector := Holding(m.id)));
    }
    return InboxSync(m.id.source), s.(receiver := r.(inbox := Flush(r.inbox, m.id.source)));
  }

  lemma EnqueueCanWork(s: State, source: u64)
    requires source in s.senders.storing
    ensures CanWork(s)
  {
    var p, m := s.senders, s.senders.storing[source];
    if StoreSettled(p, source) {
      var next := s.(senders := p.(storing := p.storing - {source}, promised := p.promised[m.id := m.bytes]));
      assert Diligent(s, SenderMoves(EnqueueReturn(source))) && Next(s, SenderMoves(EnqueueReturn(source)), next);
    } else {
      var next := s.(senders := p.(outbox := Flush(p.outbox, source)));
      assert Diligent(s, SenderMoves(OutboxSync(source))) && Next(s, SenderMoves(OutboxSync(source)), next);
    }
  }

  lemma WaitingCanWork(s: State, m: Message)
    requires Sane(s) && s.receiver.collector == Listening && WorkerOf(s.senders, m.id.source) == Waiting(m)
    ensures CanWork(s)
  {
    var p, r := s.senders, s.receiver;
    if Answered(s, m.id) {
      var ack := Ack(m.id, r.process);
      var next := s.(senders := p.(workers := p.workers[m.id.source := Removing(m.id)]));
      assert Diligent(s, SenderMoves(TakeAck(ack))) && Next(s, SenderMoves(TakeAck(ack)), next);
    } else {
      var after := if m.id in r.accepted then r.(collector := Answering(m.id))
                   else if At(r.inbox, m.id).current.Some? then r.(collector := Holding(m.id))
                   else r.(collector := Publishing(m), inbox := Put(r.inbox, m.id, Some(m.bytes)));
      var next := s.(receiver := after);
      assert Diligent(s, ReceiverMoves(Receive(m))) && Next(s, ReceiverMoves(Receive(m)), next);
    }
  }

  lemma IdleCanWork(s: State, id: Identity)
    requires id in Present(s.senders.outbox) && WorkerOf(s.senders, id.source) == Idle
    requires id.source !in s.senders.storing
    ensures CanWork(s)
  {
    var p := s.senders;
    NamesOrder();
    assert id in Files(p.outbox, id.source);
    var head := Least(Before, Files(p.outbox, id.source));
    var next := s.(senders := p.(workers := p.workers[head.source := Picked(head)]));
    assert Head(Before, p.outbox, head);
    assert Diligent(s, SenderMoves(Pick(head))) && Next(s, SenderMoves(Pick(head)), next);
  }

  lemma PickedCanWork(s: State, id: Identity)
    requires WorkerOf(s.senders, id.source) == Picked(id) && At(s.senders.outbox, id).current.Some?
    ensures CanWork(s)
  {
    var m := Message(id, At(s.senders.outbox, id).current.value);
    var next := s.(senders := s.senders.(workers := s.senders.workers[id.source := Waiting(m)]), sent := s.sent + {m});
    assert Diligent(s, SenderMoves(Send(m))) && Next(s, SenderMoves(Send(m)), next);
  }

  lemma RemovingCanWork(s: State, source: u64)
    requires WorkerOf(s.senders, source).Removing? && source !in s.senders.storing
    ensures CanWork(s)
  {
    var p, id := s.senders, WorkerOf(s.senders, source).id;
    var next := s.(senders := p.(workers := p.workers[source := Idle], outbox := Put(p.outbox, id, None)));
    assert Diligent(s, SenderMoves(RemoveSent(source))) && Next(s, SenderMoves(RemoveSent(source)), next);
  }

  /** A file in an outbox means that somebody can go on. */
  lemma FileMeansWork(s: State, id: Identity)
    requires Sane(s) && id in Present(s.senders.outbox)
    ensures CanWork(s)
  {
    if s.receiver.collector != Listening {
      CollectorCanWork(s);
    } else if id.source in s.senders.storing {
      EnqueueCanWork(s, id.source);
    } else {
      match WorkerOf(s.senders, id.source)
      case Idle => IdleCanWork(s, id);
      case Picked(other) =>
        assert Holds(s.senders, id.source);
        PickedCanWork(s, other);
      case Removing(_) => RemovingCanWork(s, id.source);
      case Waiting(m) =>
        assert Holds(s.senders, id.source);
        WaitingCanWork(s, m);
    }
  }

  // ----- whole runs -----

  ghost predicate DiligentRun(states: seq<State>, steps: seq<Step>) {
    && |states| == |steps| + 1
    && forall i :: 0 <= i < |steps| ==> Diligent(states[i], steps[i]) && Next(states[i], steps[i], states[i + 1])
  }

  lemma {:induction false} WorkIsBounded(states: seq<State>, steps: seq<Step>, k: nat)
    requires DiligentRun(states, steps) && Sane(states[0]) && k <= |steps|
    ensures Sane(states[k]) && k + Measure(states[k]) <= Measure(states[0])
    ensures states[0].senders.promised.Keys <= states[k].senders.promised.Keys
  {
    if k > 0 {
      WorkIsBounded(states, steps, k - 1);
      var s, step, next := states[k - 1], steps[k - 1], states[k];
      assert Diligent(s, step) && Next(s, step, next);
      DiligentLowers(s, step, next);
      DiligentKeepsSane(s, step, next);
      PromisesStay(s, step, next);
    }
  }

  lemma PromisesStay(s: State, step: Step, next: State)
    requires Next(s, step, next)
    ensures s.senders.promised.Keys <= next.senders.promised.Keys
  {
  }

  /** In every reachable state: while an outbox holds a file, somebody can go on. */
  lemma NeverStalls(states: seq<State>, steps: seq<Step>, k: nat, id: Identity)
    requires Run(states, steps) && k <= |steps| && id in Present(states[k].senders.outbox)
    ensures CanWork(states[k])
  {
    RunIsSane(states, steps, k);
    FileMeansWork(states[k], id);
  }

  /** From a reachable state at most `Measure` diligent steps are possible, in whatever order. */
  lemma DiligenceIsBounded(states: seq<State>, steps: seq<Step>, k: nat, later: seq<State>, work: seq<Step>)
    requires Run(states, steps) && k <= |steps|
    requires DiligentRun(later, work) && later[0] == states[k]
    ensures |work| <= Measure(states[k])
  {
    RunIsSane(states, steps, k);
    WorkIsBounded(later, work, |work|);
  }

  /** In the outbox, where its removal is not yet decided, or taken on by the present collector process. */
  predicate OnItsWay(s: State, id: Identity) {
    || id in s.receiver.accepted
    || (At(s.senders.outbox, id).current.Some? && WorkerOf(s.senders, id.source) != Removing(id))
  }

  lemma OnItsWayStep(s: State, step: Step, next: State, id: Identity)
    requires Sane(s) && Diligent(s, step) && Next(s, step, next) && OnItsWay(s, id)
    ensures OnItsWay(next, id)
  {
    assert step.SenderMoves? && step.sender.RemoveSent? ==> Holds(s.senders, step.sender.source);
  }

  lemma OnItsWayInRun(states: seq<State>, steps: seq<Step>, i: nat, id: Identity)
    requires DiligentRun(states, steps) && Sane(states[0]) && i < |steps| && OnItsWay(states[i], id)
    ensures OnItsWay(states[i + 1], id)
  {
    WorkIsBounded(states, steps, i);
    OnItsWayStep(states[i], steps[i], states[i + 1], id);
  }

  lemma StaysOnItsWay(states: seq<State>, steps: seq<Step>, k: nat, id: Identity)
    requires DiligentRun(states, steps) && Sane(states[0]) && k <= |steps| && OnItsWay(states[0], id)
    ensures OnItsWay(states[k], id)
  {
    var underway := (s: State) => OnItsWay(s, id);
    forall i | 0 <= i < k && underway(states[i]) ensures underway(states[i + 1]) {
      OnItsWayInRun(states, steps, i, id);
    }
    HoldsAlong(underway, states, 0, k);
  }

  /** When no more is possible, every outbox is empty and every promised alarm has been accepted. */
  lemma DrainedWhenDone(states: seq<State>, steps: seq<Step>, k: nat, later: seq<State>, work: seq<Step>)
    requires Run(states, steps) && k <= |steps|
    requires DiligentRun(later, work) && later[0] == states[k] && !CanWork(later[|work|])
    ensures Present(later[|work|].senders.outbox) == {}
    ensures forall id <- states[k].senders.promised :: id in later[|work|].receiver.confirmed
  {
    RunIsSane(states, steps, k);
    WorkIsBounded(later, work, |work|);
    var last := later[|work|];
    forall id: Identity ensures id !in Present(last.senders.outbox) {
      if id in Present(last.senders.outbox) {
        FileMeansWork(last, id);
      }
    }
    forall id <- states[k].senders.promised ensures id in last.receiver.confirmed {
      assert id in last.senders.promised;
      assert id !in Present(last.senders.outbox);
    }
  }

  /**
   ... and what was still in an outbox, its removal not yet decided, is in the inbox of the
   present collector process with the frame made for it.
   */
  lemma DrainedIntoInbox(states: seq<State>, steps: seq<Step>, k: nat, later: seq<State>, work: seq<Step>, id: Identity)
    requires Run(states, steps) && k <= |steps|
    requires DiligentRun(later, work) && later[0] == states[k] && !CanWork(later[|work|])
    requires OnItsWay(states[k], id)
    ensures Arrived(later[|work|], id)
  {
    RunIsSane(states, steps, k);
    DrainedWhenDone(states, steps, k, later, work);
    WorkIsBounded(later, work, |work|);
    StaysOnItsWay(later, work, |work|, id);
    assert id !in Present(later[|work|].senders.outbox);
    AcceptedHasArrived(later[|work|], id);
  }
}
