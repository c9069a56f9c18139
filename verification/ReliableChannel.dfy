/**
 The reliable alarm channel end to end: durable outboxes, stop-and-wait senders, a network
 that may lose, repeat and reorder, and the collector that stores, ingests and only then
 answers. A step is one system call, one message or one change of a process's memory; a
 process may crash, and a machine may lose power, between any two steps.

 Assumed: message ids are never drawn twice; nobody forges frames; a rename is atomic; a
 synced directory entry survives.
 */
module ReliableChannel {
  import opened Bytes
  import opened MonitorData
  import opened Names

  type Content = seq<byte>

  datatype Message = Message(id: Identity, bytes: Content)

  datatype Ack = Ack(id: Identity, process: nat)

  // ----- directories -----

  /** What a process sees under a name, and what a power loss may leave there. */
  datatype Entry = Entry(current: Option<Content>, durable: set<Option<Content>>)

  type Directory = map<Identity, Entry>

  function At(d: Directory, id: Identity): (e: Entry) {
    if id in d then d[id] else Entry(None, {None})
  }

  function Put(d: Directory, id: Identity, c: Option<Content>): (next: Directory) {
    d[id := Entry(c, At(d, id).durable + {c})]
  }

  function Flush(d: Directory, source: u64): (next: Directory) {
    map id | id in d :: if id.source == source then Entry(d[id].current, {d[id].current}) else d[id]
  }

  predicate Settled(e: Entry, c: Content) {
    e == Entry(Some(c), {Some(c)})
  }

  predicate Survives(e: Entry, next: Entry) {
    next.current in e.durable && next.durable == {next.current}
  }

  /** A power loss, on one publisher's machine or on the collector's. */
  ghost predicate Damaged(d: Directory, source: Option<u64>, next: Directory) {
    forall id: Identity ::
      if source.None? || id.source == source.value then Survives(At(d, id), At(next, id)) else At(next, id) == At(d, id)
  }

  // ----- states -----

  /**
   The thread of one publisher: idle, between its scan and the sending of what it picked,
   waiting for an answer, or about to remove the file.
   */
  datatype Worker = Idle | Picked(id: Identity) | Waiting(message: Message) | Removing(id: Identity)

  datatype Collector =
    | Recovering(todo: set<Identity>)
    | Listening
    | Publishing(message: Message)   // renamed into the inbox, directory not yet synced
    | Holding(id: Identity)          // stored, or found stored
    | Ingested(id: Identity)
    | Answering(id: Identity)

  /** The publishers' side. */
  datatype Senders = Senders(
    outbox: Directory,
    storing: map<u64, Message>,             // by source: an `enqueue` between rename and return
    workers: map<u64, Worker>,
    used: map<Identity, Content>,           // every id drawn, with the frame made for it
    promised: map<Identity, Content>)       // every `enqueue` that returned success

  /** The collector's side. */
  datatype Receiver = Receiver(
    inbox: Directory,
    collector: Collector,
    process: nat,                           // counts the collector's processes
    accepted: set<Identity>,
    ingested: multiset<(nat, Identity)>,    // successful ingests, by process
    confirmed: set<Identity>)               // ever accepted by any process

  /** `sent` and `acks` hold everything that ever reached the network. */
  datatype State = State(senders: Senders, receiver: Receiver, sent: set<Message>, acks: set<Ack>)

  function WorkerOf(p: Senders, source: u64): (w: Worker) {
    if source in p.workers then p.workers[source] else Idle
  }

  const START: State :=
    State(Senders(map[], map[], map[], map[], map[]), Receiver(map[], Listening, 0, {}, multiset{}, {}), {}, {})

  // ----- steps -----

  datatype SenderStep =
    | EnqueueRename(m: Message)
    | EnqueueReturn(source: u64)
    | EnqueueUndo(source: u64, removed: bool)
    | OutboxSync(source: u64)
    | Pick(id: Identity)            // any file: a scan may pass over lesser ones
    | Send(m: Message)
    | TakeAck(ack: Ack)
    | GiveUp(source: u64)
    | RemoveSent(source: u64)
    | PublisherCrash(source: u64)
    | PublisherPowerLoss(source: u64)

  datatype ReceiverStep =
    | Receive(m: Message)
    | InboxSync(source: u64)
    | StoreReturn
    | StoreUndo(removed: bool)
    | Ingest
    | Refuse
    | Accept
    | Answer(delivered: bool)
    | CollectorCrash
    | CollectorPowerLoss
    | Recover(id: Identity)
    | RecoveryDone

  datatype Step = SenderMoves(sender: SenderStep) | ReceiverMoves(receiver: ReceiverStep)

  function Stopped(p: Senders, source: u64): (next: Senders) {
    p.(storing := p.storing - {source}, workers := p.workers - {source})
  }

  ghost predicate SenderNext(p: Senders, acks: set<Ack>, step: SenderStep, next: Senders)
  {
    match step
    case EnqueueRename(m) =>
      && m.id !in p.used && m.id.source !in p.storing && At(p.outbox, m.id).current == None
      && next == p.(outbox := Put(p.outbox, m.id, Some(m.bytes)), storing := p.storing[m.id.source := m],
                    used := p.used[m.id := m.bytes])
    case EnqueueReturn(source) =>
      && source in p.storing && Settled(At(p.outbox, p.storing[source].id), p.storing[source].bytes)
      && next == p.(storing := p.storing - {source},
                    promised := p.promised[p.storing[source].id := p.storing[source].bytes])
    case EnqueueUndo(source, removed) =>
      && source in p.storing
      && next == p.(storing := p.storing - {source},
                    outbox := if removed then Put(p.outbox, p.storing[source].id, None) else p.outbox)
    case OutboxSync(source) => next == p.(outbox := Flush(p.outbox, source))
    case Pick(id) =>
      && WorkerOf(p, id.source) == Idle && id.source !in p.storing && At(p.outbox, id).current.Some?
      && next == p.(workers := p.workers[id.source := Picked(id)])
    case Send(m) =>
      && WorkerOf(p, m.id.source) == Picked(m.id) && At(p.outbox, m.id).current == Some(m.bytes)
      && next == p.(workers := p.workers[m.id.source := Waiting(m)])
    case TakeAck(ack) =>
      && ack in acks && WorkerOf(p, ack.id.source).Waiting? && WorkerOf(p, ack.id.source).message.id == ack.id
      && next == p.(workers := p.workers[ack.id.source := Removing(ack.id)])
    case GiveUp(source) => next == p.(workers := p.workers[source := Idle])
    case RemoveSent(source) =>
      && WorkerOf(p, source).Removing? && source !in p.storing
      && next == p.(workers := p.workers[source := Idle], outbox := Put(p.outbox, WorkerOf(p, source).id, None))
    case PublisherCrash(source) => next == Stopped(p, source)
    case PublisherPowerLoss(source) =>
      next == Stopped(p, source).(outbox := next.outbox) && Damaged(p.outbox, Some(source), next.outbox)
  }

  function Present(d: Directory): (ids: set<Identity>) {
    set id | id in d && d[id].current.Some?
  }

  function Restarted(r: Receiver): (next: Receiver) {
    r.(process := r.process + 1, accepted := {}, collector := Recovering(Present(r.inbox)))
  }

  ghost predicate ReceiverNext(r: Receiver, sent: set<Message>, step: ReceiverStep, next: Receiver)
  {
    match step
    case Receive(m) =>
      && m in sent && r.collector == Listening
      && next == if m.id in r.accepted then r.(collector := Answering(m.id))
                 else if At(r.inbox, m.id).current.Some? then r.(collector := Holding(m.id))
                 else r.(collector := Publishing(m), inbox := Put(r.inbox, m.id, Some(m.bytes)))
    case InboxSync(source) => next == r.(inbox := Flush(r.inbox, source))
    case StoreReturn =>
      && r.collector.Publishing? && Settled(At(r.inbox, r.collector.message.id), r.collector.message.bytes)
      && next == r.(collector := Holding(r.collector.message.id))
    case StoreUndo(removed) =>
      && r.collector.Publishing?
      && next == r.(collector := Listening,
                    inbox := if removed then Put(r.inbox, r.collector.message.id, None) else r.inbox)
    case Ingest =>
      && r.collector.Holding?
      && next == r.(collector := Ingested(r.collector.id),
                    ingested := r.ingested + multiset{(r.process, r.collector.id)})
    case Refuse => r.collector.Holding? && next == r.(collector := Listening)
    case Accept =>
      && r.collector.Ingested?
      && next == r.(collector := Answering(r.collector.id), accepted := r.accepted + {r.collector.id},
                    confirmed := r.confirmed + {r.collector.id})
    case Answer(_) => r.collector.Answering? && next == r.(collector := Listening)
    case CollectorCrash => next == Restarted(r)
    case CollectorPowerLoss =>
      next == Restarted(r.(inbox := next.inbox)) && Damaged(r.inbox, None, next.inbox)
    case Recover(id) =>
      && r.collector.Recovering? && id in r.collector.todo
      && next == r.(collector := Recovering(r.collector.todo - {id}), accepted := r.accepted + {id},
                    confirmed := r.confirmed + {id}, ingested := r.ingested + multiset{(r.process, id)})
    case RecoveryDone => r.collector == Recovering({}) && next == r.(collector := Listening)
  }

  ghost predicate Next(s: State, step: Step, next: State) {
    match step
    case SenderMoves(move) =>
      && SenderNext(s.senders, s.acks, move, next.senders)
      && next == s.(senders := next.senders, sent := if move.Send? then s.sent + {move.m} else s.sent)
    case ReceiverMoves(move) =>
      && ReceiverNext(s.receiver, s.sent, move, next.receiver)
      && next == s.(receiver := next.receiver,
                    acks := if move == Answer(true) then s.acks + {Ack(s.receiver.collector.id, s.receiver.process)}
                            else s.acks)
  }

  // ----- the invariant -----

  /** Whatever may be under a name is the frame made for it. */
  ghost predicate Genuine(used: map<Identity, Content>, id: Identity, e: Entry) {
    && e.current in e.durable
    && forall c: Content :: Some(c) in e.durable ==> id in used && used[id] == c
  }

  ghost predicate GenuineDirectory(used: map<Identity, Content>, d: Directory) {
    forall id: Identity :: Genuine(used, id, At(d, id))
  }

  ghost predicate SentOk(used: map<Identity, Content>, sent: set<Message>) {
    forall m <- sent :: m.id in used && used[m.id] == m.bytes
  }

  ghost predicate AcksOk(acks: set<Ack>, r: Receiver) {
    forall ack <- acks ::
      && ack.id in r.confirmed && ack.process <= r.process && r.ingested[(ack.process, ack.id)] == 1
      && (ack.process == r.process ==> ack.id in r.accepted)
  }

  ghost predicate StoringOk(p: Senders) {
    forall source <- p.storing ::
      var m := p.storing[source];
      m.id.source == source && m.id !in p.promised && m.id in p.used && p.used[m.id] == m.bytes
  }

  ghost predicate RemovingOk(p: Senders, confirmed: set<Identity>) {
    forall source <- p.workers :: p.workers[source].Removing? ==> p.workers[source].id in confirmed
  }

  /** A promised alarm is safely in the outbox until the collector has accepted it. */
  ghost predicate PromisesOk(p: Senders, confirmed: set<Identity>) {
    forall id <- p.promised ::
      && id in p.used && p.used[id] == p.promised[id]
      && (id in confirmed || Settled(At(p.outbox, id), p.promised[id]))
  }

  ghost predicate ConfirmedOk(r: Receiver) {
    forall id <- r.confirmed :: At(r.inbox, id).current.Some?
  }

  ghost predicate IngestsOk(r: Receiver) {
    && (forall p: nat, id: Identity {:trigger r.ingested[(p, id)]} ::
          r.ingested[(p, id)] <= (if p > r.process then 0 else 1))
    && (forall id: Identity {:trigger r.ingested[(r.process, id)]} ::
          r.ingested[(r.process, id)] == 1 ==> id in r.accepted || r.collector == Ingested(id))
    && (forall id <- r.accepted :: id in r.confirmed && r.ingested[(r.process, id)] == 1)
  }

  ghost predicate CollectorOk(r: Receiver) {
    match r.collector
    case Recovering(todo) => todo !! r.accepted && forall id <- todo :: At(r.inbox, id).current.Some?
    case Listening => true
    case Publishing(m) => m.id !in r.accepted
    case Holding(id) => id !in r.accepted && At(r.inbox, id).current.Some?
    case Ingested(id) => id !in r.accepted && At(r.inbox, id).current.Some? && r.ingested[(r.process, id)] == 1
    case Answering(id) => id in r.accepted
  }

  /** What the present process accepted is in its inbox. */
  ghost predicate AcceptedOk(r: Receiver) {
    forall id <- r.accepted :: At(r.inbox, id).current.Some?
  }

  ghost predicate PublishingOk(r: Receiver) {
    r.collector.Publishing? ==> r.collector.message.id !in r.confirmed
  }

  ghost predicate SendersOk(p: Senders, confirmed: set<Identity>) {
    GenuineDirectory(p.used, p.outbox) && StoringOk(p) && RemovingOk(p, confirmed) && PromisesOk(p, confirmed)
  }

  ghost predicate ReceiverOk(used: map<Identity, Content>, r: Receiver) {
    GenuineDirectory(used, r.inbox) && IngestsOk(r) && CollectorOk(r) && AcceptedOk(r)
  }

  /** What holds in every run. */
  ghost predicate Base(s: State) {
    && SendersOk(s.senders, s.receiver.confirmed)
    && ReceiverOk(s.senders.used, s.receiver)
    && SentOk(s.senders.used, s.sent)
    && AcksOk(s.acks, s.receiver)
  }

  /** ... and what holds as long as no power loss of the collector takes an accepted entry. */
  ghost predicate Inv(s: State) {
    Base(s) && ConfirmedOk(s.receiver) && PublishingOk(s.receiver)
  }

  /** At a power loss of the collector, everything it ever accepted is on the medium. */
  ghost predicate Benign(r: Receiver, step: ReceiverStep) {
    step.CollectorPowerLoss? ==> forall id <- r.confirmed :: None !in At(r.inbox, id).durable
  }

  // ----- directories -----

  lemma PutKeepsGenuine(used: map<Identity, Content>, d: Directory, id: Identity, c: Option<Content>)
    requires GenuineDirectory(used, d)
    requires c.Some? ==> id in used && used[id] == c.value
    ensures GenuineDirectory(used, Put(d, id, c))
  {
    forall other: Identity ensures Genuine(used, other, At(Put(d, id, c), other)) {
      assert Genuine(used, other, At(d, other));
    }
  }

  lemma FlushKeepsGenuine(used: map<Identity, Content>, d: Directory, source: u64)
    requires GenuineDirectory(used, d)
    ensures GenuineDirectory(used, Flush(d, source))
  {
    forall id: Identity ensures Genuine(used, id, At(Flush(d, source), id)) {
      assert Genuine(used, id, At(d, id));
    }
  }

  lemma DamageKeepsGenuine(used: map<Identity, Content>, d: Directory, source: Option<u64>, next: Directory)
    requires GenuineDirectory(used, d) && Damaged(d, source, next)
    ensures GenuineDirectory(used, next)
  {
    forall id: Identity ensures Genuine(used, id, At(next, id)) {
      assert Genuine(used, id, At(d, id));
    }
  }

  lemma MoreUsedKeepsGenuine(used: map<Identity, Content>, d: Directory, m: Message)
    requires GenuineDirectory(used, d) && m.id !in used
    ensures GenuineDirectory(used[m.id := m.bytes], d)
  {
    forall id: Identity ensures Genuine(used[m.id := m.bytes], id, At(d, id)) {
      assert Genuine(used, id, At(d, id));
    }
  }

  // ----- sender steps keep the invariant -----

  lemma SenderDirectory(p: Senders, acks: set<Ack>, step: SenderStep, next: Senders)
    requires GenuineDirectory(p.used, p.outbox) && SenderNext(p, acks, step, next)
    ensures GenuineDirectory(next.used, next.outbox)
  {
    match step
    case EnqueueRename(m) =>
      MoreUsedKeepsGenuine(p.used, p.outbox, m);
      PutKeepsGenuine(next.used, p.outbox, m.id, Some(m.bytes));
    case EnqueueUndo(source, removed) => PutKeepsGenuine(p.used, p.outbox, p.storing[source].id, None);
    case OutboxSync(source) => FlushKeepsGenuine(p.used, p.outbox, source);
    case RemoveSent(source) => PutKeepsGenuine(p.used, p.outbox, WorkerOf(p, source).id, None);
    case PublisherPowerLoss(source) => DamageKeepsGenuine(p.used, p.outbox, Some(source), next.outbox);
    case _ =>
  }

  lemma SenderThreads(p: Senders, confirmed: set<Identity>, acks: set<Ack>, step: SenderStep, next: Senders)
    requires SendersOk(p, confirmed) && SenderNext(p, acks, step, next)
    requires forall ack <- acks :: ack.id in confirmed
    ensures StoringOk(next) && RemovingOk(next, confirmed)
  {
  }

  lemma SenderPromises(p: Senders, confirmed: set<Identity>, acks: set<Ack>, step: SenderStep, next: Senders)
    requires SendersOk(p, confirmed) && SenderNext(p, acks, step, next)
    ensures PromisesOk(next, confirmed)
  {
  }

  // ----- receiver steps keep the invariant -----

  lemma ReceiverDirectory(used: map<Identity, Content>, r: Receiver, sent: set<Message>, step: ReceiverStep,
                          next: Receiver)
    requires GenuineDirectory(used, r.inbox) && SentOk(used, sent) && ReceiverNext(r, sent, step, next)
    ensures GenuineDirectory(used, next.inbox)
  {
    match step
    case Receive(m) => PutKeepsGenuine(used, r.inbox, m.id, Some(m.bytes));
    case InboxSync(source) => FlushKeepsGenuine(used, r.inbox, source);
    case StoreUndo(removed) => PutKeepsGenuine(used, r.inbox, r.collector.message.id, None);
    case CollectorPowerLoss => DamageKeepsGenuine(used, r.inbox, None, next.inbox);
    case _ =>
  }

  lemma ReceiverConfirmed(r: Receiver, sent: set<Message>, step: ReceiverStep, next: Receiver)
    requires CollectorOk(r) && ConfirmedOk(r) && PublishingOk(r) && ReceiverNext(r, sent, step, next) && Benign(r, step)
    ensures ConfirmedOk(next) && PublishingOk(next)
  {
  }

  lemma ReceiverAccepted(r: Receiver, sent: set<Message>, step: ReceiverStep, next: Receiver)
    requires CollectorOk(r) && AcceptedOk(r) && ReceiverNext(r, sent, step, next)
    ensures AcceptedOk(next)
  {
  }

  lemma ReceiverIngests(r: Receiver, sent: set<Message>, step: ReceiverStep, next: Receiver)
    requires IngestsOk(r) && CollectorOk(r) && ReceiverNext(r, sent, step, next)
    ensures IngestsOk(next)
  {
    match step
    case Ingest => AddIngest(r, r.collector.id, next);
    case Recover(id) => AddIngest(r, id, next);
    case _ =>
  }

  /** One more ingest of an identity that this process has not ingested before. */
  lemma AddIngest(r: Receiver, id: Identity, next: Receiver)
    requires IngestsOk(r) && id !in r.accepted && !r.collector.Ingested?
    requires next.process == r.process && next.ingested == r.ingested + multiset{(r.process, id)}
    requires r.accepted <= next.accepted <= r.accepted + {id} && r.confirmed <= next.confirmed
    requires next.collector == Ingested(id) || id in next.accepted
    requires id in next.accepted ==> id in next.confirmed
    ensures IngestsOk(next)
  {
    assert r.ingested[(r.process, id)] == 0;
  }

  lemma ReceiverCollector(r: Receiver, sent: set<Message>, step: ReceiverStep, next: Receiver)
    requires IngestsOk(r) && CollectorOk(r) && ReceiverNext(r, sent, step, next)
    ensures CollectorOk(next)
  {
  }

  lemma ReceiverAcks(s: State, step: ReceiverStep, next: State)
    requires IngestsOk(s.receiver) && CollectorOk(s.receiver) && AcksOk(s.acks, s.receiver)
    requires Next(s, ReceiverMoves(step), next) && IngestsOk(next.receiver)
    ensures AcksOk(next.acks, next.receiver)
  {
  }

  /** Every step keeps what holds in every run, power losses of either side included. */
  lemma NextKeepsBase(s: State, step: Step, next: State)
    requires Base(s) && Next(s, step, next)
    ensures Base(next)
  {
    match step
    case SenderMoves(move) =>
      SenderDirectory(s.senders, s.acks, move, next.senders);
      SenderThreads(s.senders, s.receiver.confirmed, s.acks, move, next.senders);
      SenderPromises(s.senders, s.receiver.confirmed, s.acks, move, next.senders);
      SenderNetwork(s, move, next);
    case ReceiverMoves(move) =>
      ReceiverDirectory(s.senders.used, s.receiver, s.sent, move, next.receiver);
      ReceiverIngests(s.receiver, s.sent, move, next.receiver);
      ReceiverCollector(s.receiver, s.sent, move, next.receiver);
      ReceiverAccepted(s.receiver, s.sent, move, next.receiver);
      ReceiverAcks(s, move, next);
      assert s.receiver.confirmed <= next.receiver.confirmed;
  }

  /** Every step keeps the whole invariant, power losses of the collector when they are benign. */
  lemma NextKeepsInv(s: State, step: Step, next: State)
    requires Inv(s) && Next(s, step, next)
    requires step.ReceiverMoves? ==> Benign(s.receiver, step.receiver)
    ensures Inv(next)
  {
    NextKeepsBase(s, step, next);
    if step.ReceiverMoves? {
      ReceiverConfirmed(s.receiver, s.sent, step.receiver, next.receiver);
    }
  }

  lemma SenderNetwork(s: State, step: SenderStep, next: State)
    requires GenuineDirectory(s.senders.used, s.senders.outbox) && GenuineDirectory(s.senders.used, s.receiver.inbox)
    requires SentOk(s.senders.used, s.sent) && Next(s, SenderMoves(step), next)
    ensures SentOk(next.senders.used, next.sent) && GenuineDirectory(next.senders.used, s.receiver.inbox)
  {
    if step.EnqueueRename? {
      MoreUsedKeepsGenuine(s.senders.used, s.receiver.inbox, step.m);
    } else if step.Send? {
      assert Genuine(s.senders.used, step.m.id, At(s.senders.outbox, step.m.id));
    }
  }

  // ----- whole runs -----

  ghost predicate Run(states: seq<State>, steps: seq<Step>) {
    && |states| == |steps| + 1 && states[0] == START
    && forall i :: 0 <= i < |steps| ==> Next(states[i], steps[i], states[i + 1])
  }

  ghost predicate BenignBefore(states: seq<State>, steps: seq<Step>, k: nat)
    requires |states| == |steps| + 1 && k <= |steps|
  {
    forall i :: 0 <= i < k && steps[i].ReceiverMoves? ==> Benign(states[i].receiver, steps[i].receiver)
  }

  lemma {:induction false} RunKeepsBase(states: seq<State>, steps: seq<Step>, k: nat)
    requires Run(states, steps) && k <= |steps|
    ensures Base(states[k])
  {
    if k > 0 {
      RunKeepsBase(states, steps, k - 1);
      NextKeepsBase(states[k - 1], steps[k - 1], states[k]);
    }
  }

  lemma {:induction false} RunKeepsInv(states: seq<State>, steps: seq<Step>, k: nat)
    requires Run(states, steps) && k <= |steps| && BenignBefore(states, steps, k)
    ensures Inv(states[k])
  {
    if k > 0 {
      RunKeepsInv(states, steps, k - 1);
      NextKeepsInv(states[k - 1], steps[k - 1], states[k]);
    }
  }

  /** The alarm is in neither directory with the bytes `enqueue` stored. */
  predicate Lost(s: State, id: Identity)
    requires id in s.senders.promised
  {
    && At(s.senders.outbox, id).current != Some(s.senders.promised[id])
    && At(s.receiver.inbox, id).current != Some(s.senders.promised[id])
  }

  lemma InvMeansNoLoss(s: State, id: Identity)
    requires Inv(s) && id in s.senders.promised
    ensures !Lost(s, id)
  {
    assert Genuine(s.senders.used, id, At(s.receiver.inbox, id));
  }

  /**
   No loss: whatever connections, answers and processes fail, and whatever a publisher's
   power loss undoes, an alarm whose `enqueue` returned success is at every moment in the
   outbox or in the inbox with its original bytes.
   */
  lemma NoLoss(states: seq<State>, steps: seq<Step>, k: nat, id: Identity)
    requires Run(states, steps) && k <= |steps| && BenignBefore(states, steps, k)
    requires id in states[k].senders.promised
    ensures !Lost(states[k], id)
  {
    RunKeepsInv(states, steps, k);
    InvMeansNoLoss(states[k], id);
  }

  /** An answer in flight stands for a file in the inbox holding the frame sent. */
  lemma AckMeansStored(states: seq<State>, steps: seq<Step>, k: nat, ack: Ack)
    requires Run(states, steps) && k <= |steps| && BenignBefore(states, steps, k)
    requires ack in states[k].acks
    ensures ack.id in states[k].senders.used
    ensures At(states[k].receiver.inbox, ack.id).current == Some(states[k].senders.used[ack.id])
  {
    RunKeepsInv(states, steps, k);
    assert Genuine(states[k].senders.used, ack.id, At(states[k].receiver.inbox, ack.id));
  }

  /**
   In every run, power losses of any kind included: one collector process ingests an alarm
   at most once, and answers only what it has itself ingested.
   */
  lemma IngestedOnceBeforeAnswer(states: seq<State>, steps: seq<Step>, k: nat, p: nat, id: Identity)
    requires Run(states, steps) && k <= |steps|
    ensures states[k].receiver.ingested[(p, id)] <= 1
    ensures Ack(id, p) in states[k].acks ==> states[k].receiver.ingested[(p, id)] == 1
  {
    RunKeepsBase(states, steps, k);
  }

  // ----- power loss of the collector -----

  /** What a power loss can take away; `ChannelExposure` says by which steps an alarm gets here. */
  predicate Exposed(s: State, id: Identity)
    requires id in s.senders.promised
  {
    && At(s.senders.outbox, id).current != Some(s.senders.promised[id])
    && None in At(s.receiver.inbox, id).durable
  }

  function Surviving(d: Directory, gone: Identity): (next: Directory) {
    map id | id in d :: var c := if id == gone then None else d[id].current; Entry(c, {c})
  }

  lemma LossFollows(s: State, id: Identity) returns (next: State)
    requires GenuineDirectory(s.senders.used, s.receiver.inbox) && id in s.senders.promised && Exposed(s, id)
    ensures Next(s, ReceiverMoves(CollectorPowerLoss), next)
    ensures id in next.senders.promised && Lost(next, id)
  {
    var inbox := Surviving(s.receiver.inbox, id);
    next := s.(receiver := Restarted(s.receiver.(inbox := inbox)));
    forall other: Identity ensures Survives(At(s.receiver.inbox, other), At(inbox, other)) {
      assert Genuine(s.senders.used, other, At(s.receiver.inbox, other));
    }
  }

  /** The collector takes on only what its directory sync has made durable. */
  predicate Careful(r: Receiver, step: ReceiverStep) {
    && (step.Accept? && r.collector.Ingested? ==> None !in At(r.inbox, r.collector.id).durable)
    && (step.Recover? ==> None !in At(r.inbox, step.id).durable)
  }

  ghost predicate AllDurable(r: Receiver) {
    forall id <- r.confirmed :: None !in At(r.inbox, id).durable
  }

  lemma CarefulKeepsDurable(r: Receiver, sent: set<Message>, step: ReceiverStep, next: Receiver)
    requires CollectorOk(r) && ConfirmedOk(r) && PublishingOk(r) && AllDurable(r) && ReceiverNext(r, sent, step, next)
    requires Careful(r, step)
    ensures AllDurable(next)
  {
  }

  lemma {:induction false} CarefulRuns(states: seq<State>, steps: seq<Step>, k: nat)
    requires Run(states, steps) && k <= |steps|
    requires forall i :: 0 <= i < k && steps[i].ReceiverMoves? ==> Careful(states[i].receiver, steps[i].receiver)
    ensures Inv(states[k]) && AllDurable(states[k].receiver)
  {
    if k > 0 {
      CarefulRuns(states, steps, k - 1);
      var s, next := states[k - 1], states[k];
      NextKeepsInv(s, steps[k - 1], next);
      if steps[k - 1].ReceiverMoves? {
        CarefulKeepsDurable(s.receiver, s.sent, steps[k - 1].receiver, next.receiver);
      }
    }
  }

  /** With that care nothing is lost, whatever loses power and whenever. */
  lemma CarefulNeverLoses(states: seq<State>, steps: seq<Step>, k: nat, id: Identity)
    requires Run(states, steps) && k <= |steps|
    requires forall i :: 0 <= i < k && steps[i].ReceiverMoves? ==> Careful(states[i].receiver, steps[i].receiver)
    requires id in states[k].senders.promised
    ensures !Lost(states[k], id)
  {
    CarefulRuns(states, steps, k);
    InvMeansNoLoss(states[k], id);
  }

  /** ... and every answer in flight stands for an entry no power loss can take. */
  lemma CarefulAcksAreDurable(states: seq<State>, steps: seq<Step>, k: nat, ack: Ack)
    requires Run(states, steps) && k <= |steps|
    requires forall i :: 0 <= i < k && steps[i].ReceiverMoves? ==> Careful(states[i].receiver, steps[i].receiver)
    requires ack in states[k].acks
    ensures ack.id in states[k].senders.used
    ensures At(states[k].receiver.inbox, ack.id).durable == {Some(states[k].senders.used[ack.id])}
  {
    CarefulRuns(states, steps, k);
    var s, e := states[k], At(states[k].receiver.inbox, ack.id);
    assert Genuine(s.senders.used, ack.id, e);
    forall c | c in e.durable ensures c == Some(s.senders.used[ack.id]) {
      assert c != None;
    }
  }

  // ----- a run that loses an acknowledged alarm -----

  lemma Extend(states: seq<State>, steps: seq<Step>, step: Step, next: State)
    requires Run(states, steps) && Next(states[|steps|], step, next)
    ensures Run(states + [next], steps + [step])
  {
  }

  ghost predicate NoPowerLoss(steps: seq<Step>) {
    forall i :: 0 <= i < |steps| ==> steps[i] != ReceiverMoves(CollectorPowerLoss)
  }

  /** Promised and waiting for an answer; its inbox entry has been renamed but not synced. */
  predicate Underway(s: State, m: Message) {
    && m.id in s.senders.promised && s.senders.promised[m.id] == m.bytes
    && WorkerOf(s.senders, m.id.source) == Waiting(m) && m.id.source !in s.senders.storing
    && m in s.sent && None in At(s.receiver.inbox, m.id).durable
  }

  lemma Promise(m: Message) returns (states: seq<State>, steps: seq<Step>)
    ensures Run(states, steps) && NoPowerLoss(steps)
    ensures var s := states[|steps|];
      && s.senders.promised == map[m.id := m.bytes] && WorkerOf(s.senders, m.id.source) == Idle
      && m.id.source !in s.senders.storing && At(s.senders.outbox, m.id).current == Some(m.bytes)
      && s.receiver == START.receiver
  {
    var p := START.senders;
    var p1 := p.(outbox := Put(p.outbox, m.id, Some(m.bytes)), storing := p.storing[m.id.source := m],
                 used := p.used[m.id := m.bytes]);
    var p2 := p1.(outbox := Flush(p1.outbox, m.id.source));
    var p3 := p2.(storing := p2.storing - {m.id.source}, promised := p2.promised[m.id := m.bytes]);
    assert Settled(At(p2.outbox, m.id), m.bytes);
    states := [START, START.(senders := p1), START.(senders := p2), START.(senders := p3)];
    steps := [SenderMoves(EnqueueRename(m)), SenderMoves(OutboxSync(m.id.source)),
              SenderMoves(EnqueueReturn(m.id.source))];
    assert Next(states[0], steps[0], states[1]);
    assert Next(states[1], steps[1], states[2]);
    assert Next(states[2], steps[2], states[3]);
  }

  /** Sent and renamed into the inbox; then the collector's process crashes. */
  lemma Interrupt(m: Message) returns (states: seq<State>, steps: seq<Step>)
    ensures Run(states, steps) && NoPowerLoss(steps) && Underway(states[|steps|], m)
    ensures states[|steps|].receiver.collector == Recovering({m.id}) && states[|steps|].receiver.accepted == {}
  {
    states, steps := Promise(m);
    var s := states[|steps|];
    var s0 := s.(senders := s.senders.(workers := s.senders.workers[m.id.source := Picked(m.id)]));
    var s1 := s.(senders := s0.senders.(workers := s0.senders.workers[m.id.source := Waiting(m)]),
                 sent := s.sent + {m});
    var r := s.receiver.(collector := Publishing(m), inbox := Put(s.receiver.inbox, m.id, Some(m.bytes)));
    var s2, s3 := s1.(receiver := r), s1.(receiver := Restarted(r));
    var st := [SenderMoves(Pick(m.id)), SenderMoves(Send(m)), ReceiverMoves(Receive(m)), ReceiverMoves(CollectorCrash)];
    assert Present(r.inbox) == {m.id};
    Extend(states, steps, st[0], s0);
    Extend(states + [s0], steps + [st[0]], st[1], s1);
    Extend(states + [s0] + [s1], steps + [st[0]] + [st[1]], st[2], s2);
    Extend(states + [s0] + [s1] + [s2], steps + [st[0]] + [st[1]] + [st[2]], st[3], s3);
    states := states + [s0] + [s1] + [s2] + [s3];
    steps := steps + [st[0]] + [st[1]] + [st[2]] + [st[3]];
  }

  /** The new process recovers the file and answers a repeated frame from its memory. */
  lemma Acknowledge(m: Message) returns (states: seq<State>, steps: seq<Step>, ack: Ack)
    ensures Run(states, steps) && NoPowerLoss(steps) && Underway(states[|steps|], m)
    ensures ack in states[|steps|].acks && ack.id == m.id
  {
    states, steps := Interrupt(m);
    var s := states[|steps|];
    var r := s.receiver;
    var r1 := r.(collector := Recovering(r.collector.todo - {m.id}), accepted := r.accepted + {m.id},
                 confirmed := r.confirmed + {m.id}, ingested := r.ingested + multiset{(r.process, m.id)});
    var r2, r3 := r1.(collector := Listening), r1.(collector := Answering(m.id));
    ack := Ack(m.id, r.process);
    var s1, s2, s3 := s.(receiver := r1), s.(receiver := r2), s.(receiver := r3);
    var s4 := s2.(acks := s.acks + {ack});
    var st := [ReceiverMoves(Recover(m.id)), ReceiverMoves(RecoveryDone), ReceiverMoves(Receive(m)),
               ReceiverMoves(Answer(true))];
    assert r1.collector.todo == {};
    Extend(states, steps, st[0], s1);
    Extend(states + [s1], steps + [st[0]], st[1], s2);
    Extend(states + [s1] + [s2], steps + [st[0]] + [st[1]], st[2], s3);
    Extend(states + [s1] + [s2] + [s3], steps + [st[0]] + [st[1]] + [st[2]], st[3], s4);
    states := states + [s1] + [s2] + [s3] + [s4];
    steps := steps + [st[0]] + [st[1]] + [st[2]] + [st[3]];
  }

  /** The publisher removes an acknowledged alarm whose inbox entry was never synced. */
  lemma LosingRun(m: Message) returns (states: seq<State>, steps: seq<Step>)
    ensures Run(states, steps) && m.id in states[|steps|].senders.promised && Lost(states[|steps|], m.id)
    ensures exists ack <- states[|steps|].acks :: ack.id == m.id
  {
    var ack: Ack;
    states, steps, ack := Acknowledge(m);
    var s := states[|steps|];
    var p1 := s.senders.(workers := s.senders.workers[m.id.source := Removing(m.id)]);
    var p2 := p1.(workers := p1.workers[m.id.source := Idle], outbox := Put(p1.outbox, m.id, None));
    var s1, s2 := s.(senders := p1), s.(senders := p2);
    Extend(states, steps, SenderMoves(TakeAck(ack)), s1);
    Extend(states + [s1], steps + [SenderMoves(TakeAck(ack))], SenderMoves(RemoveSent(m.id.source)), s2);
    states := states + [s1] + [s2];
    steps := steps + [SenderMoves(TakeAck(ack))] + [SenderMoves(RemoveSent(m.id.source))];
    RunKeepsInv(states, steps, |steps|);
    var s3 := LossFollows(s2, m.id);
    Extend(states, steps, ReceiverMoves(CollectorPowerLoss), s3);
    states, steps := states + [s3], steps + [ReceiverMoves(CollectorPowerLoss)];
  }

  /** The other half of `NoLoss`: without its condition the property fails, for every message. */
  lemma AcknowledgedButLost(m: Message)
    ensures exists states: seq<State>, steps: seq<Step> ::
      && Run(states, steps) && m.id in states[|steps|].senders.promised && Lost(states[|steps|], m.id)
      && exists ack <- states[|steps|].acks :: ack.id == m.id
  {
    var states, steps := LosingRun(m);
  }
}
