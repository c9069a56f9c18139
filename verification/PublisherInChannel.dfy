/**
 The publisher's methods are steps of the channel. Beside a publisher's object runs a channel
 state whose outbox shows the object's disk; each call moves the channel by steps of its own,
 leaves the other sources alone and shows the disk again.

 A round of the worker holds the spool's lock three times: for the scan, for reading what it
 picked, and for removing it. `PickInChannel`, `SendInChannel` and `ConcludeInChannel` are these
 sections; between them the channel may do anything, this publisher's enqueues included.
 `RunIterationInChannel` is the whole round, with whatever the channel does while it waits for
 the answer.
 */
module PublisherInChannel {
  import opened Bytes
  import opened MonitorData
  import opened Names
  import opened SpoolDisk
  import opened AlarmSpool
  import opened SpoolRefinement
  import opened ReliablePublisher
  import opened ChannelProgress
  import opened ChannelSteps
  import Channel = ReliableChannel
  import Wire = AlarmProtocol

  // ----- the publisher's side -----

  /** No file that counts is here or may come back. */
  predicate Quiet(l: Lens, slot: Slot) {
    Content(l, slot.current) == None && forall file <- slot.durable :: Content(l, file) == None
  }

  /** The outbox holds alarms of its own source only. */
  ghost predicate OwnFiles(l: Lens, d: Disk, source: u64) {
    forall id: Identity :: id.source != source ==> Quiet(l, At(d, l.naming.path(id)))
  }

  /** The channel's outbox shows the disk of this source. */
  ghost predicate Seen(l: Lens, source: u64, d: Disk, p: Channel.Senders) {
    WellNamed(l.naming, Some(source)) && Mirrors(l, Some(source), d, p.outbox) && OwnFiles(l, d, source)
  }

  /** A publisher's object and the channel beside it, while nobody holds its lock. */
  ghost predicate PublisherSide(publisher: Publisher, source: u64, s: Channel.State)
    reads publisher.spool
  {
    && publisher.spool.Valid() && source !in s.senders.storing
    && Seen(Readables(publisher.spool.naming), source, publisher.spool.disk, s.senders)
  }

  /** Nothing of another source has changed. */
  ghost predicate Apart(source: u64, p: Channel.Senders, next: Channel.Senders) {
    && (forall id: Identity :: id.source != source ==> Channel.At(next.outbox, id) == Channel.At(p.outbox, id))
    && (forall other: u64 :: other != source ==>
          && Channel.WorkerOf(next, other) == Channel.WorkerOf(p, other)
          && (other in next.storing <==> other in p.storing))
  }

  /** So another publisher's side stays what it was. */
  lemma OthersAreApart(other: Publisher, theirs: u64, source: u64, s: Channel.State, t: Channel.State)
    requires PublisherSide(other, theirs, s) && Apart(source, s.senders, t.senders) && theirs != source
    ensures PublisherSide(other, theirs, t)
  {
    var l := Readables(other.spool.naming);
    SameEntries(l, Some(theirs), other.spool.disk, s.senders.outbox, t.senders.outbox);
  }

  // ----- enqueue -----

  function Renamed(p: Channel.Senders, m: Channel.Message): (next: Channel.Senders) {
    p.(outbox := Channel.Put(p.outbox, m.id, Some(m.bytes)), storing := p.storing[m.id.source := m],
       used := p.used[m.id := m.bytes])
  }

  /** The channel after an enqueue that went as `tale` says. */
  function Enqueued(p: Channel.Senders, m: Channel.Message, tale: Tale, ok: bool): (next: Channel.Senders) {
    if !tale.renamed then p
    else
      p.(outbox := ToldIn(p.outbox, m, tale), used := p.used[m.id := m.bytes],
         promised := if ok then p.promised[m.id := m.bytes] else p.promised)
  }

  lemma SyncOutbox(go: Relation, s: Channel.State, source: u64, synced: bool) returns (t: Channel.State)
    requires AdmitsCalm(go)
    ensures Leads(go, s, t) && t == s.(senders := s.senders.(outbox := FlushIf(s.senders.outbox, source, synced)))
  {
    t := s.(senders := s.senders.(outbox := FlushIf(s.senders.outbox, source, synced)));
    if synced {
      Sender(go, s, Channel.OutboxSync(source), t);
    } else {
      Nowhere(go, s);
    }
  }

  /** Rename, sync, and return or undo. */
  lemma EnqueueSteps(go: Relation, s: Channel.State, m: Channel.Message, tale: Tale, ok: bool)
    returns (t: Channel.State)
    requires AdmitsCalm(go) && m.id.source !in s.senders.storing && m.id !in s.senders.used
    requires tale.renamed ==> Channel.At(s.senders.outbox, m.id).current == None
    requires ok ==> tale == COMPLETED
    requires ok ==> Channel.Settled(Channel.At(Enqueued(s.senders, m, tale, ok).outbox, m.id), m.bytes)
    ensures Leads(go, s, t) && t == s.(senders := Enqueued(s.senders, m, tale, ok))
  {
    if !tale.renamed {
      Nowhere(go, s);
      return s;
    }
    var source := m.id.source;
    var a := s.(senders := Renamed(s.senders, m));
    Sender(go, s, Channel.EnqueueRename(m), a);
    var b := SyncOutbox(go, a, source, tale.synced);
    Then(go, s, a, b);
    var q := b.senders;
    assert q.storing - {source} == s.senders.storing;
    if ok {
      t := b.(senders := q.(storing := q.storing - {source}, promised := q.promised[m.id := m.bytes]));
      Sender(go, b, Channel.EnqueueReturn(source), t);
      Then(go, s, b, t);
    } else {
      var outbox := if tale.unlinked then Channel.Put(q.outbox, m.id, None) else q.outbox;
      var c := b.(senders := q.(storing := q.storing - {source}, outbox := outbox));
      Sender(go, b, Channel.EnqueueUndo(source, tale.unlinked), c);
      Then(go, s, b, c);
      t := SyncOutbox(go, c, source, tale.resynced);
      Then(go, s, c, t);
    }
  }

  lemma OwnAfterStore(l: Lens, source: u64, d: Disk, next: Disk, m: Channel.Message, tale: Tale)
    requires WellNamed(l.naming, Some(source)) && OwnFiles(l, d, source) && m.id.source == source
    requires next.data == Told(d.data, l.naming.path(m.id), File(m.bytes, true), tale)
    ensures OwnFiles(l, next, source)
  {
    forall id: Identity | id.source != source ensures Quiet(l, At(next, l.naming.path(id))) {
      assert Quiet(l, At(d, l.naming.path(id)));
      ToldElsewhere(d, next, l.naming.path(m.id), File(m.bytes, true), tale, l.naming.path(id));
    }
  }

  lemma EnqueueIsApart(p: Channel.Senders, m: Channel.Message, tale: Tale, ok: bool)
    ensures Apart(m.id.source, p, Enqueued(p, m, tale, ok))
  {
  }

  lemma EnqueueShown(l: Lens, source: u64, d: Disk, next: Disk, s: Channel.State, m: Channel.Message, tale: Tale,
                     ok: bool)
    returns (t: Channel.State)
    requires Seen(l, source, d, s.senders) && Reachable(s)
    requires m.id.source == source && source !in s.senders.storing && m.id !in s.senders.used
    requires next.data == Told(d.data, l.naming.path(m.id), File(m.bytes, true), tale)
    requires tale.renamed ==> At(d, l.naming.path(m.id)).current == None && l.good(m.bytes)
    requires ok ==> tale == COMPLETED
    ensures Reachable(t) && t == s.(senders := Enqueued(s.senders, m, tale, ok))
    ensures Seen(l, source, next, t.senders)
  {
    OwnAfterStore(l, source, d, next, m, tale);
    ToldMirrored(l, Some(source), d, next, s.senders.outbox, m, tale);
    assert Shows(l, d, s.senders.outbox, m.id);
    if ok {
      CompletedIsSettled(d.data, l.naming.path(m.id), File(m.bytes, true));
      SettledShows(l, Some(source), next, Enqueued(s.senders, m, tale, ok).outbox, m.id, m.bytes);
    }
    CalmlyAdmits();
    t := EnqueueSteps(Calmly, s, m, tale, ok);
    ReachableOn(s, t);
  }

  ghost predicate OneMore(used: map<Identity, Channel.Content>, id: Identity, next: map<Identity, Channel.Content>) {
    id in next && next == used[id := next[id]]
  }

  /**
   An enqueue is a sequence of channel steps, and promises what it returned success for.
   `ids` are fresh: none has been used by this source. At most one of them is used up.
   */
  method EnqueueInChannel(publisher: Publisher, source: u64, record: StoredRecord,
                          ids: nat -> Option<Wire.MessageId>, ghost s: Channel.State)
    returns (r: EnqueueStatus, ghost t: Channel.State)
    requires PublisherSide(publisher, source, s) && Reachable(s)
    requires publisher.draft(record).Some? ==> publisher.draft(record).value.source == source
    requires forall k: nat :: ids(k).Some? ==> Identity(source, ids(k).value) !in s.senders.used
    modifies publisher.spool
    ensures PublisherSide(publisher, source, t) && Reachable(t) && Apart(source, s.senders, t.senders)
    ensures t == s.(senders := s.senders.(outbox := t.senders.outbox, used := t.senders.used,
                                          promised := t.senders.promised))
    ensures t.senders.used == s.senders.used ||
            exists k: nat :: ids(k).Some? && OneMore(s.senders.used, Identity(source, ids(k).value), t.senders.used)
    ensures r != Stored ==> t.senders.promised == s.senders.promised
    ensures r == Stored ==> exists m: Channel.Message ::
      && m.id.source == source && m.id !in s.senders.used
      && t.senders.promised == s.senders.promised[m.id := m.bytes] && t.senders.used == s.senders.used[m.id := m.bytes]
      && Settled(At(publisher.spool.disk, publisher.spool.naming.path(m.id)), m.bytes)
  {
    ghost var l, before := Readables(publisher.spool.naming), publisher.spool.disk;
    ghost var stored, last, tale;
    ghost var tried;
    r, stored, last, tale, tried := publisher.Enqueue(record, ids);
    t := s;
    if last.None? {
      SameData(l, Some(source), before, publisher.spool.disk, s.senders.outbox);
    } else {
      ghost var m := Channel.Message(Collector.IdOf(last.value), publisher.encode(last.value).value);
      t := EnqueueShown(l, source, before, publisher.spool.disk, s, m, tale, r == Stored);
      EnqueueIsApart(s.senders, m, tale, r == Stored);
      assert tale.renamed ==> OneMore(s.senders.used, m.id, t.senders.used);
    }
  }

  // ----- the end of a round -----

  /** What a round leaves behind: the worker idle, and perhaps changes in its own outbox. */
  ghost predicate Rounded(source: u64, s: Channel.State, t: Channel.State) {
    && t == s.(senders := s.senders.(workers := t.senders.workers, outbox := t.senders.outbox))
    && Channel.WorkerOf(t.senders, source) == Channel.Idle && Apart(source, s.senders, t.senders)
  }

  function Idling(s: Channel.State, source: u64, outbox: Channel.Directory): (t: Channel.State) {
    s.(senders := s.senders.(workers := s.senders.workers[source := Channel.Idle], outbox := outbox))
  }

  lemma IdlingIsRounded(s: Channel.State, source: u64, outbox: Channel.Directory)
    requires forall id: Identity :: id.source != source ==> Channel.At(outbox, id) == Channel.At(s.senders.outbox, id)
    ensures Rounded(source, s, Idling(s, source, outbox))
  {
  }

  /** The thread gives up what it is doing; a sync of its outbox may have come first. */
  lemma GivesUp(go: Relation, s: Channel.State, source: u64, synced: bool) returns (t: Channel.State)
    requires AdmitsCalm(go)
    ensures Leads(go, s, t) && t == Idling(s, source, FlushIf(s.senders.outbox, source, synced))
  {
    var a := SyncOutbox(go, s, source, synced);
    t := a.(senders := a.senders.(workers := a.senders.workers[source := Channel.Idle]));
    Sender(go, a, Channel.GiveUp(source), t);
    Then(go, s, a, t);
  }

  function Removed(dir: Channel.Directory, id: Identity, unlinked: bool, synced: bool): (next: Channel.Directory) {
    FlushIf(if unlinked then Channel.Put(dir, id, None) else dir, id.source, synced)
  }

  /** Answered, unlinked, and perhaps synced. */
  lemma RemoveSteps(go: Relation, s: Channel.State, m: Channel.Message, ack: Channel.Ack, synced: bool)
    returns (t: Channel.State)
    requires AdmitsCalm(go) && Channel.WorkerOf(s.senders, m.id.source) == Channel.Waiting(m)
    requires m.id.source !in s.senders.storing && ack in s.acks && ack.id == m.id
    ensures Leads(go, s, t) && t == Idling(s, m.id.source, Removed(s.senders.outbox, m.id, true, synced))
  {
    var p, source := s.senders, m.id.source;
    var a := s.(senders := p.(workers := p.workers[source := Channel.Removing(m.id)]));
    var b := Idling(s, source, Channel.Put(p.outbox, m.id, None));
    Sender(go, s, Channel.TakeAck(ack), a);
    Sender(go, a, Channel.RemoveSent(source), b);
    Then(go, s, a, b);
    t := SyncOutbox(go, b, source, synced);
    Then(go, s, b, t);
  }

  lemma OwnAfterRemoval(l: Lens, source: u64, d: Disk, next: Disk, p: Path, gone: bool, synced: bool)
    requires OwnFiles(l, d, source) && next.data == After(d.data, p, gone, synced)
    ensures OwnFiles(l, next, source)
  {
    forall id: Identity | id.source != source ensures Quiet(l, At(next, l.naming.path(id))) {
      assert Quiet(l, At(d, l.naming.path(id)));
    }
  }

  /** A damaged file is moved away, or nothing happens; the thread gives up. */
  lemma AsideShown(l: Lens, source: u64, d: Disk, next: Disk, s: Channel.State, p: Path, moved: bool, synced: bool)
    returns (t: Channel.State)
    requires Seen(l, source, d, s.senders) && Reachable(s) && next.data == After(d.data, p, moved, synced)
    requires (moved ==> Content(l, At(d, p).current) == None) && (synced ==> moved)
    ensures Reachable(t) && Seen(l, source, next, t.senders) && Rounded(source, s, t)
  {
    OwnAfterRemoval(l, source, d, next, p, moved, synced);
    var d1 := if moved then d.(data := Put(d.data, p, None)) else d;
    if moved {
      ReachableIsClosed(s);
      AsideMirrored(l, Some(source), d, p, d1, s.senders.outbox);
    }
    var flushed := SyncIfMirrored(l, Some(source), d1, p.directory, synced, next, s.senders.outbox);
    CalmlyAdmits();
    t := GivesUp(Calmly, s, source, flushed.Some?);
    IdlingIsRounded(s, source, t.senders.outbox);
    ReachableOn(s, t);
  }

  lemma RemovalShown(l: Lens, source: u64, d: Disk, next: Disk, dir: Channel.Directory, id: Identity, unlinked: bool,
                     synced: bool)
    requires WellNamed(l.naming, Some(source)) && Mirrors(l, Some(source), d, dir) && id.source == source
    requires next.data == After(d.data, l.naming.path(id), unlinked, synced)
    ensures Mirrors(l, Some(source), next, Removed(dir, id, unlinked, synced))
  {
    RestMirrored(l, Some(source), d, next, id, Tale(true, false, unlinked, synced), dir);
  }

  /** The answered file is removed, or the thread gives up. */
  lemma ConcludeShown(l: Lens, source: u64, d: Disk, next: Disk, s: Channel.State, m: Channel.Message, unlinked: bool,
                      synced: bool)
    returns (t: Channel.State)
    requires Seen(l, source, d, s.senders) && Reachable(s) && m.id.source == source && source !in s.senders.storing
    requires Channel.WorkerOf(s.senders, source) == Channel.Waiting(m)
    requires next.data == After(d.data, l.naming.path(m.id), unlinked, synced)
    requires (synced ==> unlinked) && (unlinked ==> exists ack <- s.acks :: ack.id == m.id)
    ensures Reachable(t) && Seen(l, source, next, t.senders) && Rounded(source, s, t)
  {
    OwnAfterRemoval(l, source, d, next, l.naming.path(m.id), unlinked, synced);
    RemovalShown(l, source, d, next, s.senders.outbox, m.id, unlinked, synced);
    CalmlyAdmits();
    if unlinked {
      var ack :| ack in s.acks && ack.id == m.id;
      t := RemoveSteps(Calmly, s, m, ack, synced);
    } else {
      t := GivesUp(Calmly, s, source, false);
    }
    IdlingIsRounded(s, source, t.senders.outbox);
    ReachableOn(s, t);
  }

  // ----- the sections of a round -----

  /** A file that can be read, under the name it spells, is an entry of the channel. */
  lemma FileMessage(l: Lens, source: u64, d: Disk, p: Path, s: Channel.State) returns (m: Channel.Message)
    requires l == Readables(l.naming) && Seen(l, source, d, s.senders) && Named(l.naming, d) && Intact(l.naming, d, p)
    ensures p == l.naming.path(m.id) && At(d, p).current.value.bytes == m.bytes
    ensures l.naming.decode(m.bytes).Ok? && Collector.IdOf(l.naming.decode(m.bytes).value) == m.id
    ensures m.id.source == source && Channel.At(s.senders.outbox, m.id).current == Some(m.bytes)
  {
    assert NamedSlot(l.naming, p, At(d, p));
    var bytes := At(d, p).current.value.bytes;
    m := Channel.Message(Collector.IdOf(l.naming.decode(bytes).value), bytes);
    assert Content(l, At(d, p).current) == Some(bytes);
    assert m.id.source != source ==> Quiet(l, At(d, l.naming.path(m.id)));
    assert Shows(l, d, s.senders.outbox, m.id);
  }

  /** The state with this thread at `worker`. */
  function With(s: Channel.State, source: u64, worker: Channel.Worker): (t: Channel.State) {
    s.(senders := s.senders.(workers := s.senders.workers[source := worker]))
  }

  lemma WithKeeps(l: Lens, source: u64, d: Disk, s: Channel.State, worker: Channel.Worker)
    requires Seen(l, source, d, s.senders)
    ensures Seen(l, source, d, With(s, source, worker).senders)
    ensures Apart(source, s.senders, With(s, source, worker).senders)
  {
  }

  /** The scan: the worker has picked a file that can be read, or is where it was. */
  method PickInChannel(publisher: Publisher, source: u64, ghost s: Channel.State)
    returns (p: Option<Path>, ghost t: Channel.State)
    requires PublisherSide(publisher, source, s) && Reachable(s) && publisher.spool.named
    requires Channel.WorkerOf(s.senders, source) == Channel.Idle
    modifies publisher.spool
    ensures PublisherSide(publisher, source, t) && Reachable(t) && publisher.spool.disk == old(publisher.spool.disk)
    ensures p.Some? && publisher.spool.faults == old(publisher.spool.faults) ==>
      Lowest(p.value, Present(publisher.spool.disk.data))
    ensures p.None? || !Intact(publisher.spool.naming, publisher.spool.disk, p.value) ==> t == s
    ensures p.Some? && Intact(publisher.spool.naming, publisher.spool.disk, p.value) ==> exists id: Identity ::
      id.source == source && p.value == publisher.spool.naming.path(id) && t == With(s, source, Channel.Picked(id))
  {
    ghost var l, d := Readables(publisher.spool.naming), publisher.spool.disk;
    var status;
    ghost var skipped;
    status, p, skipped := publisher.spool.Next();
    assert skipped == {} ==> Present(d.data) - skipped == Present(d.data);
    t := s;
    if p.Some? && Intact(publisher.spool.naming, publisher.spool.disk, p.value) {
      ghost var m := FileMessage(l, source, d, p.value, s);
      t := With(s, source, Channel.Picked(m.id));
      WithKeeps(l, source, d, s, Channel.Picked(m.id));
      PickStep(s, m.id);
    }
  }

  lemma PickStep(s: Channel.State, id: Identity)
    requires Reachable(s) && Channel.WorkerOf(s.senders, id.source) == Channel.Idle && id.source !in s.senders.storing
    requires Channel.At(s.senders.outbox, id).current.Some?
    ensures Reachable(With(s, id.source, Channel.Picked(id)))
  {
    CalmlyAdmits();
    Sender(Calmly, s, Channel.Pick(id), With(s, id.source, Channel.Picked(id)));
    ReachableOn(s, With(s, id.source, Channel.Picked(id)));
  }

  /** This thread waits for the answer to `m`, which has been sent. */
  function Sending(s: Channel.State, m: Channel.Message): (t: Channel.State) {
    With(s, m.id.source, Channel.Waiting(m)).(sent := s.sent + {m})
  }

  /** The thread is about to read `p`. */
  ghost predicate Reading(n: Naming, p: Path, source: u64, s: Channel.State) {
    var worker := Channel.WorkerOf(s.senders, source);
    worker == Channel.Idle || (worker.Picked? && n.path(worker.id) == p)
  }

  lemma SendStep(s: Channel.State, n: Naming, m: Channel.Message)
    requires Reachable(s) && WellNamed(n, Some(m.id.source)) && m.id.source !in s.senders.storing
    requires Reading(n, n.path(m.id), m.id.source, s) && Channel.At(s.senders.outbox, m.id).current == Some(m.bytes)
    ensures Reachable(Sending(s, m))
  {
    var a := s;
    if Channel.WorkerOf(s.senders, m.id.source) == Channel.Idle {
      a := With(s, m.id.source, Channel.Picked(m.id));
      PickStep(s, m.id);
    }
    CalmlyAdmits();
    assert Sending(s, m) == Sending(a, m);
    Sender(Calmly, a, Channel.Send(m), Sending(a, m));
    ReachableOn(a, Sending(a, m));
  }

  /** Reading and sending: the worker waits for an answer, or the round is over. */
  method SendInChannel(publisher: Publisher, source: u64, p: Path, connected: bool, failing: nat -> bool,
                       ghost s: Channel.State)
    returns (sent: Option<seq<byte>>, ghost t: Channel.State)
    requires PublisherSide(publisher, source, s) && Reachable(s) && publisher.spool.named
    requires Reading(publisher.spool.naming, p, source, s)
    modifies publisher.spool
    ensures PublisherSide(publisher, source, t) && Reachable(t)
    ensures sent.None? ==> Rounded(source, s, t)
    ensures sent.Some? ==> exists m: Channel.Message ::
      && m.id.source == source && m.bytes == sent.value && p == publisher.spool.naming.path(m.id)
      && Carries(publisher.spool.naming, m) && t == Sending(s, m)
  {
    ghost var n, d := publisher.spool.naming, publisher.spool.disk;
    ghost var l, moved, synced := Readables(n), false, false;
    sent, moved, synced := publisher.Fetch(p, connected, failing);
    if sent.Some? {
      ghost var m := FileMessage(l, source, d, p, s);
      t := Sending(s, m);
      WithKeeps(l, source, d, s, Channel.Waiting(m));
      SendStep(s, n, m);
      assert Carries(n, m);
    } else {
      t := AsideShown(l, source, d, publisher.spool.disk, s, p, moved, synced);
    }
  }

  /** The bytes are a frame of this identity. */
  predicate Carries(n: Naming, m: Channel.Message) {
    n.decode(m.bytes).Ok? && Collector.IdOf(n.decode(m.bytes).value) == m.id
  }

  /** An answer to this identity is one that the collector has sent. */
  ghost predicate Answered(answer: Option<Wire.AlarmFrame>, id: Identity, acks: set<Channel.Ack>) {
    answer.Some? && answer.value.kind == Wire.ACK && Collector.IdOf(answer.value) == id ==>
      exists ack <- acks :: ack.id == id
  }

  /** The end of the wait: the answered file is removed. */
  method ConcludeInChannel(publisher: Publisher, source: u64, bytes: seq<byte>, answer: Option<Wire.AlarmFrame>,
                           ghost m: Channel.Message, ghost s: Channel.State)
    returns (ghost t: Channel.State)
    requires PublisherSide(publisher, source, s) && Reachable(s)
    requires m.bytes == bytes && m.id.source == source && Carries(publisher.spool.naming, m)
    requires Channel.WorkerOf(s.senders, source) == Channel.Waiting(m) && Answered(answer, m.id, s.acks)
    modifies publisher.spool
    ensures PublisherSide(publisher, source, t) && Reachable(t) && Rounded(source, s, t)
  {
    ghost var l, d := Readables(publisher.spool.naming), publisher.spool.disk;
    ghost var unlinked, synced;
    var p := publisher.spool.naming.path(Collector.IdOf(publisher.spool.naming.decode(bytes).value));
    unlinked, synced := publisher.Conclude(p, bytes, answer);
    t := ConcludeShown(l, source, d, publisher.spool.disk, s, m, unlinked, synced);
  }

  // ----- a whole round -----

  /** While this thread waits, the channel goes on; this source's outbox and thread stay as they are. */
  ghost predicate Meanwhile(source: u64, a: Channel.State, later: Channel.State) {
    && Leads(Calmly, a, later) && source !in later.senders.storing
    && Channel.WorkerOf(later.senders, source) == Channel.WorkerOf(a.senders, source)
    && forall id: Identity :: id.source == source ==>
         Channel.At(later.senders.outbox, id) == Channel.At(a.senders.outbox, id)
  }

  predicate Sendable(p: Channel.Senders, source: u64, m: Channel.Message) {
    m.id.source == source && Channel.At(p.outbox, m.id).current == Some(m.bytes)
  }

  lemma AnswerComes(l: Lens, source: u64, d: Disk, s: Channel.State, m: Channel.Message, later: Channel.State)
    requires Seen(l, source, d, s.senders) && Reachable(s) && source !in s.senders.storing
    requires Channel.WorkerOf(s.senders, source) == Channel.Idle && Sendable(s.senders, source, m)
    requires Meanwhile(source, Sending(s, m), later)
    ensures Reachable(later) && Seen(l, source, d, later.senders)
    ensures Channel.WorkerOf(later.senders, source) == Channel.Waiting(m)
  {
    SendStep(s, l.naming, m);
    ReachableOn(Sending(s, m), later);
    SameEntries(l, Some(source), d, s.senders.outbox, later.senders.outbox);
  }

  /**
   A round of the worker, from its scan to its end. If it sends `m` the channel is at `later(m)`
   when the answer is there, and the answer has been given by then.
   */
  method RunIterationInChannel(publisher: Publisher, source: u64, connected: bool, answer: Option<Wire.AlarmFrame>,
                               failing: nat -> bool, ghost s: Channel.State,
                               ghost later: Channel.Message -> Channel.State)
    returns (sent: Option<seq<byte>>, ghost t: Channel.State)
    requires PublisherSide(publisher, source, s) && Reachable(s) && publisher.spool.named
    requires Channel.WorkerOf(s.senders, source) == Channel.Idle
    requires forall m: Channel.Message :: Sendable(s.senders, source, m) ==>
      Meanwhile(source, Sending(s, m), later(m)) && Answered(answer, m.id, later(m).acks)
    modifies publisher.spool
    ensures PublisherSide(publisher, source, t) && Reachable(t)
    ensures sent.None? ==> Rounded(source, s, t)
    ensures sent.Some? ==> exists m: Channel.Message ::
      Sendable(s.senders, source, m) && m.bytes == sent.value && Rounded(source, later(m), t)
  {
    ghost var n, d := publisher.spool.naming, publisher.spool.disk;
    ghost var l, from, gone, synced := Readables(n), None, false, false;
    sent, from, gone, synced := publisher.RunIteration(connected, answer, failing);
    if sent.Some? {
      ghost var m := FileMessage(l, source, d, from.value, s);
      AnswerComes(l, source, d, s, m, later(m));
      t := ConcludeShown(l, source, d, publisher.spool.disk, later(m), m, gone, synced);
    } else if from.Some? {
      t := AsideShown(l, source, d, publisher.spool.disk, s, from.value, gone, synced);
    } else {
      t := s;
      SameData(l, Some(source), d, publisher.spool.disk, s.senders.outbox);
    }
  }

  // ----- restart -----

  /**
   A new process on what the old one left on the disk, or on what a power loss left of that. It
   may find the channel in the middle of an enqueue.
   */
  method RestartPublisher(publisher: Publisher, source: u64, pid: nat, disk: Disk, ghost s: Channel.State)
    returns (restarted: Publisher, ghost t: Channel.State)
    requires Seen(Readables(publisher.spool.naming), source, publisher.spool.disk, s.senders) && Reachable(s)
    requires disk != publisher.spool.disk ==> Firm(publisher.spool.disk) && PowerLoss(publisher.spool.disk, disk)
    ensures fresh(restarted) && restarted.spool.disk == disk && restarted.spool.naming == publisher.spool.naming
    ensures restarted.spool.named == Named(publisher.spool.naming, disk)
    ensures Sound(publisher.spool.naming, publisher.spool.disk) ==> restarted.spool.named
    ensures PublisherSide(restarted, source, t) && Reachable(t)
    ensures Channel.WorkerOf(t.senders, source) == Channel.Idle && Apart(source, s.senders, t.senders)
    ensures t == s.(senders := t.senders) && t.senders.used == s.senders.used
    ensures t.senders.promised == s.senders.promised
  {
    ghost var l := Readables(publisher.spool.naming);
    t := StopShown(l, source, publisher.spool.disk, disk, s);
    var spool := new Spool(publisher.spool.naming, publisher.spool.inbox, publisher.spool.maxBytes, pid, disk);
    restarted := new Publisher(spool, publisher.draft, publisher.encode);
    if Sound(publisher.spool.naming, publisher.spool.disk) && disk != publisher.spool.disk {
      LossKeepsSound(publisher.spool.naming, publisher.spool.disk, disk);
    }
  }

  lemma StopShown(l: Lens, source: u64, d: Disk, next: Disk, s: Channel.State) returns (t: Channel.State)
    requires Seen(l, source, d, s.senders) && Reachable(s) && (next != d ==> Firm(d) && PowerLoss(d, next))
    ensures Reachable(t) && Seen(l, source, next, t.senders) && source !in t.senders.storing
    ensures Channel.WorkerOf(t.senders, source) == Channel.Idle && Apart(source, s.senders, t.senders)
    ensures t == s.(senders := t.senders) && t.senders.used == s.senders.used
    ensures t.senders.promised == s.senders.promised
  {
    var stopped := Channel.Stopped(s.senders, source);
    CalmlyAdmits();
    if next == d {
      t := s.(senders := stopped);
      Sender(Calmly, s, Channel.PublisherCrash(source), t);
    } else {
      var outbox := AfterLoss(l, Some(source), next, s.senders.outbox);
      LossMirrored(l, Some(source), d, next, s.senders.outbox);
      OwnAfterLoss(l, source, d, next);
      t := s.(senders := stopped.(outbox := outbox));
      Sender(Calmly, s, Channel.PublisherPowerLoss(source), t);
    }
    ReachableOn(s, t);
  }

  lemma OwnAfterLoss(l: Lens, source: u64, d: Disk, next: Disk)
    requires OwnFiles(l, d, source) && Firm(d) && PowerLoss(d, next)
    ensures OwnFiles(l, next, source)
  {
    forall id: Identity | id.source != source ensures Quiet(l, At(next, l.naming.path(id))) {
      var p := l.naming.path(id);
      assert Quiet(l, At(d, p)) && FirmSlot(At(d, p));
      var kept: Option<File> :| Remains(At(d, p), At(next, p), kept);
    }
  }
}
