/**
 The collector's methods are steps of the channel. Beside a collector's object runs a channel
 state whose inbox shows the files of its disk that carry a record; each call moves the channel
 by steps of its own and shows the disk again.

 `AnswerCanCome` closes the circle with the publisher's round: from every reachable state with a
 listening collector, a frame sent in this very round can be answered while the round waits.
 */
module CollectorInChannel {
  import opened Bytes
  import opened MonitorData
  import opened Names
  import opened SpoolDisk
  import opened AlarmSpool
  import opened SpoolRefinement
  import opened ReliableCollector
  import opened ChannelProgress
  import opened ChannelSteps
  import opened PublisherInChannel
  import Channel = ReliableChannel
  import InboxRecovery
  import MonitorStore
  import Wire = AlarmProtocol

  // ----- the collector's side -----

  /** The frames that carry a record count. */
  function Records(n: Naming, c: Codec): (l: Lens) {
    Lens(n, (bytes: seq<byte>) => Readable(n, bytes) && c.payload(n.decode(bytes).value).Some?)
  }

  lemma RecordsAreItems(n: Naming, c: Codec, d: Disk, p: Path)
    ensures Content(Records(n, c), At(d, p).current).Some? <==> ItemAt(n, c, d, p).Some?
  {
  }

  ghost predicate AllLegible(n: Naming, c: Codec, d: Disk) {
    forall p: Path :: Legible(n, c, d, p)
  }

  /** The channel's inbox shows what the disk's files carry. */
  ghost predicate InboxSeen(n: Naming, c: Codec, d: Disk, r: Channel.Receiver) {
    WellNamed(n, None) && Mirrors(Records(n, c), None, d, r.inbox)
  }

  /** A collector's object and the channel beside it, between two frames. */
  ghost predicate CollectorSide(collector: ReliableCollector.Collector, s: Channel.State)
    reads collector, collector.spool
  {
    && collector.Valid() && collector.spool.named
    && InboxSeen(collector.spool.naming, collector.codec, collector.spool.disk, s.receiver)
    && AllLegible(collector.spool.naming, collector.codec, collector.spool.disk)
    && s.receiver.collector == Channel.Listening && collector.accepted == s.receiver.accepted
  }

  // ----- one received frame -----

  lemma SyncInbox(go: Relation, s: Channel.State, source: u64, synced: bool) returns (t: Channel.State)
    requires AdmitsCalm(go)
    ensures Leads(go, s, t) && t == s.(receiver := s.receiver.(inbox := FlushIf(s.receiver.inbox, source, synced)))
  {
    t := s.(receiver := s.receiver.(inbox := FlushIf(s.receiver.inbox, source, synced)));
    if synced {
      Receiver(go, s, Channel.InboxSync(source), t);
    } else {
      Nowhere(go, s);
    }
  }

  /** What the collector's side looks like when a frame has been dealt with. */
  ghost predicate DealtWith(s: Channel.State, t: Channel.State, id: Identity, inbox: Channel.Directory, took: bool) {
    && t == s.(receiver := t.receiver, acks := t.acks) && s.acks <= t.acks
    && t.receiver.collector == Channel.Listening && t.receiver.inbox == inbox
    && t.receiver.process == s.receiver.process
    && t.receiver.accepted == (if took then s.receiver.accepted + {id} else s.receiver.accepted)
    && (took ==> Channel.Ack(id, s.receiver.process) in t.acks)
  }

  /** Ingested, remembered and answered; or refused. */
  lemma TakeSteps(go: Relation, s: Channel.State, id: Identity, took: bool) returns (t: Channel.State)
    requires AdmitsCalm(go) && s.receiver.collector == Channel.Holding(id)
    ensures Leads(go, s, t) && DealtWith(s, t, id, s.receiver.inbox, took)
  {
    var r := s.receiver;
    if !took {
      t := s.(receiver := r.(collector := Channel.Listening));
      Receiver(go, s, Channel.Refuse, t);
      return;
    }
    var a := s.(receiver := r.(collector := Channel.Ingested(id), ingested := r.ingested + multiset{(r.process, id)}));
    var b := a.(receiver := a.receiver.(collector := Channel.Answering(id), accepted := r.accepted + {id},
                                        confirmed := r.confirmed + {id}));
    t := b.(receiver := b.receiver.(collector := Channel.Listening), acks := s.acks + {Channel.Ack(id, r.process)});
    Receiver(go, s, Channel.Ingest, a);
    Receiver(go, a, Channel.Accept, b);
    Receiver(go, b, Channel.Answer(true), t);
    Then(go, s, a, b);
    Then(go, s, b, t);
  }

  /** Answered from memory. */
  lemma RepeatSteps(go: Relation, s: Channel.State, m: Channel.Message) returns (t: Channel.State)
    requires AdmitsCalm(go) && s.receiver.collector == Channel.Listening && m in s.sent
    requires m.id in s.receiver.accepted
    ensures Leads(go, s, t) && DealtWith(s, t, m.id, s.receiver.inbox, true)
  {
    var r := s.receiver;
    var a := s.(receiver := r.(collector := Channel.Answering(m.id)));
    t := s.(acks := s.acks + {Channel.Ack(m.id, r.process)});
    Receiver(go, s, Channel.Receive(m), a);
    Receiver(go, a, Channel.Answer(true), t);
    Then(go, s, a, t);
    assert s.receiver.accepted + {m.id} == s.receiver.accepted;
  }

  /** Found in the inbox already. */
  lemma PresentSteps(go: Relation, s: Channel.State, m: Channel.Message, took: bool) returns (t: Channel.State)
    requires AdmitsCalm(go) && s.receiver.collector == Channel.Listening && m in s.sent
    requires m.id !in s.receiver.accepted
    requires Channel.At(s.receiver.inbox, m.id).current.Some?
    ensures Leads(go, s, t) && DealtWith(s, t, m.id, s.receiver.inbox, took)
  {
    var a := s.(receiver := s.receiver.(collector := Channel.Holding(m.id)));
    Receiver(go, s, Channel.Receive(m), a);
    t := TakeSteps(go, a, m.id, took);
    Then(go, s, a, t);
  }

  /** Stored as `tale` says, then taken on if the store is complete. */
  lemma StoreSteps(go: Relation, s: Channel.State, m: Channel.Message, tale: Tale, ok: bool, took: bool)
    returns (t: Channel.State)
    requires AdmitsCalm(go) && s.receiver.collector == Channel.Listening && m in s.sent
    requires m.id !in s.receiver.accepted
    requires tale.renamed && Channel.At(s.receiver.inbox, m.id).current == None
    requires (took ==> ok) && (ok ==> tale == COMPLETED)
    requires ok ==> Channel.Settled(Channel.At(ToldIn(s.receiver.inbox, m, tale), m.id), m.bytes)
    ensures Leads(go, s, t) && DealtWith(s, t, m.id, ToldIn(s.receiver.inbox, m, tale), took)
  {
    var r, source := s.receiver, m.id.source;
    var a := s.(receiver := r.(collector := Channel.Publishing(m), inbox := Channel.Put(r.inbox, m.id, Some(m.bytes))));
    Receiver(go, s, Channel.Receive(m), a);
    var b := SyncInbox(go, a, source, tale.synced);
    Then(go, s, a, b);
    if ok {
      var c := b.(receiver := b.receiver.(collector := Channel.Holding(m.id)));
      Receiver(go, b, Channel.StoreReturn, c);
      Then(go, s, b, c);
      t := TakeSteps(go, c, m.id, took);
      Then(go, s, c, t);
    } else {
      var inbox := if tale.unlinked then Channel.Put(b.receiver.inbox, m.id, None) else b.receiver.inbox;
      var c := b.(receiver := b.receiver.(collector := Channel.Listening, inbox := inbox));
      Receiver(go, b, Channel.StoreUndo(tale.unlinked), c);
      Then(go, s, b, c);
      t := SyncInbox(go, c, source, tale.resynced);
      Then(go, s, c, t);
    }
  }

  /** A store of a frame with a record leaves every file with one. */
  lemma StoreKeepsLegible(n: Naming, c: Codec, d: Disk, next: Disk, frame: Wire.AlarmFrame, tale: Tale)
    requires AllLegible(n, c, d) && Lawful(n, c) && c.encode(frame).Ok? && c.payload(frame).Some?
    requires tale.renamed ==> Readable(n, c.encode(frame).value)
    requires next.data == Told(d.data, n.path(IdOf(frame)), File(c.encode(frame).value, true), tale)
    ensures AllLegible(n, c, next)
  {
    var p, file := n.path(IdOf(frame)), File(c.encode(frame).value, true);
    forall q: Path ensures Legible(n, c, next, q) {
      assert Legible(n, c, d, q);
      if q != p {
        ToldElsewhere(d, next, p, file, tale, q);
      } else {
        ToldHere(d, next, p, file, tale);
      }
      SameItem(n, c, d, next, q);
    }
  }

  lemma ToldHere(d: Disk, next: Disk, p: Path, file: File, tale: Tale)
    requires next.data == Told(d.data, p, file, tale)
    ensures At(next, p).current in {None, Some(file), At(d, p).current}
    ensures !tale.renamed ==> At(next, p).current == At(d, p).current
  {
  }

  lemma FrameShown(n: Naming, c: Codec, d: Disk, next: Disk, s: Channel.State, frame: Wire.AlarmFrame,
                   attempt: Attempt, took: bool)
    returns (t: Channel.State)
    requires InboxSeen(n, c, d, s.receiver) && Reachable(s) && AllLegible(n, c, d) && Lawful(n, c)
    requires s.receiver.collector == Channel.Listening && IdOf(frame) !in s.receiver.accepted
    requires c.encode(frame).Ok? && c.payload(frame).Some?
    requires Channel.Message(IdOf(frame), c.encode(frame).value) in s.sent
    requires Plausible(attempt, At(d, n.path(IdOf(frame)))) && (took ==> attempt.Found())
    requires attempt.tale.renamed ==> Readable(n, c.encode(frame).value)
    requires next.data == Told(d.data, n.path(IdOf(frame)), File(c.encode(frame).value, true), attempt.tale)
    ensures Reachable(t) && InboxSeen(n, c, next, t.receiver)
    ensures DealtWith(s, t, IdOf(frame), t.receiver.inbox, took)
  {
    var l, m := Records(n, c), Channel.Message(IdOf(frame), c.encode(frame).value);
    ToldMirrored(l, None, d, next, s.receiver.inbox, m, attempt.tale);
    assert Shows(l, d, s.receiver.inbox, m.id) && Legible(n, c, d, n.path(m.id));
    RecordsAreItems(n, c, d, n.path(m.id));
    CalmlyAdmits();
    if attempt.tale.renamed {
      if attempt.status == Success {
        CompletedIsSettled(d.data, n.path(m.id), File(m.bytes, true));
        SettledShows(l, None, next, ToldIn(s.receiver.inbox, m, attempt.tale), m.id, m.bytes);
      }
      t := StoreSteps(Calmly, s, m, attempt.tale, attempt.status == Success, took);
    } else if attempt.status == Duplicate {
      t := PresentSteps(Calmly, s, m, took);
    } else {
      t := s;
      Nowhere(Calmly, s);
    }
    ReachableOn(s, t);
  }

  /**
   Dealing with a frame that was sent is a sequence of channel steps; an answer given is an
   answer of the channel.
   */
  method ProcessAlarmInChannel(collector: ReliableCollector.Collector, frame: Wire.AlarmFrame, engineAccepts: bool,
                               failing: nat -> bool, ghost s: Channel.State)
    returns (answer: Option<Wire.AlarmFrame>, ghost t: Channel.State)
    requires CollectorSide(collector, s) && Reachable(s) && collector.codec.encode(frame).Ok?
    requires Channel.Message(IdOf(frame), collector.codec.encode(frame).value) in s.sent
    modifies collector, collector.spool
    ensures CollectorSide(collector, t) && Reachable(t)
    ensures t == s.(receiver := t.receiver, acks := t.acks) && s.acks <= t.acks
    ensures answer.Some? ==> answer.value == AckFor(frame) && Channel.Ack(IdOf(frame), t.receiver.process) in t.acks
  {
    ghost var n, c, before := collector.spool.naming, collector.codec, collector.spool.disk;
    ghost var attempt;
    assert Legible(n, c, before, n.path(IdOf(frame)));
    answer, attempt := collector.ProcessAlarm(frame, engineAccepts, failing);
    t := s;
    if attempt.Some? {
      t := FrameShown(n, c, before, collector.spool.disk, s, frame, attempt.value, answer.Some?);
      StoreKeepsLegible(n, c, before, collector.spool.disk, frame, attempt.value.tale);
    } else if answer.Some? {
      CalmlyAdmits();
      t := RepeatSteps(Calmly, s, Channel.Message(IdOf(frame), c.encode(frame).value));
      ReachableOn(s, t);
      assert s.receiver.accepted + {IdOf(frame)} == s.receiver.accepted;
    }
  }

  /** The first delivery of a frame: sent, stored, ingested and answered while the sender waits. */
  lemma AnswerCanCome(s: Channel.State, source: u64, m: Channel.Message) returns (later: Channel.State)
    requires Reachable(s) && Sendable(s.senders, source, m) && source !in s.senders.storing
    requires s.receiver.collector == Channel.Listening
    ensures Meanwhile(source, Sending(s, m), later) && exists ack <- later.acks :: ack.id == m.id
  {
    var a := Sending(s, m);
    CalmlyAdmits();
    if m.id in a.receiver.accepted {
      later := RepeatSteps(Calmly, a, m);
    } else if Channel.At(a.receiver.inbox, m.id).current.Some? {
      later := PresentSteps(Calmly, a, m, true);
    } else {
      later := StoreSteps(Calmly, a, m, COMPLETED, true, true);
    }
    assert Channel.Ack(m.id, a.receiver.process) in later.acks;
  }

  // ----- start-up -----

  lemma {:induction false} RecoverSteps(go: Relation, s: Channel.State) returns (t: Channel.State)
    requires AdmitsCalm(go) && s.receiver.collector.Recovering?
    ensures Leads(go, s, t) && t == s.(receiver := t.receiver) && t.receiver.collector == Channel.Listening
    ensures t.receiver.accepted == s.receiver.accepted + s.receiver.collector.todo
    ensures t.receiver.inbox == s.receiver.inbox
    decreases |s.receiver.collector.todo|
  {
    var r, todo := s.receiver, s.receiver.collector.todo;
    if todo == {} {
      t := s.(receiver := r.(collector := Channel.Listening));
      Receiver(go, s, Channel.RecoveryDone, t);
      return;
    }
    var id :| id in todo;
    var a := s.(receiver := r.(collector := Channel.Recovering(todo - {id}), accepted := r.accepted + {id},
                               confirmed := r.confirmed + {id}, ingested := r.ingested + multiset{(r.process, id)}));
    Receiver(go, s, Channel.Recover(id), a);
    t := RecoverSteps(go, a);
    Then(go, s, a, t);
    assert r.accepted + {id} + (todo - {id}) == r.accepted + todo;
  }

  /** The inbox may have been synced; what is in it is the same. */
  ghost predicate OnlySynced(s: Channel.State, t: Channel.State) {
    && t == s.(receiver := s.receiver.(inbox := t.receiver.inbox))
    && forall id: Identity :: Channel.At(t.receiver.inbox, id).current == Channel.At(s.receiver.inbox, id).current
  }

  lemma SweepShown(n: Naming, c: Codec, d: Disk, next: Disk, s: Channel.State) returns (t: Channel.State)
    requires InboxSeen(n, c, d, s.receiver) && Reachable(s) && Sweep(n, c, d, next)
    ensures InboxSeen(n, c, next, t.receiver) && Reachable(t) && OnlySynced(s, t)
  {
    var l := Records(n, c);
    if next.data == d.data {
      SameData(l, None, d, next, s.receiver.inbox);
      return s;
    }
    var p: Path, synced: bool :| SetsAside(n, c, d, p, synced, next);
    var d1 := d.(data := Put(d.data, p, None));
    RecordsAreItems(n, c, d, p);
    ReachableIsClosed(s);
    AsideMirrored(l, None, d, p, d1, s.receiver.inbox);
    var flushed := SyncIfMirrored(l, None, d1, p.directory, synced, next, s.receiver.inbox);
    CalmlyAdmits();
    t := SyncInbox(Calmly, s, if flushed.Some? then flushed.value else 0, flushed.Some?);
    ReachableOn(s, t);
  }

  /** Setting aside what carries no record is, for the channel, at most syncing. */
  lemma {:induction false} SweepsShown(n: Naming, c: Codec, disks: seq<Disk>, s: Channel.State)
    returns (t: Channel.State)
    requires SweepRun(n, c, disks) && InboxSeen(n, c, disks[0], s.receiver) && Reachable(s)
    ensures InboxSeen(n, c, disks[|disks| - 1], t.receiver) && Reachable(t) && OnlySynced(s, t)
    decreases |disks|
  {
    t := s;
    var k := |disks| - 1;
    if k > 0 {
      var a := SweepsShown(n, c, disks[..k], s);
      assert Sweep(n, c, disks[k - 1], disks[k]);
      t := SweepShown(n, c, disks[k - 1], disks[k], a);
    }
  }

  /** The recovered identities are those of the channel's inbox. */
  lemma RecoveredIds(n: Naming, c: Codec, d: Disk, listing: seq<Path>, r: Channel.Receiver, id: Identity)
    requires InboxSeen(n, c, d, r) && Named(n, d) && NoRepeats(listing)
    requires forall p :: p in listing <==> p in Present(d.data)
    ensures id in Channel.Present(r.inbox) <==> exists item <- Collect(n, c, d, listing) :: item.id == id
  {
    var p := n.path(id);
    assert Shows(Records(n, c), d, r.inbox, id);
    assert id in Channel.Present(r.inbox) <==> Channel.At(r.inbox, id).current.Some?;
    RecordsAreItems(n, c, d, p);
    CollectedIds(n, c, d, listing);
    if ItemAt(n, c, d, p).Some? {
      assert NamedSlot(n, p, At(d, p)) && p in Present(d.data);
      var item := ItemAt(n, c, d, p).value;
      assert n.path(item.id) == p;
      CollectExactly(n, c, d, listing, item);
    }
  }

  /** Recovery leaves files with a record only. */
  lemma RecoveredIsLegible(n: Naming, c: Codec, d: Disk, next: Disk, listing: seq<Path>, disks: seq<Disk>)
    requires (forall p :: p in listing <==> p in Present(d.data)) && forall p <- listing :: Recovers(n, c, d, next, p)
    requires SweepRun(n, c, disks) && disks[0] == d && disks[|disks| - 1] == next
    ensures AllLegible(n, c, next)
  {
    forall p: Path ensures Legible(n, c, next, p) {
      SweepsSpare(n, c, disks, p);
      if p in listing {
        assert Recovers(n, c, d, next, p);
        SameItem(n, c, d, next, p);
      } else {
        assert At(d, p).current.None?;
      }
    }
  }

  /** A collector's object that has just been made, and the channel beside it. */
  ghost predicate RecoverySide(collector: ReliableCollector.Collector, s: Channel.State)
    reads collector, collector.spool
  {
    && collector.Valid() && collector.accepted == {}
    && InboxSeen(collector.spool.naming, collector.codec, collector.spool.disk, s.receiver)
    && s.receiver.collector == Channel.Recovering(Channel.Present(s.receiver.inbox)) && s.receiver.accepted == {}
  }

  /**
   Start-up is the channel's recovery, whatever the listing and whatever damaged files there
   are; and if it fails, the channel's inbox still shows the disk.
   */
  method RecoverInChannel(collector: ReliableCollector.Collector, listing: seq<Path>, engineAccepts: nat -> bool,
                          failing: nat -> bool, ghost s: Channel.State)
    returns (ok: bool, ghost t: Channel.State)
    requires RecoverySide(collector, s) && Reachable(s) && collector.spool.named
    requires NoRepeats(listing) && forall p :: p in listing <==> p in Present(collector.spool.disk.data)
    modifies collector, collector.spool
    ensures Reachable(t) && t == s.(receiver := t.receiver)
    ensures InboxSeen(collector.spool.naming, collector.codec, collector.spool.disk, t.receiver)
    ensures if ok then CollectorSide(collector, t) else OnlySynced(s, t)
  {
    ghost var n, c, before := collector.spool.naming, collector.codec, collector.spool.disk;
    ghost var sorted;
    ok, sorted := collector.RecoverInbox(listing, engineAccepts, failing);
    ghost var disks: seq<Disk> :|
      SweepRun(n, c, disks) && disks[0] == before && disks[|disks| - 1] == collector.spool.disk;
    t := SweepsShown(n, c, disks, s);
    if ok {
      RecoveredIsLegible(n, c, before, collector.spool.disk, listing, disks);
      InboxRecovery.SameMembers(sorted, Collect(n, c, before, listing));
      forall id: Identity ensures id in collector.accepted <==> id in Channel.Present(s.receiver.inbox) {
        RecoveredIds(n, c, before, listing, s.receiver, id);
      }
      ghost var a := t;
      CalmlyAdmits();
      t := RecoverSteps(Calmly, a);
      ReachableOn(a, t);
      assert collector.accepted == t.receiver.accepted;
    }
  }

  // ----- restart -----

  /**
   A new process on what the old one left on the disk, or on what a power loss left of that; the
   loss has to find every accepted entry synced. The channel may be anywhere in a frame.
   */
  method RestartCollector(collector: ReliableCollector.Collector, pid: nat, disk: Disk, records: MonitorStore.Records,
                          ghost s: Channel.State)
    returns (restarted: ReliableCollector.Collector, ghost t: Channel.State)
    requires collector.Valid() && Reachable(s)
    requires InboxSeen(collector.spool.naming, collector.codec, collector.spool.disk, s.receiver)
    requires disk != collector.spool.disk ==>
      && Firm(collector.spool.disk) && PowerLoss(collector.spool.disk, disk)
      && Channel.Benign(s.receiver, Channel.CollectorPowerLoss)
    ensures fresh(restarted) && restarted.spool.disk == disk && restarted.spool.naming == collector.spool.naming
    ensures restarted.spool.named == Named(collector.spool.naming, disk)
    ensures Sound(collector.spool.naming, collector.spool.disk) ==> restarted.spool.named
    ensures RecoverySide(restarted, t) && Reachable(t) && t == s.(receiver := t.receiver)
  {
    var spool := new Spool(collector.spool.naming, collector.spool.inbox, collector.spool.maxBytes, pid, disk);
    restarted := new ReliableCollector.Collector(spool, collector.codec, records);
    if Sound(collector.spool.naming, collector.spool.disk) && disk != collector.spool.disk {
      LossKeepsSound(collector.spool.naming, collector.spool.disk, disk);
    }
    t := RestartShown(collector.spool.naming, collector.codec, collector.spool.disk, disk, s);
  }

  lemma RestartShown(n: Naming, c: Codec, d: Disk, next: Disk, s: Channel.State) returns (t: Channel.State)
    requires InboxSeen(n, c, d, s.receiver) && Reachable(s)
    requires next != d ==> Firm(d) && PowerLoss(d, next) && Channel.Benign(s.receiver, Channel.CollectorPowerLoss)
    ensures InboxSeen(n, c, next, t.receiver) && Reachable(t) && t == s.(receiver := t.receiver)
    ensures t.receiver.collector == Channel.Recovering(Channel.Present(t.receiver.inbox)) && t.receiver.accepted == {}
  {
    var l, r := Records(n, c), s.receiver;
    if next == d {
      t := s.(receiver := Channel.Restarted(r));
      CalmlyAdmits();
      Receiver(Calmly, s, Channel.CollectorCrash, t);
      ReachableOn(s, t);
    } else {
      var inbox := AfterLoss(l, None, next, r.inbox);
      LossMirrored(l, None, d, next, r.inbox);
      t := s.(receiver := Channel.Restarted(r.(inbox := inbox)));
      var step := Channel.ReceiverMoves(Channel.CollectorPowerLoss);
      assert Calm(s, step) && Channel.Next(s, step, t);
      ReachableStep(s, t);
    }
  }
}
