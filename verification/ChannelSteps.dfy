/**
 What is common to the publisher's and the collector's side when their methods are shown to be
 steps of the channel: the channel states that can be reached, the channel's directories beside
 the disks, and no loss for the disks (`PromisedIsOnDisk`).
 */
module ChannelSteps {
  import opened Bytes
  import opened MonitorData
  import opened Names
  import opened SpoolDisk
  import opened AlarmSpool
  import opened SpoolRefinement
  import opened ChannelProgress
  import Channel = ReliableChannel

  // ----- reachable channel states -----

  /** Any step, but a power loss of the collector only if it finds every accepted entry synced. */
  ghost predicate Calm(s: Channel.State, step: Channel.Step) {
    step.ReceiverMoves? ==> Channel.Benign(s.receiver, step.receiver)
  }

  ghost predicate Calmly(s: Channel.State, next: Channel.State) {
    exists step: Channel.Step :: Calm(s, step) && Channel.Next(s, step, next)
  }

  /** The channel can get here by such steps. */
  ghost predicate Reachable(s: Channel.State) {
    exists states: seq<Channel.State>, steps: seq<Channel.Step> ::
      Channel.Run(states, steps) && Channel.BenignBefore(states, steps, |steps|) && states[|steps|] == s
  }

  lemma ReachableStep(s: Channel.State, next: Channel.State)
    requires Reachable(s) && Calmly(s, next)
    ensures Reachable(next)
  {
    var states: seq<Channel.State>, steps: seq<Channel.Step> :|
      Channel.Run(states, steps) && Channel.BenignBefore(states, steps, |steps|) && states[|steps|] == s;
    var step: Channel.Step :| Calm(s, step) && Channel.Next(s, step, next);
    Channel.Extend(states, steps, step, next);
    var longer, more := states + [next], steps + [step];
    assert Channel.BenignBefore(longer, more, |more|) && longer[|more|] == next;
  }

  lemma ReachableOn(s: Channel.State, t: Channel.State)
    requires Reachable(s) && Leads(Calmly, s, t)
    ensures Reachable(t)
  {
    forall x: Channel.State, y: Channel.State | Reachable(x) && Calmly(x, y) ensures Reachable(y) {
      ReachableStep(x, y);
    }
    StaysTrue(Calmly, Reachable, s, t);
  }

  lemma ReachableIsSafe(s: Channel.State)
    requires Reachable(s)
    ensures Channel.Inv(s)
  {
    var states: seq<Channel.State>, steps: seq<Channel.Step> :|
      Channel.Run(states, steps) && Channel.BenignBefore(states, steps, |steps|) && states[|steps|] == s;
    Channel.RunKeepsInv(states, steps, |steps|);
  }

  /** A relation that has every step but power losses of the collector; most constructions need no more. */
  ghost predicate AdmitsCalm(go: Relation) {
    forall s: Channel.State, step: Channel.Step, next: Channel.State ::
      step != Channel.ReceiverMoves(Channel.CollectorPowerLoss) && Channel.Next(s, step, next) ==> go(s, next)
  }

  lemma CalmlyAdmits()
    ensures AdmitsCalm(Calmly)
  {
    forall s: Channel.State, step: Channel.Step, next: Channel.State
      | step != Channel.ReceiverMoves(Channel.CollectorPowerLoss) && Channel.Next(s, step, next)
      ensures Calmly(s, next)
    {
      assert Calm(s, step);
    }
  }

  lemma Sender(go: Relation, s: Channel.State, step: Channel.SenderStep, next: Channel.State)
    requires AdmitsCalm(go) && Channel.Next(s, Channel.SenderMoves(step), next)
    ensures Leads(go, s, next)
  {
    One(go, s, next);
  }

  lemma Receiver(go: Relation, s: Channel.State, step: Channel.ReceiverStep, next: Channel.State)
    requires AdmitsCalm(go) && step != Channel.CollectorPowerLoss
    requires Channel.Next(s, Channel.ReceiverMoves(step), next)
    ensures Leads(go, s, next)
  {
    One(go, s, next);
  }

  // ----- directories -----

  function FlushIf(dir: Channel.Directory, source: u64, synced: bool): (next: Channel.Directory) {
    if synced then Channel.Flush(dir, source) else dir
  }

  lemma FlushIfMirrored(l: Lens, owner: Option<u64>, d: Disk, id: Identity, synced: bool, next: Disk,
                        dir: Channel.Directory)
    requires WellNamed(l.naming, owner) && Mirrors(l, owner, d, dir) && Lives(owner, id)
    requires next.data == SyncedIf(d.data, l.naming.path(id).directory, synced)
    ensures Mirrors(l, owner, next, FlushIf(dir, id.source, synced))
  {
    if synced {
      FlushMirrored(l, owner, d, id, next, dir);
    } else {
      SameData(l, owner, d, next, dir);
    }
  }

  lemma SameData(l: Lens, owner: Option<u64>, d: Disk, next: Disk, dir: Channel.Directory)
    requires Mirrors(l, owner, d, dir) && next.data == d.data
    ensures Mirrors(l, owner, next, dir)
  {
    forall id: Identity | Lives(owner, id) ensures Shows(l, next, dir, id) {
      assert Shows(l, d, dir, id);
    }
  }

  /** Only the entries of the identities that live here matter. */
  lemma SameEntries(l: Lens, owner: Option<u64>, d: Disk, dir: Channel.Directory, other: Channel.Directory)
    requires Mirrors(l, owner, d, dir)
    requires forall id: Identity :: Lives(owner, id) ==> Channel.At(other, id) == Channel.At(dir, id)
    ensures Mirrors(l, owner, d, other)
  {
    forall id: Identity | Lives(owner, id) ensures Shows(l, d, other, id) {
      assert Shows(l, d, dir, id);
    }
  }

  /** A settled file on the disk is a settled entry of the channel. */
  lemma SettledShows(l: Lens, owner: Option<u64>, d: Disk, dir: Channel.Directory, id: Identity, bytes: seq<byte>)
    requires Mirrors(l, owner, d, dir) && Lives(owner, id) && l.good(bytes)
    requires Settled(At(d, l.naming.path(id)), bytes)
    ensures Channel.Settled(Channel.At(dir, id), bytes)
  {
    assert Shows(l, d, dir, id);
    SettledIsSettled(l, At(d, l.naming.path(id)), bytes);
  }

  function RestOf(dir: Channel.Directory, id: Identity, tale: Tale): (next: Channel.Directory) {
    var b := FlushIf(dir, id.source, tale.synced);
    FlushIf(if tale.unlinked then Channel.Put(b, id, None) else b, id.source, tale.resynced)
  }

  /** The channel's directory after a store that went as `tale` says. */
  function ToldIn(dir: Channel.Directory, m: Channel.Message, tale: Tale): (next: Channel.Directory) {
    if tale.renamed then RestOf(Channel.Put(dir, m.id, Some(m.bytes)), m.id, tale) else dir
  }

  lemma RestMirrored(l: Lens, owner: Option<u64>, d: Disk, next: Disk, id: Identity, tale: Tale,
                     dir: Channel.Directory)
    requires WellNamed(l.naming, owner) && Mirrors(l, owner, d, dir) && Lives(owner, id)
    requires next.data == Rest(d.data, l.naming.path(id), tale)
    ensures Mirrors(l, owner, next, RestOf(dir, id, tale))
  {
    var p := l.naming.path(id);
    var d1 := d.(data := SyncedIf(d.data, p.directory, tale.synced));
    var b := FlushIf(dir, id.source, tale.synced);
    FlushIfMirrored(l, owner, d, id, tale.synced, d1, dir);
    var d2 := if tale.unlinked then d1.(data := Put(d1.data, p, None)) else d1;
    if tale.unlinked {
      PutMirrored(l, owner, d1, id, None, d2, b);
    }
    FlushIfMirrored(l, owner, d2, id, tale.resynced, next, if tale.unlinked then Channel.Put(b, id, None) else b);
  }

  /** What the channel's directory shows after a store is what the disk is. */
  lemma ToldMirrored(l: Lens, owner: Option<u64>, d: Disk, next: Disk, dir: Channel.Directory, m: Channel.Message,
                     tale: Tale)
    requires WellNamed(l.naming, owner) && Mirrors(l, owner, d, dir) && Lives(owner, m.id)
    requires next.data == Told(d.data, l.naming.path(m.id), File(m.bytes, true), tale)
    requires tale.renamed ==> l.good(m.bytes)
    ensures Mirrors(l, owner, next, ToldIn(dir, m, tale))
  {
    if tale.renamed {
      var file := Some(File(m.bytes, true));
      var d1 := d.(data := Put(d.data, l.naming.path(m.id), file));
      PutMirrored(l, owner, d, m.id, file, d1, dir);
      RestMirrored(l, owner, d1, next, m.id, tale, Channel.Put(dir, m.id, Some(m.bytes)));
    } else {
      SameData(l, owner, d, next, dir);
    }
  }

  /** The settled file of a completed store. */
  lemma CompletedIsSettled(data: map<Path, Slot>, p: Path, file: File)
    ensures var next := Told(data, p, file, COMPLETED); p in next && next[p] == Slot(Some(file), {Some(file)})
  {
  }

  /** Elsewhere a store changes no file; a sync may have come over it. */
  lemma ToldElsewhere(d: Disk, next: Disk, p: Path, file: File, tale: Tale, q: Path)
    requires next.data == Told(d.data, p, file, tale) && q != p
    ensures At(next, q) in {At(d, q), Slot(At(d, q).current, {At(d, q).current})}
  {
  }

  // ----- files that do not count -----

  /** What a process sees under a name may also be what a power loss leaves. */
  ghost predicate Closed(dir: Channel.Directory) {
    forall id: Identity :: Channel.At(dir, id).current in Channel.At(dir, id).durable
  }

  lemma ReachableIsClosed(s: Channel.State)
    requires Reachable(s)
    ensures Closed(s.senders.outbox) && Closed(s.receiver.inbox)
  {
    ReachableIsSafe(s);
    forall id: Identity
      ensures Channel.At(s.senders.outbox, id).current in Channel.At(s.senders.outbox, id).durable
      ensures Channel.At(s.receiver.inbox, id).current in Channel.At(s.receiver.inbox, id).durable
    {
      assert Channel.Genuine(s.senders.used, id, Channel.At(s.senders.outbox, id));
      assert Channel.Genuine(s.senders.used, id, Channel.At(s.receiver.inbox, id));
    }
  }

  lemma EmptyStays(l: Lens, slot: Slot)
    requires Content(l, slot.current) == None && None in View(l, slot).durable
    ensures View(l, Slot(None, slot.durable + {None})) == View(l, slot)
  {
    ViewOfPut(l, slot, None);
    assert View(l, slot).durable + {None} == View(l, slot).durable;
  }

  /** Taking away a file that does not count changes nothing in the channel. */
  lemma AsideMirrored(l: Lens, owner: Option<u64>, d: Disk, p: Path, next: Disk, dir: Channel.Directory)
    requires WellNamed(l.naming, owner) && Mirrors(l, owner, d, dir) && Closed(dir)
    requires Content(l, At(d, p).current) == None && next.data == Put(d.data, p, None)
    ensures Mirrors(l, owner, next, dir)
  {
    forall id: Identity | Lives(owner, id) ensures Shows(l, next, dir, id) {
      assert Shows(l, d, dir, id);
      if l.naming.path(id) == p {
        EmptyStays(l, At(d, p));
        assert Channel.At(dir, id).current in Channel.At(dir, id).durable;
      }
    }
  }

  /** ... and the sync after it settles the entries of one source, or of none. */
  lemma SyncIfMirrored(l: Lens, owner: Option<u64>, d: Disk, directory: string, synced: bool, next: Disk,
                       dir: Channel.Directory)
    returns (flushed: Option<u64>)
    requires WellNamed(l.naming, owner) && Mirrors(l, owner, d, dir)
    requires next.data == SyncedIf(d.data, directory, synced)
    ensures flushed.Some? && owner.Some? ==> flushed == owner
    ensures Mirrors(l, owner, next, if flushed.Some? then Channel.Flush(dir, flushed.value) else dir)
  {
    if synced {
      var change, after := SyncMirrored(l, owner, d, directory, next, dir);
      flushed := if change.Flushes? then Some(change.source) else None;
    } else {
      SameData(l, owner, d, next, dir);
      flushed := None;
    }
  }

  // ----- no loss -----

  /** A file with these bytes is there. */
  predicate Holds(d: Disk, p: Path, bytes: seq<byte>) {
    At(d, p).current.Some? && At(d, p).current.value.bytes == bytes
  }

  lemma ShownIsHeld(l: Lens, owner: Option<u64>, d: Disk, dir: Channel.Directory, id: Identity, bytes: seq<byte>)
    requires Mirrors(l, owner, d, dir) && Lives(owner, id) && Channel.At(dir, id).current == Some(bytes)
    ensures Holds(d, l.naming.path(id), bytes) && l.good(bytes)
  {
    assert Shows(l, d, dir, id);
  }

  lemma NothingLost(s: Channel.State, id: Identity)
    requires Reachable(s) && id in s.senders.promised
    ensures !Channel.Lost(s, id)
  {
    ReachableIsSafe(s);
    Channel.InvMeansNoLoss(s, id);
  }

  /**
   Whatever steps were taken: an alarm that an enqueue promised is on the publisher's disk or
   on the collector's, with its bytes.
   */
  lemma PromisedIsOnDisk(out: Lens, outbox: Disk, into: Lens, inbox: Disk, s: Channel.State, id: Identity)
    requires Reachable(s) && id in s.senders.promised
    requires Mirrors(out, Some(id.source), outbox, s.senders.outbox) && Mirrors(into, None, inbox, s.receiver.inbox)
    ensures
      || Holds(outbox, out.naming.path(id), s.senders.promised[id])
      || Holds(inbox, into.naming.path(id), s.senders.promised[id])
  {
    NothingLost(s, id);
    if Channel.At(s.senders.outbox, id).current == Some(s.senders.promised[id]) {
      ShownIsHeld(out, Some(id.source), outbox, s.senders.outbox, id, s.senders.promised[id]);
    } else {
      ShownIsHeld(into, None, inbox, s.receiver.inbox, id, s.senders.promised[id]);
    }
  }
}
