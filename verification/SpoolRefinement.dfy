/**
 The directories of `ReliableChannel` are the spool disks of `SpoolDisk`, seen through the
 names of identities and a test that tells good files from damaged ones: each system call that
 touches a data directory is the directory change the channel's steps are made of, and a power
 loss is the channel's power loss. A damaged file counts as no file, and moving it away as no
 change.

 Main result: every run of system calls and power losses on a disk, in particular the whole
 history of a `Spool`, is a run of the channel's directory changes that shows the disk at
 every moment and for every identity (`RunsAreMirrored`, `HistoryIsRun`).
 */
module SpoolRefinement {
  import opened Bytes
  import opened MonitorData
  import opened Names
  import opened SpoolDisk
  import AlarmSpool
  import Channel = ReliableChannel
  import Progress = ChannelProgress
  import Capacity = SpoolCapacity

  /** How a disk is looked at: the names of identities, and which contents count. */
  datatype Lens = Lens(naming: Naming, good: seq<byte> -> bool)

  /** Every complete ALARM frame counts. */
  function Readables(n: Naming): (l: Lens) {
    Lens(n, (bytes: seq<byte>) => Readable(n, bytes))
  }

  function Content(l: Lens, file: Option<File>): (c: Option<seq<byte>>) {
    if file.Some? && l.good(file.value.bytes) then Some(file.value.bytes) else None
  }

  function View(l: Lens, slot: Slot): (e: Channel.Entry) {
    Channel.Entry(Content(l, slot.current), set file | file in slot.durable :: Content(l, file))
  }

  /** The channel's directory shows the disk at one identity. */
  predicate Shows(l: Lens, d: Disk, dir: Channel.Directory, id: Identity) {
    Channel.At(dir, id) == View(l, At(d, l.naming.path(id)))
  }

  /** Different names, and a common directory exactly for a common source. */
  predicate Tidy(n: Naming, a: Identity, b: Identity) {
    && (n.path(a) == n.path(b) ==> a == b)
    && (n.path(a).directory == n.path(b).directory <==> a.source == b.source)
  }

  /** The inbox holds every source's files; an outbox those of one source. */
  lemma RealNamesAreTidy(a: Identity, b: Identity)
    ensures Tidy(AlarmSpool.INBOX, a, b)
    ensures a.source == b.source ==> Tidy(AlarmSpool.OUTBOX, a, b)
  {
    if AlarmSpool.InboxPath(a) == AlarmSpool.InboxPath(b) || AlarmSpool.OutboxPath(a) == AlarmSpool.OutboxPath(b) {
      AlarmSpool.PathsInjective(a, b);
    }
    if Digits(a.source, 16) == Digits(b.source, 16) {
      Pow16OfU64();
      DigitsInjective(a.source, b.source, 16);
    }
  }

  lemma ViewOfPut(l: Lens, slot: Slot, file: Option<File>)
    ensures View(l, Slot(file, slot.durable + {file})) ==
      Channel.Entry(Content(l, file), View(l, slot).durable + {Content(l, file)})
  {
    var left := set f | f in slot.durable + {file} :: Content(l, f);
    forall c ensures c in left <==> c in View(l, slot).durable + {Content(l, file)} {
    }
    assert left == View(l, slot).durable + {Content(l, file)};
  }

  lemma ViewOfFlush(l: Lens, slot: Slot)
    ensures View(l, Slot(slot.current, {slot.current})) ==
      Channel.Entry(Content(l, slot.current), {Content(l, slot.current)})
  {
    assert (set f | f in {slot.current} :: Content(l, f)) == {Content(l, slot.current)};
  }

  lemma PutView(l: Lens, d: Disk, id: Identity, file: Option<File>, next: Disk, dir: Channel.Directory, other: Identity)
    requires (l.naming.path(id) == l.naming.path(other) ==> id == other) && Shows(l, d, dir, other)
    requires next.data == Put(d.data, l.naming.path(id), file)
    ensures Shows(l, next, Channel.Put(dir, id, Content(l, file)), other)
  {
    if other == id {
      ViewOfPut(l, At(d, l.naming.path(id)), file);
    }
  }

  /** A rename into the data directory puts the frame under its identity. */
  lemma PublishPuts(l: Lens, d: Disk, from: string, id: Identity, next: Disk, dir: Channel.Directory, other: Identity)
    requires (l.naming.path(id) == l.naming.path(other) ==> id == other) && Shows(l, d, dir, other)
    requires Step(l.naming, d, Publish(from, l.naming.path(id)), next)
    ensures Shows(l, next, Channel.Put(dir, id, Content(l, Some(d.tmp[from]))), other)
  {
    PutView(l, d, id, Some(d.tmp[from]), next, dir, other);
  }

  /** Unlinking a data file, or moving it away, empties the identity's entry. */
  lemma RemovalPuts(l: Lens, d: Disk, e: Event, id: Identity, next: Disk, dir: Channel.Directory, other: Identity)
    requires (l.naming.path(id) == l.naming.path(other) ==> id == other) && Shows(l, d, dir, other)
    requires (e.Unlink? || e.Quarantine?) && e.path == l.naming.path(id) && Step(l.naming, d, e, next)
    ensures Shows(l, next, Channel.Put(dir, id, None), other)
  {
    PutView(l, d, id, None, next, dir, other);
  }

  /** Syncing a directory settles every entry of the source that lives there. */
  lemma SyncFlushes(l: Lens, d: Disk, id: Identity, next: Disk, dir: Channel.Directory, other: Identity)
    requires Tidy(l.naming, id, other) && Shows(l, d, dir, other)
    requires Step(l.naming, d, Sync(l.naming.path(id).directory), next)
    ensures Shows(l, next, Channel.Flush(dir, id.source), other)
  {
    ViewOfFlush(l, At(d, l.naming.path(other)));
    ViewOfFlush(l, VACANT);
  }

  /** What a power loss leaves of a firm disk is what the channel lets survive. */
  lemma LossSurvives(l: Lens, d: Disk, next: Disk, dir: Channel.Directory, id: Identity)
    requires Shows(l, d, dir, id) && Firm(d) && PowerLoss(d, next)
    ensures Channel.Survives(Channel.At(dir, id), View(l, At(next, l.naming.path(id))))
  {
    var p := l.naming.path(id);
    var kept: Option<File> :| Remains(At(d, p), At(next, p), kept);
    assert FirmSlot(At(d, p));
    assert Content(l, kept) in View(l, At(d, p)).durable;
    ViewOfFlush(l, At(next, p));
  }

  /** A settled file is a settled entry. */
  lemma SettledIsSettled(l: Lens, slot: Slot, bytes: seq<byte>)
    requires Settled(slot, bytes) && l.good(bytes)
    ensures Channel.Settled(View(l, slot), bytes)
  {
    ViewOfFlush(l, slot);
  }

  // ----- all identities at once, over whole runs -----

  /** An inbox is home to every identity, an outbox to those of its source. */
  predicate Lives(owner: Option<u64>, id: Identity) {
    owner.None? || id.source == owner.value
  }

  ghost predicate WellNamed(n: Naming, owner: Option<u64>) {
    && (forall a: Identity, b: Identity :: n.path(a) == n.path(b) ==> a == b)
    && (forall a: Identity, b: Identity :: Lives(owner, a) && Lives(owner, b) ==> Tidy(n, a, b))
  }

  lemma RealNamesAreWell(source: u64)
    ensures WellNamed(AlarmSpool.INBOX, None) && WellNamed(AlarmSpool.OUTBOX, Some(source))
  {
    forall a: Identity, b: Identity
      ensures Tidy(AlarmSpool.INBOX, a, b) && (a.source == b.source ==> Tidy(AlarmSpool.OUTBOX, a, b))
    {
      RealNamesAreTidy(a, b);
    }
    forall a: Identity, b: Identity | AlarmSpool.OutboxPath(a) == AlarmSpool.OutboxPath(b) ensures a == b {
      AlarmSpool.PathsInjective(a, b);
    }
  }

  ghost predicate Mirrors(l: Lens, owner: Option<u64>, d: Disk, dir: Channel.Directory) {
    forall id: Identity :: Lives(owner, id) ==> Shows(l, d, dir, id)
  }

  /** What the channel's steps do to a directory. */
  datatype Change = Stays | Puts(id: Identity, content: Option<seq<byte>>) | Flushes(source: u64) | Loses

  ghost predicate Changed(owner: Option<u64>, dir: Channel.Directory, change: Change, next: Channel.Directory) {
    match change
    case Stays => next == dir
    case Puts(id, content) => next == Channel.Put(dir, id, content)
    case Flushes(source) => next == Channel.Flush(dir, source)
    case Loses => Channel.Damaged(dir, owner, next)
  }

  lemma PutMirrored(l: Lens, owner: Option<u64>, d: Disk, id: Identity, file: Option<File>, next: Disk,
                    dir: Channel.Directory)
    requires WellNamed(l.naming, owner) && Mirrors(l, owner, d, dir)
    requires next.data == Put(d.data, l.naming.path(id), file)
    ensures Mirrors(l, owner, next, Channel.Put(dir, id, Content(l, file)))
  {
    forall other: Identity | Lives(owner, other) ensures Shows(l, next, Channel.Put(dir, id, Content(l, file)), other) {
      assert Shows(l, d, dir, other);
      PutView(l, d, id, file, next, dir, other);
    }
  }

  lemma FlushMirrored(l: Lens, owner: Option<u64>, d: Disk, id: Identity, next: Disk, dir: Channel.Directory)
    requires WellNamed(l.naming, owner) && Mirrors(l, owner, d, dir) && Lives(owner, id)
    requires next.data == Flush(d.data, l.naming.path(id).directory)
    ensures Mirrors(l, owner, next, Channel.Flush(dir, id.source))
  {
    forall other: Identity | Lives(owner, other) ensures Shows(l, next, Channel.Flush(dir, id.source), other) {
      assert Shows(l, d, dir, other) && Tidy(l.naming, id, other);
      SyncFlushes(l, d, id, next, dir, other);
    }
  }

  lemma PublishMirrored(l: Lens, owner: Option<u64>, d: Disk, from: string, id: Identity, next: Disk,
                        dir: Channel.Directory)
    requires WellNamed(l.naming, owner) && Mirrors(l, owner, d, dir)
    requires Step(l.naming, d, Publish(from, l.naming.path(id)), next)
    ensures Mirrors(l, owner, next, Channel.Put(dir, id, Content(l, Some(d.tmp[from]))))
  {
    forall other: Identity | Lives(owner, other)
      ensures Shows(l, next, Channel.Put(dir, id, Content(l, Some(d.tmp[from]))), other) {
      assert Shows(l, d, dir, other);
      PublishPuts(l, d, from, id, next, dir, other);
    }
  }

  lemma RemovalMirrored(l: Lens, owner: Option<u64>, d: Disk, e: Event, next: Disk, dir: Channel.Directory)
    returns (change: Change, after: Channel.Directory)
    requires WellNamed(l.naming, owner) && Mirrors(l, owner, d, dir) && (e.Unlink? || e.Quarantine?)
    requires Step(l.naming, d, e, next)
    ensures Changed(owner, dir, change, after) && Mirrors(l, owner, next, after) && change != Loses
  {
    if id: Identity :| l.naming.path(id) == e.path {
      forall other: Identity | Lives(owner, other) ensures Shows(l, next, Channel.Put(dir, id, None), other) {
        assert Shows(l, d, dir, other);
        RemovalPuts(l, d, e, id, next, dir, other);
      }
      return Puts(id, None), Channel.Put(dir, id, None);
    }
    forall other: Identity | Lives(owner, other) ensures Shows(l, next, dir, other) {
      assert Shows(l, d, dir, other);
    }
    return Stays, dir;
  }

  lemma SyncMirrored(l: Lens, owner: Option<u64>, d: Disk, directory: string, next: Disk, dir: Channel.Directory)
    returns (change: Change, after: Channel.Directory)
    requires WellNamed(l.naming, owner) && Mirrors(l, owner, d, dir) && Step(l.naming, d, Sync(directory), next)
    ensures Changed(owner, dir, change, after) && Mirrors(l, owner, next, after)
    ensures change.Stays? || (change.Flushes? && (owner.Some? ==> change.source == owner.value))
  {
    if id: Identity :| Lives(owner, id) && l.naming.path(id).directory == directory {
      FlushMirrored(l, owner, d, id, next, dir);
      return Flushes(id.source), Channel.Flush(dir, id.source);
    }
    forall other: Identity | Lives(owner, other) ensures Shows(l, next, dir, other) {
      assert Shows(l, d, dir, other) && l.naming.path(other).directory != directory;
    }
    return Stays, dir;
  }

  lemma CallMirrored(l: Lens, owner: Option<u64>, d: Disk, e: Event, next: Disk, dir: Channel.Directory)
    returns (change: Change, after: Channel.Directory)
    requires WellNamed(l.naming, owner) && Mirrors(l, owner, d, dir) && Step(l.naming, d, e, next)
    ensures Changed(owner, dir, change, after) && Mirrors(l, owner, next, after) && change != Loses
  {
    match e
    case Temporary =>
      forall id: Identity | Lives(owner, id) ensures Shows(l, next, dir, id) {
        assert Shows(l, d, dir, id);
      }
      return Stays, dir;
    case Publish(from, path) =>
      var frame := l.naming.decode(d.tmp[from].bytes).value;
      var id := Identity(frame.source, frame.messageId);
      PublishMirrored(l, owner, d, from, id, next, dir);
      return Puts(id, Content(l, Some(d.tmp[from]))), Channel.Put(dir, id, Content(l, Some(d.tmp[from])));
    case Sync(directory) => change, after := SyncMirrored(l, owner, d, directory, next, dir);
    case Unlink(_) => change, after := RemovalMirrored(l, owner, d, e, next, dir);
    case Quarantine(_, _) => change, after := RemovalMirrored(l, owner, d, e, next, dir);
  }

  ghost function AfterLoss(l: Lens, owner: Option<u64>, next: Disk,
                           dir: Channel.Directory): (after: Channel.Directory) {
    map id | id in dir :: if Lives(owner, id) then View(l, At(next, l.naming.path(id))) else dir[id]
  }

  lemma LossMirrored(l: Lens, owner: Option<u64>, d: Disk, next: Disk, dir: Channel.Directory)
    requires Firm(d) && Mirrors(l, owner, d, dir) && PowerLoss(d, next)
    ensures Channel.Damaged(dir, owner, AfterLoss(l, owner, next, dir))
    ensures Mirrors(l, owner, next, AfterLoss(l, owner, next, dir))
  {
    var after := AfterLoss(l, owner, next, dir);
    forall id: Identity | Lives(owner, id)
      ensures Shows(l, next, after, id) && Channel.Survives(Channel.At(dir, id), Channel.At(after, id))
    {
      assert Shows(l, d, dir, id);
      LossSurvives(l, d, next, dir, id);
    }
  }

  /** A run of channel directories beside a run of disks. */
  ghost predicate Shadowed(l: Lens, owner: Option<u64>, states: seq<Disk>, moves: seq<Move>,
                           dirs: seq<Channel.Directory>, changes: seq<Change>)
  {
    && |dirs| == |states| == |moves| + 1 == |changes| + 1
    && (forall i :: 0 <= i < |states| ==> Mirrors(l, owner, states[i], dirs[i]))
    && (forall i :: 0 <= i < |changes| ==>
          Changed(owner, dirs[i], changes[i], dirs[i + 1]) && changes[i].Loses? == moves[i].Loss?)
  }

  /** Every run of a firm disk is a run of the channel's directory changes, for all identities at once. */
  lemma {:induction false} RunsAreMirrored(l: Lens, owner: Option<u64>, states: seq<Disk>, moves: seq<Move>,
                                           start: Channel.Directory)
    returns (dirs: seq<Channel.Directory>, changes: seq<Change>)
    requires WellNamed(l.naming, owner) && Run(l.naming, states, moves) && Firm(states[0])
    requires Mirrors(l, owner, states[0], start)
    ensures Shadowed(l, owner, states, moves, dirs, changes) && dirs[0] == start
    decreases |moves|
  {
    dirs, changes := [start], [];
    var k := |moves|;
    if k > 0 {
      var ds, cs := RunsAreMirrored(l, owner, states[..k], moves[..k - 1], start);
      assert Moved(l.naming, states[k - 1], moves[k - 1], states[k]);
      var change, after := MoveMirrored(l, owner, states[k - 1], moves[k - 1], states[k], ds[k - 1], states, moves);
      dirs, changes := ds + [after], cs + [change];
    }
  }

  lemma MoveMirrored(l: Lens, owner: Option<u64>, d: Disk, m: Move, next: Disk, dir: Channel.Directory,
                     states: seq<Disk>, moves: seq<Move>)
    returns (change: Change, after: Channel.Directory)
    requires WellNamed(l.naming, owner) && Mirrors(l, owner, d, dir) && Moved(l.naming, d, m, next)
    requires Run(l.naming, states, moves) && Firm(states[0]) && |moves| > 0 && states[|moves| - 1] == d
    ensures Changed(owner, dir, change, after) && Mirrors(l, owner, next, after) && change.Loses? == m.Loss?
  {
    match m
    case Call(e) => change, after := CallMirrored(l, owner, d, e, next, dir);
    case Loss =>
      RunsAreFirm(l.naming, states, moves, |moves| - 1);
      LossMirrored(l, owner, d, next, dir);
      return Loses, AfterLoss(l, owner, next, dir);
  }

  function Calls(events: seq<Event>): (moves: seq<Move>) {
    seq(|events|, i requires 0 <= i < |events| => Call(events[i]))
  }

  /** The history of a spool's process is such a run. */
  lemma HistoryIsRun(spool: AlarmSpool.Spool)
    requires spool.Valid()
    ensures Run(spool.naming, spool.history, Calls(spool.events))
  {
    forall i | 0 <= i < |spool.events|
      ensures Moved(spool.naming, spool.history[i], Calls(spool.events)[i], spool.history[i + 1])
    {
      assert Step(spool.naming, spool.history[i], spool.events[i], spool.history[i + 1]);
    }
  }

  /** The file a complete scan of the outbox picks is, if it counts, the head of the channel's line. */
  lemma ScanPicksHead(l: Lens, d: Disk, dir: Channel.Directory, id: Identity)
    requires l.naming == AlarmSpool.OUTBOX && Mirrors(l, Some(id.source), d, dir)
    requires Channel.At(dir, id).current.Some? && AlarmSpool.Lowest(AlarmSpool.OutboxPath(id), Present(d.data))
    ensures Progress.Head(Progress.Before, dir, id)
  {
    assert Shows(l, d, dir, id);
    forall other <- Progress.Files(dir, id.source) ensures Progress.Before(id, other) {
      assert Shows(l, d, dir, other);
      var p, q := AlarmSpool.OutboxPath(id), AlarmSpool.OutboxPath(other);
      assert q in Present(d.data);
      assert Below(AlarmSpool.Native(p), AlarmSpool.Native(q));
    }
  }

  /**
   A spool that started within its cap and never had a status query fail in a capacity scan
   was within it at every point of its history, and is orderly as `SpoolCapacity` asks.
   */
  lemma HistoryKeepsCap(spool: AlarmSpool.Spool)
    requires spool.Valid() && spool.maxBytes != 0 && spool.limit == spool.maxBytes && !spool.overlooked
    ensures forall i :: 0 <= i < |spool.history| ==> Stored(spool.history[i].data) <= spool.maxBytes
    ensures Capacity.Orderly(spool.history, Calls(spool.events), |spool.events|, spool.maxBytes)
  {
    forall i | 0 <= i < |spool.history| ensures Stored(spool.history[i].data) <= spool.maxBytes {
      assert spool.Within(spool.history[i]);
    }
  }
}
