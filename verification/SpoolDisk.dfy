/**
 The directories of one alarm spool, as the spool's system calls change them.

 A data directory entry has two sides: what a running process sees, and every content
 a power loss may leave behind. Renaming or unlinking adds a possibility; syncing the
 directory removes all but the current one. A crash of the process alone keeps what it
 saw. `RunsAreSound` and `SettledStays` hold over every sequence of calls and losses.
 */
module SpoolDisk {
  import opened Bytes
  import opened MonitorData
  import opened Names
  import Wire = AlarmProtocol

  datatype Path = Path(directory: string, name: string)

  /** `synced`: the content was flushed after the last write. */
  datatype File = File(bytes: seq<byte>, synced: bool)

  datatype Slot = Slot(current: Option<File>, durable: set<Option<File>>)

  datatype Disk = Disk(data: map<Path, Slot>, tmp: map<string, File>, corrupt: map<string, File>)

  /** How frames are decoded and where an identity's file belongs. */
  datatype Naming = Naming(decode: seq<byte> -> Wire.Result<Wire.AlarmFrame>, path: Identity -> Path)

  const VACANT: Slot := Slot(None, {None})

  function At(d: Disk, p: Path): (slot: Slot) {
    if p in d.data then d.data[p] else VACANT
  }

  /** The bytes form a complete ALARM frame. */
  predicate Readable(n: Naming, bytes: seq<byte>) {
    0 < |bytes| <= Wire.MAX_FRAME && n.decode(bytes).Ok? && n.decode(bytes).value.kind == Wire.ALARM
  }

  /** ... and its identity belongs at `p`. */
  predicate Spells(n: Naming, bytes: seq<byte>, p: Path) {
    && Readable(n, bytes)
    && var frame := n.decode(bytes).value; p == n.path(Identity(frame.source, frame.messageId))
  }

  // ----- system calls -----

  datatype Event =
    | Temporary                                // anything that leaves the data directory alone
    | Publish(from: string, path: Path)        // rename(tmp/from, path)
    | Sync(directory: string)                  // fsync of one directory
    | Unlink(path: Path)
    | Quarantine(path: Path, target: string)   // rename(path, corrupt/target)

  /** Visible at once, on the medium sooner or later. */
  function Put(data: map<Path, Slot>, p: Path, file: Option<File>): (next: map<Path, Slot>) {
    var durable := if p in data then data[p].durable else {None};
    data[p := Slot(file, durable + {file})]
  }

  function Flush(data: map<Path, Slot>, directory: string): (next: map<Path, Slot>) {
    map p | p in data ::
      if p.directory == directory then Slot(data[p].current, {data[p].current}) else data[p]
  }

  ghost predicate Step(n: Naming, d: Disk, e: Event, next: Disk) {
    match e
    case Temporary => next.data == d.data
    case Publish(from, path) =>
      && from in d.tmp && d.tmp[from].synced && Spells(n, d.tmp[from].bytes, path)
      && At(d, path).current == None
      && next.data == Put(d.data, path, Some(d.tmp[from]))
    case Sync(directory) => next.data == Flush(d.data, directory)
    case Unlink(path) => next.data == Put(d.data, path, None)
    case Quarantine(path, _) => next.data == Put(d.data, path, None)
  }

  /** What is left of an entry: one of the possible contents, unreadable unless it was synced. */
  predicate Remains(was: Slot, now: Slot, kept: Option<File>) {
    && kept in was.durable
    && now.durable == {now.current}
    && now.current.Some? == kept.Some?
    && (kept.Some? && kept.value.synced ==> now.current == kept)
  }

  ghost predicate LeftOver(was: Slot, now: Slot) {
    exists kept: Option<File> :: Remains(was, now, kept)
  }

  ghost predicate PowerLoss(d: Disk, next: Disk) {
    forall p: Path :: LeftOver(At(d, p), At(next, p))
  }

  // ----- what every run keeps -----

  ghost predicate SoundSlot(n: Naming, p: Path, slot: Slot) {
    && slot.current in slot.durable
    && forall file: File :: Some(file) in slot.durable ==> file.synced && Spells(n, file.bytes, p)
  }

  /** Every data file, now or after a power loss, is a complete frame under its own name. */
  ghost predicate Sound(n: Naming, d: Disk) {
    forall p: Path :: SoundSlot(n, p, At(d, p))
  }

  lemma StepKeepsSound(n: Naming, d: Disk, e: Event, next: Disk)
    requires Sound(n, d) && Step(n, d, e, next)
    ensures Sound(n, next)
  {
    forall p: Path ensures SoundSlot(n, p, At(next, p)) {
      assert SoundSlot(n, p, At(d, p));
    }
  }

  lemma LossKeepsSound(n: Naming, d: Disk, next: Disk)
    requires Sound(n, d) && PowerLoss(d, next)
    ensures Sound(n, next)
  {
    forall p: Path ensures SoundSlot(n, p, At(next, p)) {
      assert SoundSlot(n, p, At(d, p));
      var kept: Option<File> :| Remains(At(d, p), At(next, p), kept);
    }
  }

  // ----- disks with damaged files -----

  predicate NamedSlot(n: Naming, p: Path, slot: Slot) {
    slot.current.Some? && Readable(n, slot.current.value.bytes) ==> Spells(n, slot.current.value.bytes, p)
  }

  /** Files may be damaged, but one that can be read is the frame its name says. */
  ghost predicate Named(n: Naming, d: Disk) {
    forall p: Path :: NamedSlot(n, p, At(d, p))
  }

  lemma StepKeepsNamed(n: Naming, d: Disk, e: Event, next: Disk)
    requires Named(n, d) && Step(n, d, e, next)
    ensures Named(n, next)
  {
    forall p: Path ensures NamedSlot(n, p, At(next, p)) {
      assert NamedSlot(n, p, At(d, p));
    }
  }

  lemma SoundIsNamed(n: Naming, d: Disk)
    requires Sound(n, d)
    ensures Named(n, d)
  {
    forall p: Path ensures NamedSlot(n, p, At(d, p)) {
      assert SoundSlot(n, p, At(d, p));
    }
  }

  ghost predicate FirmSlot(slot: Slot) {
    slot.current in slot.durable && forall file: File :: Some(file) in slot.durable ==> file.synced
  }

  /** Damaged or not: every file, now or after a power loss, is on the medium as it was written. */
  ghost predicate Firm(d: Disk) {
    forall p: Path :: FirmSlot(At(d, p))
  }

  lemma SoundIsFirm(n: Naming, d: Disk)
    requires Sound(n, d)
    ensures Firm(d)
  {
    forall p: Path ensures FirmSlot(At(d, p)) {
      assert SoundSlot(n, p, At(d, p));
    }
  }

  lemma MoveKeepsFirm(n: Naming, d: Disk, m: Move, next: Disk)
    requires Firm(d) && Moved(n, d, m, next)
    ensures Firm(next)
  {
    forall p: Path ensures FirmSlot(At(next, p)) {
      assert FirmSlot(At(d, p));
      if m.Loss? {
        var kept: Option<File> :| Remains(At(d, p), At(next, p), kept);
      }
    }
  }

  // ----- runs -----

  datatype Move = Call(event: Event) | Loss

  ghost predicate Moved(n: Naming, d: Disk, m: Move, next: Disk) {
    match m
    case Call(event) => Step(n, d, event, next)
    case Loss => PowerLoss(d, next)
  }

  /** `states[i]` becomes `states[i + 1]` by `moves[i]`. */
  ghost predicate Run(n: Naming, states: seq<Disk>, moves: seq<Move>) {
    && |states| == |moves| + 1
    && forall i :: 0 <= i < |moves| ==> Moved(n, states[i], moves[i], states[i + 1])
  }

  /** Sound at the start, sound at every point of the run. */
  lemma {:induction false} RunsAreSound(n: Naming, states: seq<Disk>, moves: seq<Move>, k: nat)
    requires Run(n, states, moves) && Sound(n, states[0]) && k < |states|
    ensures Sound(n, states[k])
  {
    if k > 0 {
      RunsAreSound(n, states, moves, k - 1);
      assert Moved(n, states[k - 1], moves[k - 1], states[k]);
      if moves[k - 1].Call? {
        StepKeepsSound(n, states[k - 1], moves[k - 1].event, states[k]);
      } else {
        LossKeepsSound(n, states[k - 1], states[k]);
      }
    }
  }

  lemma {:induction false} RunsAreFirm(n: Naming, states: seq<Disk>, moves: seq<Move>, k: nat)
    requires Run(n, states, moves) && Firm(states[0]) && k < |states|
    ensures Firm(states[k])
  {
    if k > 0 {
      RunsAreFirm(n, states, moves, k - 1);
      MoveKeepsFirm(n, states[k - 1], moves[k - 1], states[k]);
    }
  }

  predicate Settled(slot: Slot, bytes: seq<byte>) {
    slot == Slot(Some(File(bytes, true)), {Some(File(bytes, true))})
  }

  predicate Removes(m: Move, p: Path) {
    m.Call? && (m.event == Unlink(p) || (m.event.Quarantine? && m.event.path == p))
  }

  /** A settled file keeps its bytes through calls and power losses until it is removed. */
  lemma {:induction false} SettledStays(n: Naming, states: seq<Disk>, moves: seq<Move>, p: Path, bytes: seq<byte>,
                                        k: nat)
    requires Run(n, states, moves) && k < |states|
    requires Settled(At(states[0], p), bytes)
    requires forall i :: 0 <= i < k ==> !Removes(moves[i], p)
    ensures Settled(At(states[k], p), bytes)
  {
    if k > 0 {
      SettledStays(n, states, moves, p, bytes, k - 1);
      assert Moved(n, states[k - 1], moves[k - 1], states[k]);
      if moves[k - 1].Loss? {
        var kept: Option<File> :| Remains(At(states[k - 1], p), At(states[k], p), kept);
      }
    }
  }

  // ----- stored bytes -----

  function Present(data: map<Path, Slot>): (paths: set<Path>) {
    set p | p in data && data[p].current.Some?
  }

  function SizeAt(data: map<Path, Slot>, p: Path): (size: nat) {
    if p in data && data[p].current.Some? then |data[p].current.value.bytes| else 0
  }

  ghost function Sum(data: map<Path, Slot>, paths: set<Path>): (total: nat) {
    if paths == {} then 0
    else
      var p :| p in paths;
      SizeAt(data, p) + Sum(data, paths - {p})
  }

  ghost function Stored(data: map<Path, Slot>): (total: nat) {
    Sum(data, Present(data))
  }

  lemma {:induction false} SumRemove(data: map<Path, Slot>, paths: set<Path>, p: Path)
    requires p in paths
    ensures Sum(data, paths) == SizeAt(data, p) + Sum(data, paths - {p})
    decreases |paths|
  {
    var q :| q in paths && Sum(data, paths) == SizeAt(data, q) + Sum(data, paths - {q});
    if q != p {
      SumRemove(data, paths - {q}, p);
      SumRemove(data, paths - {p}, q);
      assert paths - {q} - {p} == paths - {p} - {q};
    }
  }

  lemma {:induction false} SumSplit(data: map<Path, Slot>, paths: set<Path>, part: set<Path>)
    requires part <= paths
    ensures Sum(data, paths) == Sum(data, paths - part) + Sum(data, part)
    decreases |part|
  {
    if part == {} {
      assert paths - part == paths;
    } else {
      var p :| p in part;
      SumRemove(data, paths, p);
      SumRemove(data, part, p);
      SumSplit(data, paths - {p}, part - {p});
      assert paths - {p} - (part - {p}) == paths - part;
    }
  }

  lemma {:induction false} SumSame(data: map<Path, Slot>, next: map<Path, Slot>, paths: set<Path>)
    requires forall p <- paths :: SizeAt(data, p) == SizeAt(next, p)
    ensures Sum(data, paths) == Sum(next, paths)
    decreases |paths|
  {
    if paths != {} {
      var p :| p in paths;
      SumRemove(data, paths, p);
      SumRemove(next, paths, p);
      SumSame(data, next, paths - {p});
    }
  }

  /** Publishing adds exactly the file's size. */
  lemma StoredAfterPublish(data: map<Path, Slot>, p: Path, file: File)
    requires p !in data || data[p].current == None
    ensures Stored(Put(data, p, Some(file))) == Stored(data) + |file.bytes|
  {
    var next := Put(data, p, Some(file));
    assert Present(next) == Present(data) + {p} && p !in Present(data);
    SumRemove(next, Present(next), p);
    assert Present(next) - {p} == Present(data);
    SumSame(data, next, Present(data));
  }

  lemma StoredAfterFlush(data: map<Path, Slot>, directory: string)
    ensures Stored(Flush(data, directory)) == Stored(data)
  {
    assert Present(Flush(data, directory)) == Present(data);
    SumSame(data, Flush(data, directory), Present(data));
  }

  /** Removing a file takes away exactly its size. */
  lemma StoredAfterRemoval(data: map<Path, Slot>, p: Path)
    ensures Stored(Put(data, p, None)) + SizeAt(data, p) == Stored(data)
  {
    var next := Put(data, p, None);
    assert Present(next) == Present(data) - {p};
    SumSame(data, next, Present(next));
    if p in Present(data) {
      SumRemove(data, Present(data), p);
    } else {
      assert Present(next) == Present(data);
    }
  }
}
