/**
 The durable spool of alarm frames: `store`, `next`, `read`, `remove`, `quarantine` and
 start-up, one system call at a time. Every call may fail; `history` keeps the disk after
 each of them, so a crash between any two calls is a point of `history`. `Valid` says that
 all of it is a run of `SpoolDisk`, and that no point of it passed the byte cap unless a
 capacity scan passed over an entry. The disk may hold damaged files; a disk that was sound
 when the process started stays sound.
 */
module AlarmSpool {
  import opened Bytes
  import opened MonitorData
  import opened Names
  import opened SpoolDisk
  import Wire = AlarmProtocol

  datatype Status =
    | Success | Duplicate | Empty | NotFound | Full | Corrupt
    | InvalidArgument | InvalidFrame | IoError | NotReady

  function OutboxPath(id: Identity): (p: Path) {
    Path("", FileName(id))
  }

  /** The inbox keeps one directory per source. */
  function InboxPath(id: Identity): (p: Path) {
    Path(Digits(id.source, 16), FileName(id))
  }

  const OUTBOX: Naming := Naming(Wire.Decode, OutboxPath)
  const INBOX: Naming := Naming(Wire.Decode, InboxPath)

  lemma PathsInjective(a: Identity, b: Identity)
    requires OutboxPath(a) == OutboxPath(b) || InboxPath(a) == InboxPath(b)
    ensures a == b
  {
    FileNameInjective(a, b);
  }

  /** The path below the data directory, as the directory scan compares it. */
  function Native(p: Path): (s: string) {
    if p.directory == "" then p.name else p.directory + "/" + p.name
  }

  /** The names as the scan compares them: an outbox has no directories, an inbox one per source. */
  lemma NativeNames(id: Identity)
    ensures Native(OutboxPath(id)) == FileName(id)
    ensures Native(InboxPath(id)) == Digits(id.source, 16) + "/" + FileName(id)
  {
  }

  datatype Opening = Created | Exists | OpenFailed

  datatype ScanResult = ScanFailed | Scanned(files: nat, bytes: nat, first: Option<Path>)

  /** What `store` refuses before it looks at the disk. */
  function Refusal(n: Naming, id: Identity, wire: seq<byte>): (r: Option<Status>)
    ensures |wire| == 0 || |wire| > 4144 ==> r == Some(InvalidArgument)
    ensures 0 < |wire| <= 4144 ==>
      (r == Some(InvalidFrame) <==> n.decode(wire).Err? || n.decode(wire).value.kind != 1)
    ensures r.Some? ==> r.value == InvalidArgument || r.value == InvalidFrame
    ensures r.None? <==> Spells(n, wire, n.path(id))
                         && n.decode(wire).value.source == id.source
                         && n.decode(wire).value.messageId == id.messageId
  {
    if |wire| == 0 || |wire| > Wire.MAX_FRAME then Some(InvalidArgument)
    else
      var decoded := n.decode(wire);
      if decoded.Err? || decoded.value.kind != Wire.ALARM then Some(InvalidFrame)
      else if decoded.value.source != id.source || decoded.value.messageId != id.messageId then Some(InvalidArgument)
      else None
  }

  /** A system call that succeeded. */
  datatype Deed =
    | Tried                               // open(2) of a new temporary file
    | FileSynced
    | FileClosed
    | Renamed
    | DirectorySynced(directory: string)  // of the data directory
    | TemporarySynced
    | CorruptSynced
    | Unlinked
    | TemporaryUnlinked
    | ParentReady
    | Looked
    | Listed                              // one query of a directory entry
    | Opened
    | FileRead

  /** `after` is `before` and steps on temporary files. */
  ghost predicate Only(before: seq<Event>, after: seq<Event>) {
    && |before| <= |after|
    && forall i :: 0 <= i < |after| ==> after[i] == if i < |before| then before[i] else Temporary
  }

  /** What a store has done last when it succeeds: the file first, then its name, then both directories. */
  function Landing(directory: string): (deeds: seq<Deed>) {
    [FileSynced, FileClosed, Renamed, DirectorySynced(directory), TemporarySynced]
  }

  /** What it has done first: an inbox makes the source's directory, then the name is looked up. */
  function First(inbox: bool): (deeds: seq<Deed>) {
    if inbox then [ParentReady, Looked] else [Looked]
  }

  predicate EndsWith(deeds: seq<Deed>, last: seq<Deed>) {
    |deeds| >= |last| && deeds[|deeds| - |last|..] == last
  }

  /** The call concerns no data file but `p`. */
  predicate Concerns(e: Event, p: Path) {
    match e
    case Temporary | Sync(_) => true
    case Publish(_, path) => path == p
    case Unlink(path) => path == p
    case Quarantine(path, _) => path == p
  }

  // ----- which calls of a store took effect -----

  /** The rename, the sync of the parent directory, the unlink that takes back, the sync after it. */
  datatype Tale = Tale(renamed: bool, synced: bool, unlinked: bool, resynced: bool)

  const NOT_RENAMED: Tale := Tale(false, false, false, false)
  const COMPLETED: Tale := Tale(true, true, false, false)

  function SyncedIf(data: map<Path, Slot>, directory: string, synced: bool): (next: map<Path, Slot>) {
    if synced then Flush(data, directory) else data
  }

  /** The data directory after what followed the rename. */
  function Rest(data: map<Path, Slot>, p: Path, tale: Tale): (next: map<Path, Slot>) {
    var kept := SyncedIf(data, p.directory, tale.synced);
    SyncedIf(if tale.unlinked then Put(kept, p, None) else kept, p.directory, tale.resynced)
  }

  /** The data directory after a store. */
  function Told(data: map<Path, Slot>, p: Path, file: File, tale: Tale): (next: map<Path, Slot>) {
    if tale.renamed then Rest(Put(data, p, Some(file)), p, tale) else data
  }

  class Spool {
    const naming: Naming
    const inbox: bool
    const maxBytes: u64

    /** How this process names its temporary files, by a counter. */
    const temporary: u64 -> string

    var ready: bool
    var sequence: u64
    var disk: Disk

    ghost var history: seq<Disk>
    ghost var events: seq<Event>

    /** How many system calls have failed, and those that have not, in their order. */
    ghost var faults: nat
    ghost var deeds: seq<Deed>

    /** Whether a capacity scan ever passed over an entry. */
    ghost var overlooked: bool

    /** The cap, or what the disk held at first if that was more. */
    ghost const limit: nat

    /** Whether the disk was sound, and its readable files well named, when the process started. */
    ghost const sound: bool
    ghost const named: bool

    ghost predicate Within(d: Disk)
      reads `overlooked
    {
      maxBytes == 0 || overlooked || Stored(d.data) <= limit
    }

    /** `history` leads to the present disk, one recorded call at a time, within the cap all the way. */
    ghost predicate Valid()
      reads `disk, `history, `events, `overlooked
    {
      && |history| == |events| + 1
      && history[|events|] == disk
      && (forall i :: 0 <= i < |events| ==> Step(naming, history[i], events[i], history[i + 1]))
      && (forall i :: 0 <= i <= |events| ==> Within(history[i]))
      && maxBytes <= limit
      && (sound ==> Sound(naming, disk)) && (named ==> Named(naming, disk))
    }

    /** A new process on an existing disk. */
    constructor (naming: Naming, inbox: bool, maxBytes: u64, pid: nat, disk: Disk)
      ensures Valid() && !ready && this.disk == disk && this.naming == naming && !overlooked && faults == 0
      ensures this.inbox == inbox && sequence == 0 && deeds == []
      ensures forall counter: u64 :: temporary(counter) == TemporaryName(pid, counter)
      ensures sound == Sound(naming, disk) && named == Named(naming, disk) && (sound ==> named)
      ensures this.maxBytes == maxBytes && limit == if Stored(disk.data) > maxBytes then Stored(disk.data) else maxBytes
    {
      this.naming, this.inbox, this.maxBytes := naming, inbox, maxBytes;
      temporary := (counter: u64) => TemporaryName(pid, counter);
      this.ready, this.sequence, this.disk := false, 0, disk;
      history, events, faults, overlooked, deeds := [disk], [], 0, false, [];
      limit := if Stored(disk.data) > maxBytes then Stored(disk.data) else maxBytes;
      sound, named := Sound(naming, disk), Named(naming, disk);
      if Sound(naming, disk) {
        SoundIsNamed(naming, disk);
      }
    }

    /** Since a moment with `count` events only `p` was concerned. */
    ghost predicate Since(count: nat, p: Path)
      reads `events
    {
      count <= |events| && forall i :: count <= i < |events| ==> Concerns(events[i], p)
    }

    /** The answer of a system call, which is the operating system's to give. */
    method Call(ghost deed: Deed) returns (ok: bool)
      modifies this`faults, this`deeds
      ensures faults == if ok then old(faults) else old(faults) + 1
      ensures deeds == if ok then old(deeds) + [deed] else old(deeds)
    {
      ok := *;
      if ok {
        deeds := deeds + [deed];
      } else {
        faults := faults + 1;
      }
    }

    /** The answer of write(2): how many of `limit` bytes were taken; none is a failure. */
    method TakeBytes(limit: nat) returns (n: nat)
      requires limit > 0
      modifies this`faults
      ensures n <= limit && faults == if n > 0 then old(faults) else old(faults) + 1
    {
      n := *;
      if !(0 < n <= limit) {
        n := 0;
        faults := faults + 1;
      }
    }

    /** One system call that took effect. */
    method Commit(next: Disk, ghost e: Event)
      requires Valid() && Step(naming, disk, e, next) && Within(next)
      modifies this`disk, this`history, this`events
      ensures Valid() && disk == next
      ensures events == old(events) + [e] && history == old(history) + [next]
    {
      if sound {
        StepKeepsSound(naming, disk, e, next);
      }
      if named {
        StepKeepsNamed(naming, disk, e, next);
      }
      disk := next;
      history, events := history + [next], events + [e];
    }

    method OpenTemporary(name: string) returns (r: Opening)
      requires Valid()
      modifies this`disk, this`history, this`events, this`faults, this`deeds
      ensures Valid() && disk.data == old(disk.data)
      ensures r.Created? ==> name !in old(disk.tmp) && disk.tmp == old(disk.tmp)[name := File([], false)]
      ensures !r.Created? ==> disk == old(disk)
      ensures events == if r.Created? then old(events) + [Temporary] else old(events)
      ensures if r.OpenFailed? then faults > old(faults) else faults == old(faults)
      ensures r.Exists? ==> name in disk.tmp
      ensures deeds == if r.OpenFailed? then old(deeds) else old(deeds) + [Tried]
    {
      var granted := Call(Tried);
      if !granted {
        return OpenFailed;
      }
      if name in disk.tmp {
        return Exists;
      }
      Commit(disk.(tmp := disk.tmp[name := File([], false)]), Temporary);
      return Created;
    }

    /** Replaces the content of one temporary file. */
    method SetTemporary(name: string, file: File)
      requires Valid() && name in disk.tmp
      modifies this`disk, this`history, this`events
      ensures Valid() && disk == old(disk).(tmp := old(disk.tmp)[name := file])
      ensures events == old(events) + [Temporary]
    {
      Commit(disk.(tmp := disk.tmp[name := file]), Temporary);
    }

    /** Short writes continue where the last one stopped; no progress is an error. */
    method WriteAll(name: string, wire: seq<byte>) returns (ok: bool)
      requires Valid() && name in disk.tmp && disk.tmp[name] == File([], false)
      modifies this`disk, this`history, this`events, this`faults
      ensures Valid() && disk.data == old(disk.data) && disk.corrupt == old(disk.corrupt)
      ensures name in disk.tmp && disk.tmp == old(disk.tmp)[name := disk.tmp[name]]
      ensures ok ==> disk.tmp[name] == File(wire, false)
      ensures if ok then faults == old(faults) else faults > old(faults)
      ensures Only(old(events), events)
    {
      var offset := 0;
      while offset < |wire|
        invariant offset <= |wire| && Valid()
        invariant disk.data == old(disk.data) && disk.corrupt == old(disk.corrupt)
        invariant name in disk.tmp && disk.tmp == old(disk.tmp)[name := File(wire[..offset], false)]
        invariant faults == old(faults)
        invariant Only(old(events), events)
      {
        var written := TakeBytes(|wire| - offset);
        if written == 0 {
          return false;
        }
        SetTemporary(name, File(wire[..offset + written], false));
        offset := offset + written;
      }
      assert wire[..|wire|] == wire;
      return true;
    }

    method UnlinkTemporary(name: string)
      requires Valid()
      modifies this`disk, this`history, this`events, this`faults, this`deeds
      ensures Valid() && disk.data == old(disk.data)
      ensures events == old(events) || events == old(events) + [Temporary]
      ensures faults >= old(faults)
      ensures deeds in {old(deeds), old(deeds) + [TemporaryUnlinked]}
      ensures disk.tmp == if faults == old(faults) then old(disk.tmp) - {name} else old(disk.tmp)
    {
      var granted := Call(TemporaryUnlinked);
      if granted {
        Commit(disk.(tmp := disk.tmp - {name}), Temporary);
      }
    }

    /** fsync of a directory. */
    method SyncDirectory(directory: string) returns (ok: bool)
      requires Valid()
      modifies this`disk, this`history, this`events, this`faults, this`deeds
      ensures Valid()
      ensures disk.tmp == old(disk.tmp) && disk.corrupt == old(disk.corrupt)
      ensures forall q :: At(disk, q).current == At(old(disk), q).current
      ensures ok ==> forall q: Path :: q.directory == directory ==> At(disk, q).durable == {At(disk, q).current}
      ensures !ok ==> disk == old(disk)
      ensures disk.data == SyncedIf(old(disk.data), directory, ok)
      ensures Stored(disk.data) == Stored(old(disk.data))
      ensures events == old(events) || events == old(events) + [Sync(directory)]
      ensures if ok then faults == old(faults) else faults > old(faults)
      ensures deeds == if ok then old(deeds) + [DirectorySynced(directory)] else old(deeds)
    {
      ok := Call(DirectorySynced(directory));
      if ok {
        StoredAfterFlush(disk.data, directory);
        Commit(disk.(data := Flush(disk.data, directory)), Sync(directory));
      }
    }

    method UnlinkData(p: Path) returns (ok: bool)
      requires Valid()
      modifies this`disk, this`history, this`events, this`faults, this`deeds
      ensures Valid()
      ensures forall q :: q != p ==> At(disk, q) == At(old(disk), q)
      ensures ok ==> At(disk, p).current == None
      ensures !ok ==> disk == old(disk)
      ensures disk.data == if ok then Put(old(disk.data), p, None) else old(disk.data)
      ensures Stored(disk.data) <= Stored(old(disk.data))
      ensures events == old(events) || events == old(events) + [Unlink(p)]
      ensures if ok then faults == old(faults) else faults > old(faults)
      ensures deeds == if ok then old(deeds) + [Unlinked] else old(deeds)
    {
      ok := Call(Unlinked);
      if ok {
        StoredAfterRemoval(disk.data, p);
        Commit(disk.(data := Put(disk.data, p, None)), Unlink(p));
      }
    }

    /** One attempt, under the next name of the counter. */
    method OpenNext() returns (r: Opening, name: string)
      requires Valid()
      modifies this`disk, this`history, this`events, this`faults, this`deeds, this`sequence
      ensures Valid() && disk.data == old(disk.data)
      ensures sequence == (old(sequence) + 1) % TWO_64 && name == temporary(sequence)
      ensures r.Created? ==> name !in old(disk.tmp) && disk.tmp == old(disk.tmp)[name := File([], false)]
      ensures !r.Created? ==> disk == old(disk)
      ensures events == if r.Created? then old(events) + [Temporary] else old(events)
      ensures if r.OpenFailed? then faults > old(faults) else faults == old(faults)
      ensures r.Exists? ==> name in disk.tmp
      ensures deeds == if r.OpenFailed? then old(deeds) else old(deeds) + [Tried]
    {
      sequence := (sequence + 1) % TWO_64;
      name := temporary(sequence);
      r := OpenTemporary(name);
    }

    /** Creates a temporary file under a fresh name; at most 100 names are tried. */
    method OpenFresh() returns (r: Option<string>)
      requires Valid()
      modifies this`disk, this`history, this`events, this`faults, this`deeds, this`sequence
      ensures Valid() && disk.data == old(disk.data) && faults >= old(faults)
      ensures r.Some? ==> faults == old(faults) && events == old(events) + [Temporary]
      ensures r.None? ==>
        events == old(events) && (faults > old(faults) || Crowded(old(disk.tmp), temporary, old(sequence)))
      ensures old(deeds) <= deeds
      ensures disk.tmp == if r.Some? then old(disk.tmp)[r.value := File([], false)] else old(disk.tmp)
      ensures r.Some? ==> r.value !in old(disk.tmp)
      ensures Crowded(old(disk.tmp), temporary, old(sequence)) ==> r.None?
    {
      var attempt := 0;
      while attempt < TEMPORARY_NAMES
        invariant attempt <= TEMPORARY_NAMES && old(deeds) <= deeds
        invariant Valid() && disk == old(disk) && faults == old(faults) && events == old(events)
        invariant sequence == Later(old(sequence), attempt)
        invariant forall k :: 1 <= k <= attempt ==> temporary(Later(old(sequence), k)) in disk.tmp
      {
        var opening, name := OpenNext();
        if opening == Created {
          assert name == temporary(Later(old(sequence), attempt + 1));
          return Some(name);
        }
        if opening == OpenFailed {
          return None;
        }
        attempt := attempt + 1;
      }
      return None;
    }

    /** Writes, syncs and closes an open temporary file. */
    method Fill(name: string, wire: seq<byte>) returns (ok: bool)
      requires Valid() && name in disk.tmp && disk.tmp[name] == File([], false)
      modifies this`disk, this`history, this`events, this`faults, this`deeds
      ensures Valid() && disk.data == old(disk.data) && name in disk.tmp
      ensures Only(old(events), events)
      ensures ok ==> disk.tmp[name] == File(wire, true) && faults == old(faults)
      ensures !ok ==> faults > old(faults)
      ensures old(deeds) <= deeds && (ok ==> deeds == old(deeds) + [FileSynced, FileClosed])
      ensures disk.tmp == old(disk.tmp)[name := disk.tmp[name]]
    {
      ok := WriteAll(name, wire);
      if ok {
        ok := Call(FileSynced);
      }
      if ok {
        SetTemporary(name, File(wire, true));
        ok := Call(FileClosed);
      }
    }

    /** Writes and syncs the frame under a temporary name. */
    method Stage(wire: seq<byte>) returns (r: Option<string>)
      requires Valid()
      modifies this`disk, this`history, this`events, this`faults, this`deeds, this`sequence
      ensures Valid() && disk.data == old(disk.data)
      ensures Only(old(events), events)
      ensures r.Some? ==> r.value in disk.tmp && disk.tmp[r.value] == File(wire, true)
      ensures faults >= old(faults)
      ensures (r.None? ==> faults > old(faults) || Crowded(old(disk.tmp), temporary, old(sequence)))
      ensures old(deeds) <= deeds && (r.Some? ==> EndsWith(deeds, [FileSynced, FileClosed]))
      ensures r.Some? ==> faults == old(faults)
      ensures r.None? && faults < old(faults) + 2 ==> disk.tmp == old(disk.tmp)
    {
      r := OpenFresh();
      if r.None? {
        return;
      }
      var ok := Fill(r.value, wire);
      if !ok {
        UnlinkTemporary(r.value);
        return None;
      }
    }

    /** `size` more bytes would stay within the cap, as far as the scans saw. */
    ghost predicate Room(size: nat)
      reads `disk, `overlooked
    {
      maxBytes == 0 || overlooked || Stored(disk.data) + size <= limit
    }

    /** Moves the staged file to its final name and makes the entry durable, or undoes it. */
    method Release(name: string, p: Path) returns (ok: bool, ghost tale: Tale)
      requires Valid() && name in disk.tmp && disk.tmp[name].synced && Room(|disk.tmp[name].bytes|)
      requires Spells(naming, disk.tmp[name].bytes, p) && At(disk, p).current == None
      modifies this`disk, this`history, this`events, this`faults, this`deeds
      ensures Valid()
      ensures |old(events)| <= |events| && events[..|old(events)|] == old(events) && Since(|old(events)|, p)
      ensures ok ==> Settled(At(disk, p), old(disk.tmp[name].bytes))
      ensures Stored(disk.data) <= Stored(old(disk.data)) + |old(disk.tmp[name].bytes)|
      ensures ok ==> Stored(disk.data) == Stored(old(disk.data)) + |old(disk.tmp[name].bytes)|
      ensures At(disk, p).current == None || At(disk, p).current == Some(old(disk.tmp[name]))
      ensures if ok then faults == old(faults) else faults > old(faults)
      ensures !ok && At(disk, p).current.Some? ==> faults >= old(faults) + 2
      ensures disk.data == Told(old(disk.data), p, old(disk.tmp[name]), tale) && (ok ==> tale == COMPLETED)
      ensures forall q :: q != p ==> At(disk, q).current == At(old(disk), q).current
      ensures ok ==> deeds == old(deeds) + [Renamed, DirectorySynced(p.directory), TemporarySynced]
      ensures old(deeds) <= deeds
      ensures !tale.renamed && name in disk.tmp ==> faults >= old(faults) + 2
    {
      tale := NOT_RENAMED;
      ok := Rename(name, p);
      if !ok {
        UnlinkTemporary(name);
        return;
      }
      ok, tale := SyncDestination(p);
    }

    /** rename(2) of the staged file to its final name. */
    method Rename(name: string, p: Path) returns (ok: bool)
      requires Valid() && name in disk.tmp && disk.tmp[name].synced && Room(|disk.tmp[name].bytes|)
      requires Spells(naming, disk.tmp[name].bytes, p) && At(disk, p).current == None
      modifies this`disk, this`history, this`events, this`faults, this`deeds
      ensures Valid()
      ensures if ok then faults == old(faults) else faults > old(faults)
      ensures events == if ok then old(events) + [Publish(name, p)] else old(events)
      ensures !ok ==> disk == old(disk)
      ensures ok ==> At(disk, p).current == Some(old(disk.tmp[name]))
      ensures disk.data == if ok then Put(old(disk.data), p, Some(old(disk.tmp[name]))) else old(disk.data)
      ensures forall q :: q != p ==> At(disk, q) == At(old(disk), q)
      ensures ok ==> Stored(disk.data) == Stored(old(disk.data)) + |old(disk.tmp[name].bytes)|
      ensures deeds == if ok then old(deeds) + [Renamed] else old(deeds)
      ensures ok ==> name !in disk.tmp
    {
      ok := Call(Renamed);
      if ok {
        StoredAfterPublish(disk.data, p, disk.tmp[name]);
        Commit(disk.(data := Put(disk.data, p, Some(disk.tmp[name])), tmp := disk.tmp - {name}), Publish(name, p));
      }
    }

    /** Syncs the parent and the temporary directory; on failure takes the file back, if the unlink works. */
    method SyncDestination(p: Path) returns (ok: bool, ghost tale: Tale)
      requires Valid() && At(disk, p).current.Some? && At(disk, p).current.value.synced
      modifies this`disk, this`history, this`events, this`faults, this`deeds
      ensures Valid()
      ensures |old(events)| <= |events| && events[..|old(events)|] == old(events) && Since(|old(events)|, p)
      ensures ok ==> Settled(At(disk, p), old(At(disk, p).current.value.bytes))
      ensures Stored(disk.data) <= Stored(old(disk.data)) && (ok ==> Stored(disk.data) == Stored(old(disk.data)))
      ensures At(disk, p).current == None || At(disk, p).current == old(At(disk, p).current)
      ensures if ok then faults == old(faults) else faults > old(faults)
      ensures !ok && At(disk, p).current.Some? ==> faults >= old(faults) + 2
      ensures tale.renamed && disk.data == Rest(old(disk.data), p, tale) && (ok ==> tale == COMPLETED)
      ensures forall q :: q != p ==> At(disk, q).current == At(old(disk), q).current
      ensures ok ==> deeds == old(deeds) + [DirectorySynced(p.directory), TemporarySynced]
      ensures old(deeds) <= deeds
    {
      ok := SyncDirectory(p.directory);
      tale := Tale(true, ok, false, false);
      if ok {
        ok := Call(TemporarySynced);
        assert ok ==> deeds == old(deeds) + [DirectorySynced(p.directory), TemporarySynced];
      }
      if !ok {
        ghost var gone, again := TakeBack(p);
        tale := tale.(unlinked := gone, resynced := again);
      }
    }

    /** Unlinks a file that could not be made durable; whether that works, too, is not looked at. */
    method TakeBack(p: Path) returns (ghost gone: bool, ghost synced: bool)
      requires Valid()
      modifies this`disk, this`history, this`events, this`faults, this`deeds
      ensures Valid()
      ensures |old(events)| <= |events| && events[..|old(events)|] == old(events) && Since(|old(events)|, p)
      ensures Stored(disk.data) <= Stored(old(disk.data)) && faults >= old(faults)
      ensures At(disk, p).current == None || (At(disk, p).current == At(old(disk), p).current && faults > old(faults))
      ensures disk.data == SyncedIf(if gone then Put(old(disk.data), p, None) else old(disk.data), p.directory, synced)
      ensures forall q :: q != p ==> At(disk, q).current == At(old(disk), q).current
      ensures old(deeds) <= deeds
    {
      var ok := UnlinkData(p);
      gone := ok;
      ok := SyncDirectory(p.directory);
      synced := ok;
    }

    /** Adds one directory entry to the count; `passed` if its status query failed. */
    method ScanEntry(p: Path, sofar: ScanResult, ghost counted: set<Path>) returns (r: ScanResult, ghost passed: bool)
      requires p !in counted && sofar.Scanned? && Tally(disk.data, counted, sofar)
      modifies this`faults, this`deeds
      ensures faults >= old(faults) && (passed ==> faults > old(faults))
      ensures r.ScanFailed? ==> faults > old(faults) || sofar.bytes + SizeAt(disk.data, p) >= TWO_64
      ensures r.Scanned? ==> Tally(disk.data, if passed then counted else counted + {p}, r)
      ensures old(deeds) <= deeds && (r.Scanned? ==> faults == old(faults) + if passed then 1 else 0)
    {
      var status := Call(Listed);
      passed := !status;
      r := sofar;
      if status {
        var bytes := SizeAt(disk.data, p);
        var sized := Call(Listed);
        if !sized || sofar.bytes > TWO_64 - 1 - bytes {
          return ScanFailed, passed;
        }
        TallyMore(disk.data, counted, sofar, p);
        r := Scanned(sofar.files + 1, sofar.bytes + bytes, Lower(sofar.first, p));
      }
      var more := Call(Listed);
      if !more {
        r := ScanFailed;
      }
    }

    /**
     Counts the regular files of the data directory in whatever order it lists them. An
     entry whose status query fails is passed over without a word.
     */
    method Scan() returns (r: ScanResult, ghost skipped: set<Path>)
      modifies this`faults, this`deeds
      ensures faults >= old(faults) && (skipped != {} ==> faults > old(faults))
      ensures r.ScanFailed? ==> faults > old(faults) || Stored(disk.data) >= TWO_64
      ensures skipped <= Present(disk.data)
      ensures r.Scanned? ==> Tally(disk.data, Present(disk.data) - skipped, r)
      ensures old(deeds) <= deeds && (r.Scanned? ==> faults == old(faults) + |skipped|)
    {
      var all := Present(disk.data);
      var rest := all;
      ghost var counted, passed := {}, false;
      r, skipped := Scanned(0, 0, None), {};
      while rest != {} && r.Scanned?
        invariant rest <= all && skipped <= all && counted <= all
        invariant forall p <- all :: (p in rest) != (p in skipped || p in counted)
        invariant skipped !! counted && old(deeds) <= deeds && (r.Scanned? ==> faults == old(faults) + |skipped|)
        invariant r.Scanned? ==> Tally(disk.data, counted, r)
        invariant faults >= old(faults) && (skipped != {} ==> faults > old(faults))
        invariant r.ScanFailed? ==> faults > old(faults) || Stored(disk.data) >= TWO_64
        decreases |rest|
      {
        var p :| p in rest;
        rest := rest - {p};
        OneMore(disk.data, counted, all, p);
        r, passed := ScanEntry(p, r, counted);
        if passed {
          skipped := skipped + {p};
        } else {
          counted := counted + {p};
        }
      }
      if r.Scanned? {
        assert all - skipped == counted;
      }
    }

    /** Stages and releases one frame. */
    method Write(p: Path, wire: seq<byte>) returns (ok: bool, ghost tale: Tale)
      requires Valid() && Spells(naming, wire, p) && At(disk, p).current == None && Room(|wire|)
      modifies this`disk, this`history, this`events, this`faults, this`deeds, this`sequence
      ensures Valid()
      ensures |old(events)| <= |events| && events[..|old(events)|] == old(events) && Since(|old(events)|, p)
      ensures ok ==> Settled(At(disk, p), wire) && Stored(disk.data) == Stored(old(disk.data)) + |wire|
      ensures Stored(disk.data) <= Stored(old(disk.data)) + |wire|
      ensures At(disk, p).current == None || At(disk, p).current == Some(File(wire, true))
      ensures faults >= old(faults)
      ensures (!ok ==> faults > old(faults) || Crowded(old(disk.tmp), temporary, old(sequence)))
      ensures disk.data == Told(old(disk.data), p, File(wire, true), tale) && (ok ==> tale == COMPLETED)
      ensures forall q :: q != p ==> At(disk, q).current == At(old(disk), q).current
      ensures old(deeds) <= deeds && (ok ==> EndsWith(deeds, Landing(p.directory)) && faults == old(faults))
    {
      var staged := Stage(wire);
      if staged.None? {
        return false, NOT_RENAMED;
      }
      ok, tale := Release(staged.value, p);
    }

    /** The capacity test: nothing if the frame may be stored, else why not. */
    method Admission(size: nat) returns (r: Option<Status>, ghost skipped: set<Path>)
      requires Valid()
      modifies this`faults, this`deeds, this`overlooked
      ensures Valid() && faults >= old(faults)
      ensures skipped <= Present(disk.data) && (skipped != {} ==> faults > old(faults))
      ensures overlooked == (old(overlooked) || skipped != {})
      ensures r.None? ==>
        Room(size) && (maxBytes != 0 ==> Stored(disk.data) + size <= maxBytes + Sum(disk.data, skipped))
      ensures r in {None, Some(Full), Some(IoError)}
      ensures r == Some(IoError) ==> faults > old(faults) || Stored(disk.data) >= TWO_64
      ensures r == Some(Full) && faults == old(faults) ==> maxBytes != 0 && Stored(disk.data) + size > maxBytes
      ensures old(deeds) <= deeds && (r != Some(IoError) ==> faults == old(faults) + |skipped|)
    {
      if maxBytes == 0 {
        return None, {};
      }
      var scan;
      scan, skipped := Scan();
      overlooked := overlooked || skipped != {};
      if scan.ScanFailed? {
        return Some(IoError), skipped;
      }
      SumSplit(disk.data, Present(disk.data), skipped);
      assert skipped == {} ==> Sum(disk.data, skipped) == 0;
      r := if Admits(scan.bytes, size, maxBytes) then None else Some(Full);
    }

    /** Makes an inbox's source directory, then asks whether the name is taken. */
    method LookUp() returns (ok: bool)
      modifies this`faults, this`deeds
      ensures faults == if ok then old(faults) else old(faults) + 1
      ensures ok ==> deeds == old(deeds) + First(inbox)
    {
      ok := true;
      if inbox {
        ok := Call(ParentReady);
      }
      if ok {
        ok := Call(Looked);
      }
    }

    /** The part of `store` under the spool's lock. */
    method Persist(p: Path, wire: seq<byte>) returns (r: Status, ghost skipped: set<Path>, ghost tale: Tale)
      requires Valid() && Spells(naming, wire, p)
      modifies this`disk, this`history, this`events, this`faults, this`deeds, this`sequence, this`overlooked
      ensures Valid()
      ensures |old(events)| <= |events| && events[..|old(events)|] == old(events) && Since(|old(events)|, p)
      ensures r == Success ==> At(old(disk), p).current == None && Settled(At(disk, p), wire)
      ensures r in {Success, Duplicate, Full, IoError}
      ensures r == Duplicate ==> At(disk, p).current.Some?
      ensures r == Duplicate || r == Full || At(old(disk), p).current.Some? ==> disk == old(disk) && r != Success
      ensures At(old(disk), p).current.Some? ==> r != Full
      ensures At(disk, p).current in {At(old(disk), p).current, None, Some(File(wire, true))}
      ensures forall q :: q != p ==> At(disk, q).current == At(old(disk), q).current
      ensures r == Duplicate ==> sequence == old(sequence)
      ensures skipped <= Present(old(disk.data)) && (skipped != {} ==> faults > old(faults))
      ensures overlooked == (old(overlooked) || skipped != {})
      ensures r == Success ==> Stored(disk.data) == Stored(old(disk.data)) + |wire|
      ensures maxBytes != 0 && disk.data != old(disk.data) ==>
        Stored(disk.data) <= maxBytes + Sum(old(disk.data), skipped)
      ensures faults >= old(faults)
      ensures r == IoError ==>
        faults > old(faults) || Crowded(old(disk.tmp), temporary, old(sequence)) || Stored(old(disk.data)) >= TWO_64
      ensures r == Full && faults == old(faults) ==> maxBytes != 0 && Stored(old(disk.data)) + |wire| > maxBytes
      ensures disk.data == Told(old(disk.data), p, File(wire, true), tale) && (r == Success ==> tale == COMPLETED)
      ensures tale.renamed ==> At(old(disk), p).current == None && r in {Success, IoError}
      ensures r != IoError ==> faults == old(faults) + |skipped| && old(deeds) + First(inbox) <= deeds
      ensures r == Success ==> EndsWith(deeds, Landing(p.directory))
    {
      skipped, tale := {}, NOT_RENAMED;
      var ok := LookUp();
      if !ok {
        return IoError, skipped, tale;
      }
      if At(disk, p).current.Some? {
        return Duplicate, skipped, tale;
      }
      var refusal;
      refusal, skipped := Admission(|wire|);
      if refusal.Some? {
        return refusal.value, skipped, tale;
      }
      ok, tale := Write(p, wire);
      r := if ok then Success else IoError;
    }

    /**
     Persists one frame under the name its identity spells. Success means that no power
     loss can take it away any more; Duplicate means that a file of this identity is there.
     `skipped` are the entries whose status query failed in the capacity scan: without one the
     stored bytes stay within the cap, at every point of `history` (`Valid`). `tale` says which
     of the calls that change the data directory took effect.
     */
    method Store(id: Identity, wire: seq<byte>) returns (r: Status, ghost skipped: set<Path>, ghost tale: Tale)
      requires Valid()
      modifies this`disk, this`history, this`events, this`faults, this`deeds, this`sequence, this`overlooked
      ensures Valid()
      ensures |old(events)| <= |events| && events[..|old(events)|] == old(events)
      ensures Since(|old(events)|, naming.path(id))
      ensures !ready <==> r == NotReady
      ensures ready ==>
        if Refusal(naming, id, wire).Some? then r == Refusal(naming, id, wire).value
        else r in {Success, Duplicate, Full, IoError}
      ensures r == Success ==>
        At(old(disk), naming.path(id)).current == None && Settled(At(disk, naming.path(id)), wire)
      ensures r == Duplicate ==> At(disk, naming.path(id)).current.Some?
      ensures ready && Refusal(naming, id, wire).None? && At(old(disk), naming.path(id)).current.Some? ==>
        r == Duplicate || r == IoError
      ensures r == Success || r == IoError || disk == old(disk)
      ensures At(old(disk), naming.path(id)).current.Some? ==> disk == old(disk)
      ensures At(disk, naming.path(id)).current in
        {At(old(disk), naming.path(id)).current, None, Some(File(wire, true))}
      ensures forall q :: q != naming.path(id) ==> At(disk, q).current == At(old(disk), q).current
      ensures r == Duplicate ==> sequence == old(sequence)
      ensures skipped <= Present(old(disk.data)) && (skipped != {} ==> faults > old(faults))
      ensures overlooked == (old(overlooked) || skipped != {})
      ensures r == Success ==> Stored(disk.data) == Stored(old(disk.data)) + |wire|
      ensures maxBytes != 0 && disk.data != old(disk.data) ==>
        Stored(disk.data) <= maxBytes + Sum(old(disk.data), skipped)
      ensures faults >= old(faults)
      ensures r == IoError ==>
        faults > old(faults) || Crowded(old(disk.tmp), temporary, old(sequence)) || Stored(old(disk.data)) >= TWO_64
      ensures r == Full && faults == old(faults) ==> maxBytes != 0 && Stored(old(disk.data)) + |wire| > maxBytes
      ensures disk.data == Told(old(disk.data), naming.path(id), File(wire, true), tale)
      ensures r == Success ==> tale == COMPLETED
      ensures tale.renamed ==>
        At(old(disk), naming.path(id)).current == None && r in {Success, IoError} && Readable(naming, wire)
      ensures r in {Success, Duplicate, Full} ==>
        faults == old(faults) + |skipped| && old(deeds) + First(inbox) <= deeds
      ensures r == Success ==> EndsWith(deeds, Landing(naming.path(id).directory))
    {
      skipped, tale := {}, NOT_RENAMED;
      if !ready {
        return NotReady, skipped, tale;
      }
      var refusal := Refusal(naming, id, wire);
      if refusal.Some? {
        return refusal.value, skipped, tale;
      }
      r, skipped, tale := Persist(naming.path(id), wire);
    }

    /** The next file to send: the least path among those the scan could see. */
    method Next() returns (r: Status, p: Option<Path>, ghost skipped: set<Path>)
      modifies this`faults, this`deeds
      ensures faults >= old(faults) && (skipped != {} ==> faults > old(faults))
      ensures r in {NotReady, Success, Empty, IoError}
      ensures r == IoError ==> faults > old(faults) || Stored(disk.data) >= TWO_64
      ensures !ready <==> r == NotReady
      ensures skipped <= Present(disk.data)
      ensures r == Success <==> p.Some?
      ensures p.Some? ==> p.value in Present(disk.data) && Lowest(p.value, Present(disk.data) - skipped)
      ensures r == Empty ==> Present(disk.data) == skipped
    {
      p, skipped := None, {};
      if !ready {
        return NotReady, p, skipped;
      }
      var scan;
      scan, skipped := Scan();
      if scan.ScanFailed? {
        return IoError, p, skipped;
      }
      return if scan.first.None? then Empty else Success, scan.first, skipped;
    }

    /** Unlinks a data file and syncs its directory. */
    method Remove(p: Path) returns (r: Status, ghost unlinked: bool)
      requires Valid()
      modifies this`disk, this`history, this`events, this`faults, this`deeds
      ensures Valid()
      ensures |old(events)| <= |events| && events[..|old(events)|] == old(events) && Since(|old(events)|, p)
      ensures r == Success ==> At(old(disk), p).current.Some? && At(disk, p) == VACANT
      ensures r == NotReady || r == NotFound ==> disk == old(disk)
      ensures ready && At(old(disk), p).current == None ==> r == NotFound
      ensures forall q :: q != p ==> At(disk, q).current == At(old(disk), q).current
      ensures Stored(disk.data) <= Stored(old(disk.data)) && faults >= old(faults)
      ensures ready && At(old(disk), p).current.Some? ==>
        if r == Success then faults == old(faults) else faults > old(faults)
      ensures disk.data ==
        SyncedIf(if unlinked then Put(old(disk.data), p, None) else old(disk.data), p.directory, r == Success)
      ensures r == Success ==> unlinked
      ensures r == Success ==> deeds == old(deeds) + [Unlinked, DirectorySynced(p.directory)]
    {
      unlinked := false;
      if !ready {
        return NotReady, unlinked;
      }
      if At(disk, p).current.None? {
        return NotFound, unlinked;
      }
      var ok := UnlinkData(p);
      unlinked := ok;
      if ok {
        ok := SyncDirectory(p.directory);
      }
      r := if ok then Success else IoError;
    }

    /** Probes name, name.1, ..., name.999; `failing` says which existence probes report an error. */
    method PickTarget(name: string, failing: nat -> bool) returns (target: Option<nat>)
      ensures target == FirstFree(Taken(name, disk.corrupt.Keys), failing, 0)
    {
      var suffix := 0;
      while suffix < QUARANTINE_NAMES
        invariant suffix <= QUARANTINE_NAMES
        invariant var taken := Taken(name, disk.corrupt.Keys);
          FirstFree(taken, failing, 0) == FirstFree(taken, failing, suffix)
      {
        if failing(suffix) || CorruptName(name, suffix) !in disk.corrupt {
          return Some(suffix);
        }
        suffix := suffix + 1;
      }
      return None;
    }

    /** rename(2) of a data file into the corrupt directory. */
    method MoveAway(p: Path, target: string) returns (ok: bool)
      requires Valid() && At(disk, p).current.Some?
      modifies this`disk, this`history, this`events, this`faults, this`deeds
      ensures Valid()
      ensures if ok then faults == old(faults) else faults > old(faults)
      ensures events == if ok then old(events) + [Quarantine(p, target)] else old(events)
      ensures !ok ==> disk == old(disk)
      ensures disk.data == if ok then Put(old(disk.data), p, None) else old(disk.data)
      ensures ok ==> At(disk, p).current == None
      ensures ok ==> disk.corrupt == old(disk.corrupt)[target := At(old(disk), p).current.value]
      ensures |disk.corrupt.Keys| <= |old(disk.corrupt.Keys)| + 1
      ensures forall q :: q != p ==> At(disk, q) == At(old(disk), q)
      ensures deeds == if ok then old(deeds) + [Renamed] else old(deeds)
    {
      ok := Call(Renamed);
      if ok {
        StoredAfterRemoval(disk.data, p);
        assert disk.corrupt[target := At(disk, p).current.value].Keys == disk.corrupt.Keys + {target};
        Commit(disk.(data := Put(disk.data, p, None), corrupt := disk.corrupt[target := At(disk, p).current.value]),
               Quarantine(p, target));
      }
    }

    /** Moves a data file to the corrupt directory and syncs both. */
    method MoveToCorrupt(p: Path, failing: nat -> bool) returns (ok: bool, ghost target: Option<string>)
      requires Valid() && At(disk, p).current.Some?
      modifies this`disk, this`history, this`events, this`faults, this`deeds
      ensures Valid()
      ensures |old(events)| <= |events| && events[..|old(events)|] == old(events) && Since(|old(events)|, p)
      ensures ok ==> target.Some? && At(disk, p) == VACANT
      ensures target.None? ==> disk == old(disk)
      ensures faults >= old(faults) && |disk.corrupt.Keys| <= |old(disk.corrupt.Keys)| + 1
      ensures !ok ==> faults > old(faults) || FirstFree(Taken(p.name, old(disk.corrupt.Keys)), failing, 0).None?
      ensures target.Some? ==> disk.corrupt == old(disk.corrupt)[target.value := At(old(disk), p).current.value]
      ensures target.Some? ==> var k := FirstFree(Taken(p.name, old(disk.corrupt.Keys)), failing, 0);
        k.Some? && target.value == CorruptName(p.name, k.value)
      ensures disk.data ==
        SyncedIf(if target.Some? then Put(old(disk.data), p, None) else old(disk.data), p.directory, ok)
      ensures forall q :: q != p ==> At(disk, q).current == At(old(disk), q).current
      ensures ok ==> deeds == old(deeds) + [Renamed, CorruptSynced, DirectorySynced(p.directory)]
    {
      target := None;
      var pick := PickTarget(p.name, failing);
      if pick.None? {
        return false, target;
      }
      var name := CorruptName(p.name, pick.value);
      ok := MoveAway(p, name);
      if !ok {
        return;
      }
      target := Some(name);
      ok := Call(CorruptSynced);
      if ok {
        assert deeds == old(deeds) + [Renamed, CorruptSynced];
        ok := SyncDirectory(p.directory);
      }
    }

    method QuarantineFile(p: Path, failing: nat -> bool) returns (r: Status, ghost target: Option<string>)
      requires Valid()
      modifies this`disk, this`history, this`events, this`faults, this`deeds
      ensures Valid() && |disk.corrupt.Keys| <= |old(disk.corrupt.Keys)| + 1
      ensures r == Success ==> At(old(disk), p).current.Some? && At(disk, p) == VACANT && target.Some?
      ensures target.None? ==> disk == old(disk)
      ensures faults >= old(faults)
      ensures ready && At(old(disk), p).current.Some? && r != Success ==>
        faults > old(faults) || FirstFree(Taken(p.name, old(disk.corrupt.Keys)), failing, 0).None?
      ensures target.Some? ==>
        && At(old(disk), p).current.Some?
        && disk.corrupt == old(disk.corrupt)[target.value := At(old(disk), p).current.value]
      ensures forall q :: q != p ==> At(disk, q).current == At(old(disk), q).current
      ensures r == Success ==> target.Some?
      ensures disk.data ==
        SyncedIf(if target.Some? then Put(old(disk.data), p, None) else old(disk.data), p.directory, r == Success)
      ensures target.Some? && (forall k: nat :: failing(k) ==> CorruptName(p.name, k) !in old(disk.corrupt)) ==>
        target.value !in old(disk.corrupt)
      ensures r == Success ==> deeds == old(deeds) + [Renamed, CorruptSynced, DirectorySynced(p.directory)]
      ensures r == NotReady <==> !ready
      ensures r == NotFound <==> ready && At(old(disk), p).current == None
      ensures r in {NotReady, NotFound, Success, IoError}
    {
      target := None;
      if !ready {
        return NotReady, target;
      }
      if At(disk, p).current.None? {
        return NotFound, target;
      }
      FirstFreeIsFree(Taken(p.name, disk.corrupt.Keys), failing, 0);
      var ok;
      ok, target := MoveToCorrupt(p, failing);
      r := if ok then Success else IoError;
    }

    /**
     Reads a data file and decodes it again, on any disk. Only a damaged file is moved away;
     a sound disk has none. `moved`: the file has left its name, durably if it is reported Corrupt.
     */
    method Read(p: Path, failing: nat -> bool) returns (r: Status, bytes: seq<byte>, ghost moved: bool)
      requires Valid()
      modifies this`disk, this`history, this`events, this`faults, this`deeds
      ensures Valid() && (sound ==> disk == old(disk) && r != Corrupt)
      ensures r in {NotReady, NotFound, IoError, Corrupt, Success}
      ensures r == NotReady <==> !ready
      ensures ready ==> (r == NotFound <==> At(old(disk), p).current.None?)
      ensures r == Success ==>
        && At(disk, p).current.Some? && bytes == At(disk, p).current.value.bytes && Readable(naming, bytes)
      ensures r == Corrupt ==>
        && At(disk, p) == VACANT
        && At(old(disk), p).current.Some? && !Readable(naming, At(old(disk), p).current.value.bytes)
      ensures r in {Success, NotFound, NotReady} || Intact(naming, old(disk), p) ==> disk == old(disk)
      ensures faults >= old(faults) && |disk.corrupt.Keys| <= |old(disk.corrupt.Keys)| + 1
      ensures r == IoError && faults == old(faults) ==>
        !Intact(naming, old(disk), p) && FirstFree(Taken(p.name, old(disk.corrupt.Keys)), failing, 0).None?
      ensures moved ==> At(old(disk), p).current.Some? && !Intact(naming, old(disk), p)
      ensures r == Corrupt ==> moved
      ensures disk.data ==
        SyncedIf(if moved then Put(old(disk.data), p, None) else old(disk.data), p.directory, r == Corrupt)
      ensures forall q :: q != p ==> At(disk, q).current == At(old(disk), q).current
      ensures r == Success ==> deeds == old(deeds) + [Opened, FileRead]
    {
      bytes, moved := [], false;
      if !ready {
        return NotReady, bytes, moved;
      }
      if At(disk, p).current.None? {
        return NotFound, bytes, moved;
      }
      var ok := Call(Opened);
      if ok {
        ok := Call(FileRead);
      }
      if !ok {
        return IoError, bytes, moved;
      }
      bytes := At(disk, p).current.value.bytes;
      assert SoundSlot(naming, p, At(disk, p)) ==> Readable(naming, bytes);
      if !Readable(naming, bytes) {
        ghost var target;
        ok, target := MoveToCorrupt(p, failing);
        return if ok then Corrupt else IoError, [], target.Some?;
      }
      return Success, bytes, moved;
    }

    /** Moves one temporary file to the corrupt directory. */
    method SetAside(name: string, failing: nat -> bool) returns (ok: bool)
      requires Valid() && name in disk.tmp
      modifies this`disk, this`history, this`events, this`faults, this`deeds
      ensures Valid() && disk.data == old(disk.data)
      ensures ok ==> disk.tmp == old(disk.tmp) - {name}
      ensures (forall k: nat :: !failing(k)) ==> Keeps(old(disk.corrupt), disk.corrupt)
      ensures ok ==> deeds == old(deeds) + [Renamed, CorruptSynced, TemporarySynced]
    {
      FirstFreeIsFree(Taken(name, disk.corrupt.Keys), failing, 0);
      var pick := PickTarget(name, failing);
      if pick.None? {
        return false;
      }
      ok := Call(Renamed);
      if !ok {
        return;
      }
      var target := CorruptName(name, pick.value);
      Commit(disk.(tmp := disk.tmp - {name}, corrupt := disk.corrupt[target := disk.tmp[name]]), Temporary);
      ok := Call(CorruptSynced);
      if ok {
        ok := Call(TemporarySynced);
      }
    }

    /** Start-up: what an interrupted `store` left in the temporary directory is set aside. */
    method Initialize(failing: nat -> bool) returns (r: Status)
      requires Valid() && !ready
      modifies this`disk, this`history, this`events, this`faults, this`deeds, this`ready
      ensures Valid() && disk.data == old(disk.data)
      ensures ready <==> r == Success
      ensures r in {Success, IoError}
      ensures ready ==> disk.tmp == map[]
      ensures (forall k: nat :: !failing(k)) ==> Keeps(old(disk.corrupt), disk.corrupt)
    {
      var rest := disk.tmp.Keys;
      while rest != {}
        invariant Valid() && !ready && disk.data == old(disk.data) && rest == disk.tmp.Keys
        invariant (forall k: nat :: !failing(k)) ==> Keeps(old(disk.corrupt), disk.corrupt)
        decreases |rest|
      {
        var name :| name in rest;
        rest := rest - {name};
        var ok := SetAside(name, failing);
        if !ok {
          return IoError;
        }
      }
      ready := true;
      return Success;
    }
  }

  /** A file is there and can be read. */
  predicate Intact(n: Naming, d: Disk, p: Path) {
    At(d, p).current.Some? && Readable(n, At(d, p).current.value.bytes)
  }

  const TEMPORARY_NAMES: nat := 100

  function TemporaryName(pid: nat, sequence: u64): (name: string) {
    Decimal(pid) + "-" + Decimal(sequence) + ".tmp"
  }

  /** The 64-bit counter, `k` increments later. */
  function Later(sequence: u64, k: nat): (s: u64) {
    if k == 0 then sequence else (Later(sequence, k - 1) + 1) % TWO_64
  }

  /** All the names that would be tried are taken. */
  ghost predicate Crowded(tmp: map<string, File>, temporary: u64 -> string, sequence: u64) {
    forall k :: 1 <= k <= 100 ==> temporary(Later(sequence, k)) in tmp
  }

  /** The capacity test, which cannot overflow. */
  predicate Admits(counted: nat, size: nat, cap: nat) {
    counted <= cap && size <= cap - counted
  }

  /** Nothing already set aside is lost or changed. */
  predicate Keeps(before: map<string, File>, after: map<string, File>) {
    forall name <- before :: name in after && after[name] == before[name]
  }

  const QUARANTINE_NAMES: nat := 1000

  function CorruptName(name: string, k: nat): (s: string) {
    if k == 0 then name else name + "." + Decimal(k)
  }

  /** Which of the names a quarantined file may get exist already. */
  function Taken(name: string, occupied: set<string>): (taken: nat -> bool) {
    (k: nat) => CorruptName(name, k) in occupied
  }

  /** The suffix a quarantined file gets. A probe that reports an error is taken for "absent". */
  function FirstFree(taken: nat -> bool, failing: nat -> bool, k: nat): (r: Option<nat>)
    decreases QUARANTINE_NAMES - k
  {
    if k >= QUARANTINE_NAMES then None
    else if failing(k) || !taken(k) then Some(k)
    else FirstFree(taken, failing, k + 1)
  }

  lemma {:induction false} FirstFreeIsFree(taken: nat -> bool, failing: nat -> bool, k: nat)
    ensures var r := FirstFree(taken, failing, k);
      && (r.Some? ==> k <= r.value < 1000 && (taken(r.value) ==> failing(r.value)))
      && (forall j :: k <= j < (if r.Some? then r.value else 1000) ==> !failing(j) && taken(j))
    decreases QUARANTINE_NAMES - k
  {
    if k < QUARANTINE_NAMES {
      FirstFreeIsFree(taken, failing, k + 1);
    }
  }

  lemma CorruptNameInjective(name: string, i: nat, j: nat)
    requires CorruptName(name, i) == CorruptName(name, j)
    ensures i == j
  {
    if i > 0 && j > 0 {
      var s := CorruptName(name, i);
      assert s[|name| + 1..] == Decimal(i) && s[|name| + 1..] == Decimal(j);
      DecimalInjective(i, j);
    }
  }

  lemma {:induction false} NamesAreMany(name: string, occupied: set<string>, k: nat)
    requires forall j: nat :: j < k ==> CorruptName(name, j) in occupied
    ensures |occupied| >= k
  {
    if k > 0 {
      var last := CorruptName(name, k - 1);
      forall j: nat | j < k - 1 ensures CorruptName(name, j) in occupied - {last} {
        if CorruptName(name, j) == last {
          CorruptNameInjective(name, j, k - 1);
        }
      }
      NamesAreMany(name, occupied - {last}, k - 1);
    }
  }

  /** A corrupt directory of fewer than 1000 files has a name left for every file. */
  lemma RoomForName(name: string, occupied: set<string>, failing: nat -> bool)
    requires |occupied| < 1000
    ensures FirstFree(Taken(name, occupied), failing, 0).Some?
  {
    FirstFreeIsFree(Taken(name, occupied), failing, 0);
    if FirstFree(Taken(name, occupied), failing, 0).None? {
      forall j: nat | j < QUARANTINE_NAMES ensures CorruptName(name, j) in occupied {
        assert Taken(name, occupied)(j);
      }
      NamesAreMany(name, occupied, QUARANTINE_NAMES);
    }
  }

  /** The quarantined file would replace an earlier one. */
  predicate Overwrites(taken: nat -> bool, failing: nat -> bool) {
    var r := FirstFree(taken, failing, 0);
    r.Some? && taken(r.value)
  }

  /**
   Quarantine replaces another file exactly when, after names that are all taken, an
   existence probe reports an error for a name that is taken as well.
   */
  lemma OverwritesExactly(taken: nat -> bool, failing: nat -> bool)
    ensures Overwrites(taken, failing) <==>
      exists k: nat ::
        k < 1000 && failing(k) && taken(k) && forall j: nat :: j < k ==> !failing(j) && taken(j)
  {
    FirstFreeIsFree(taken, failing, 0);
    var r := FirstFree(taken, failing, 0);
    if Overwrites(taken, failing) {
      assert failing(r.value) && taken(r.value);
    }
  }

  /** So "no quarantine overwrites another file" does not hold without a condition. */
  lemma QuarantineCanOverwrite(name: string)
    ensures Overwrites(Taken(name, {name}), _ => true)
  {
  }

  predicate Lowest(p: Path, counted: set<Path>) {
    forall q <- counted {:trigger Below(Native(p), Native(q))} :: Below(Native(p), Native(q))
  }

  /** What a scan reports about the files it counted. */
  ghost predicate Tally(data: map<Path, Slot>, counted: set<Path>, r: ScanResult) {
    && r.Scanned?
    && r.files == |counted| && r.bytes == Sum(data, counted) < TWO_64
    && (r.first.None? <==> counted == {})
    && (r.first.Some? ==> r.first.value in counted && Lowest(r.first.value, counted))
  }

  function Lower(first: Option<Path>, p: Path): (least: Option<Path>) {
    if first.None? || !Below(Native(first.value), Native(p)) then Some(p) else first
  }

  lemma TallyMore(data: map<Path, Slot>, counted: set<Path>, r: ScanResult, p: Path)
    requires Tally(data, counted, r) && p !in counted
    requires r.bytes + SizeAt(data, p) < TWO_64
    ensures Tally(data, counted + {p}, Scanned(r.files + 1, r.bytes + SizeAt(data, p), Lower(r.first, p)))
  {
    SumRemove(data, counted + {p}, p);
    assert counted + {p} - {p} == counted;
    LeastSoFar(counted, r.first, p);
  }

  lemma LeastSoFar(counted: set<Path>, first: Option<Path>, p: Path)
    requires first.Some? ==> first.value in counted && Lowest(first.value, counted)
    ensures Below(Native(p), Native(p))
    ensures first.Some? && !Below(Native(first.value), Native(p)) ==> Lowest(p, counted)
  {
    BelowTotal(Native(p), Native(p));
    if first.Some? && !Below(Native(first.value), Native(p)) {
      BelowTotal(Native(first.value), Native(p));
      forall q <- counted ensures Below(Native(p), Native(q)) {
        BelowTransitive(Native(p), Native(first.value), Native(q));
      }
    }
  }

  lemma OneMore(data: map<Path, Slot>, counted: set<Path>, all: set<Path>, p: Path)
    requires counted <= all && p in all && p !in counted
    ensures Sum(data, counted) + SizeAt(data, p) <= Sum(data, all)
  {
    SumRemove(data, counted + {p}, p);
    assert counted + {p} - {p} == counted;
    SumSplit(data, all, counted + {p});
  }

  /**
   The capacity test protects the cap, for every frame it admits, exactly when no entry's
   status query failed.
   */
  lemma CapKeptExactly(n: Naming, d: Disk, skipped: set<Path>, cap: nat)
    requires Sound(n, d) && skipped <= Present(d.data) && Sum(d.data, Present(d.data) - skipped) < cap
    ensures skipped == {} <==>
      forall size: nat :: size > 0 && Admits(Sum(d.data, Present(d.data) - skipped), size, cap) ==>
        Stored(d.data) + size <= cap
  {
    var seen := Sum(d.data, Present(d.data) - skipped);
    SumSplit(d.data, Present(d.data), skipped);
    if skipped == {} {
      assert Sum(d.data, skipped) == 0;
    } else {
      var p :| p in skipped;
      assert SoundSlot(n, p, At(d, p));
      SumRemove(d.data, skipped, p);
      assert Admits(seen, cap - seen, cap) && Stored(d.data) + (cap - seen) > cap;
    }
  }

  /**
   So the cap does not hold without a condition: on a full spool whose only file was passed
   over, the scan reports what `Scan` may report, the test admits a second frame, and its
   rename takes the spool past the cap.
   */
  lemma CapCanBeExceeded(n: Naming, p: Path, full: seq<byte>, q: Path, more: seq<byte>)
    requires Spells(n, full, p) && Spells(n, more, q) && p != q && |more| <= |full|
    ensures exists d: Disk, r: ScanResult, next: Disk ::
      && Sound(n, d) && Stored(d.data) == |full|
      && Tally(d.data, Present(d.data) - {p}, r) && Admits(r.bytes, |more|, |full|)
      && Step(n, d, Publish("t", q), next) && Stored(next.data) == |full| + |more|
  {
    var d := Disk(map[p := Slot(Some(File(full, true)), {Some(File(full, true))})],
                  map["t" := File(more, true)], map[]);
    var r, next := Scanned(0, 0, None), d.(data := Put(d.data, q, Some(File(more, true))));
    assert forall other: Path :: SoundSlot(n, other, At(d, other));
    assert Present(d.data) == {p};
    SumRemove(d.data, Present(d.data), p);
    assert Present(d.data) - {p} == {} && Sum(d.data, {}) == 0;
    StoredAfterPublish(d.data, q, File(more, true));
    assert Tally(d.data, Present(d.data) - {p}, r) && Step(n, d, Publish("t", q), next);
  }
}
