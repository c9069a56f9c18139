/**
 The collector's two entry points into its durable state: one received ALARM frame, and
 recovery at start-up. These are the concrete operations behind the collector's steps in
 `ReliableChannel`: persist, ingest, remember, and only then answer.
 */
module ReliableCollector {
  import opened Bytes
  import opened MonitorData
  import opened Names
  import opened SpoolDisk
  import opened AlarmSpool
  import opened MonitorStore
  import opened InboxRecovery
  import Wire = AlarmProtocol

  type Frame = Wire.AlarmFrame

  /** The envelope encoder, and the reader of a payload (V2 only). */
  datatype Codec = Codec(encode: Frame -> Wire.Result<seq<byte>>, payload: Frame -> Option<StoredRecord>)

  function IdOf(frame: Frame): (id: Identity) {
    Identity(frame.source, frame.messageId)
  }

  /** The answer echoes the request's identity and time. */
  function AckFor(frame: Frame): (ack: Frame) {
    Wire.AlarmFrame(Wire.ACK, frame.source, frame.messageId, frame.timestampMs, [])
  }

  /** The record a data file carries, with what recovery sorts by. */
  function ItemAt(n: Naming, c: Codec, d: Disk, p: Path): (item: Option<Item>) {
    var file := At(d, p).current;
    if file.None? || !Readable(n, file.value.bytes) then None
    else
      var frame := n.decode(file.value.bytes).value;
      match c.payload(frame)
      case None => None
      case Some(record) => Some(Item(frame.timestampMs, IdOf(frame), record))
  }

  ghost predicate Unambiguous(n: Naming) {
    forall a: Identity, b: Identity :: n.path(a) == n.path(b) ==> a == b
  }

  /** Stored frames read back as they were, and payloads carry values. */
  ghost predicate Lawful(n: Naming, c: Codec) {
    && (forall f: Frame :: c.encode(f).Ok? ==> n.decode(c.encode(f).value) == Wire.Ok(f))
    && (forall f: Frame :: c.payload(f).Some? ==> !c.payload(f).value.data.value.Valueless?)
  }

  predicate NoRepeats<T(==)>(s: seq<T>) {
    forall i, j :: 0 <= i < j < |s| ==> s[i] != s[j]
  }

  /** What a store came to. */
  datatype Attempt = Attempt(status: Status, tale: Tale) {
    predicate Found() {
      status == Success || status == Duplicate
    }
  }

  /** ... and how that goes with what was under the name before. */
  predicate Plausible(attempt: Attempt, before: Slot) {
    && (attempt.status == Success ==> attempt.tale == COMPLETED)
    && (attempt.status == Duplicate ==> before.current.Some?)
    && (attempt.tale.renamed ==> before.current.None? && attempt.status in {Success, IoError})
  }

  // ----- setting files aside -----

  /** The file under `p`, damaged or without a record, is moved away, durably if `synced`. */
  ghost predicate SetsAside(n: Naming, c: Codec, d: Disk, p: Path, synced: bool, next: Disk) {
    && At(d, p).current.Some? && ItemAt(n, c, d, p).None?
    && next.data == SyncedIf(Put(d.data, p, None), p.directory, synced)
  }

  ghost predicate Sweep(n: Naming, c: Codec, d: Disk, next: Disk) {
    next.data == d.data || exists p: Path, synced: bool :: SetsAside(n, c, d, p, synced, next)
  }

  ghost predicate SweepRun(n: Naming, c: Codec, disks: seq<Disk>) {
    |disks| > 0 && forall i :: 0 <= i < |disks| - 1 ==> Sweep(n, c, disks[i], disks[i + 1])
  }

  /** From `d` to `next` nothing happened to the data directory but that such files were set aside. */
  ghost predicate Sweeps(n: Naming, c: Codec, d: Disk, next: Disk) {
    exists disks: seq<Disk> :: SweepRun(n, c, disks) && disks[0] == d && disks[|disks| - 1] == next
  }

  lemma SweepsNothing(n: Naming, c: Codec, d: Disk)
    ensures Sweeps(n, c, d, d)
  {
    assert SweepRun(n, c, [d]) && [d][0] == d;
  }

  lemma SweepsOn(n: Naming, c: Codec, d: Disk, middle: Disk, next: Disk)
    requires Sweeps(n, c, d, middle) && Sweep(n, c, middle, next)
    ensures Sweeps(n, c, d, next)
  {
    var disks: seq<Disk> :| SweepRun(n, c, disks) && disks[0] == d && disks[|disks| - 1] == middle;
    var longer := disks + [next];
    assert SweepRun(n, c, longer) && longer[0] == d && longer[|longer| - 1] == next;
  }

  /** A file with a record keeps its content; the others keep theirs or are gone. */
  lemma {:induction false} SweepsSpare(n: Naming, c: Codec, disks: seq<Disk>, p: Path)
    requires SweepRun(n, c, disks)
    ensures var d, next := disks[0], disks[|disks| - 1];
      && At(next, p).current in {At(d, p).current, None}
      && (ItemAt(n, c, d, p).Some? ==> At(next, p).current == At(d, p).current)
  {
    var k := |disks| - 1;
    if k > 0 {
      SweepsSpare(n, c, disks[..k], p);
      var before, next := disks[k - 1], disks[k];
      assert Sweep(n, c, before, next);
      SameItem(n, c, disks[0], before, p);
    }
  }

  /** A file under this name carries a record. */
  predicate Legible(n: Naming, c: Codec, d: Disk, p: Path) {
    At(d, p).current.Some? ==> ItemAt(n, c, d, p).Some?
  }

  class Collector {
    const spool: Spool
    const codec: Codec
    var records: Records
    var accepted: set<Identity>

    /** The successful ingests of this process, in order. */
    ghost var ingests: seq<Identity>

    /**
     On a disk whose readable files carry the identity their name says, what is accepted is
     in the inbox under its name and was ingested once. A file under a foreign name may bring
     an identity a second time at recovery.
     */
    ghost predicate Valid()
      reads this, spool
    {
      && spool.Valid() && Unambiguous(spool.naming) && Lawful(spool.naming, codec)
      && (forall id :: id in ingests <==> id in accepted)
      && (spool.named ==>
            && NoRepeats(ingests)
            && forall id <- accepted :: At(spool.disk, spool.naming.path(id)).current.Some?)
    }

    constructor (spool: Spool, codec: Codec, records: Records)
      requires spool.Valid() && Unambiguous(spool.naming) && Lawful(spool.naming, codec)
      ensures Valid() && this.spool == spool && this.codec == codec && this.records == records && accepted == {}
    {
      this.spool, this.codec, this.records := spool, codec, records;
      accepted, ingests := {}, [];
    }

    /** Reads the persisted version of an alarm; a damaged file or one without a V2 payload is set aside. */
    method LoadPersisted(p: Path, failing: nat -> bool) returns (record: Option<StoredRecord>)
      requires spool.Valid()
      modifies spool
      ensures spool.Valid()
      ensures record.Some? ==>
        && spool.disk == old(spool.disk)
        && var item := ItemAt(spool.naming, codec, spool.disk, p); item.Some? && item.value.record == record.value
      ensures record.None? && old(spool.ready) && At(old(spool.disk), p).current.Some? ==>
        || spool.faults > old(spool.faults)
        || (ItemAt(spool.naming, codec, old(spool.disk), p).None?
            && (|old(spool.disk.corrupt.Keys)| < QUARANTINE_NAMES ==> At(spool.disk, p).current.None?))
      ensures ItemAt(spool.naming, codec, old(spool.disk), p).Some? ==> spool.disk == old(spool.disk)
      ensures forall q :: q != p ==> At(spool.disk, q).current == At(old(spool.disk), q).current
    {
      if |spool.disk.corrupt.Keys| < QUARANTINE_NAMES {
        RoomForName(p.name, spool.disk.corrupt.Keys, failing);
      }
      var status, bytes;
      ghost var moved;
      status, bytes, moved := spool.Read(p, failing);
      if status != Success {
        return None;
      }
      record := codec.payload(spool.naming.decode(bytes).value);
      if record.None? {
        ghost var target;
        status, target := spool.QuarantineFile(p, failing);
      }
    }

    /** Ingests and remembers; a refusing engine changes nothing. */
    method Take(id: Identity, record: StoredRecord, engineAccepts: bool) returns (ok: bool)
      requires Valid() && !record.data.value.Valueless?
      requires spool.named ==> id !in accepted && At(spool.disk, spool.naming.path(id)).current.Some?
      modifies this
      ensures Valid() && ok == engineAccepts
      ensures ok ==>
        records == Ingest(old(records), record) && accepted == old(accepted) + {id} && ingests == old(ingests) + [id]
      ensures !ok ==> records == old(records) && accepted == old(accepted) && ingests == old(ingests)
    {
      ok := engineAccepts;
      if ok {
        records := Ingest(records, record);
        ingests := ingests + [id];
        accepted := accepted + {id};
      }
    }

    /** Persists a frame, or finds what is persisted under its identity already. */
    method Keep(frame: Frame, failing: nat -> bool)
      returns (durable: Option<StoredRecord>, ghost attempt: Option<Attempt>)
      requires Valid() && IdOf(frame) !in accepted && codec.payload(frame).Some?
      modifies spool
      ensures Valid()
      ensures durable.Some? ==>
        var item := ItemAt(spool.naming, codec, spool.disk, spool.naming.path(IdOf(frame)));
        item.Some? && item.value.record == durable.value && At(spool.disk, spool.naming.path(IdOf(frame))).current.Some?
      ensures attempt.None? <==> codec.encode(frame).Err?
      ensures attempt.None? ==> durable.None? && spool.disk == old(spool.disk)
      ensures attempt.Some? ==>
        && Plausible(attempt.value, At(old(spool.disk), spool.naming.path(IdOf(frame))))
        && (attempt.value.tale.renamed ==> Readable(spool.naming, codec.encode(frame).value))
        && (durable.Some? ==> attempt.value.Found()) && (attempt.value.status == Success ==> durable.Some?)
        && (Legible(spool.naming, codec, old(spool.disk), spool.naming.path(IdOf(frame))) ==>
              spool.disk.data == Told(old(spool.disk.data), spool.naming.path(IdOf(frame)),
                                      File(codec.encode(frame).value, true), attempt.value.tale))
      ensures durable.None? && attempt.Some? ==>
        || !attempt.value.Found() || spool.faults > old(spool.faults)
        || ItemAt(spool.naming, codec, old(spool.disk), spool.naming.path(IdOf(frame))).None?
    {
      var encoded := codec.encode(frame);
      if encoded.Err? {
        return None, None;
      }
      var id := IdOf(frame);
      var p := spool.naming.path(id);
      assert forall other <- accepted :: spool.naming.path(other) != p;
      var status;
      ghost var skipped, tale;
      status, skipped, tale := spool.Store(id, encoded.value);
      attempt := Some(Attempt(status, tale));
      if status == Success {
        return codec.payload(frame), attempt;
      }
      if status == Duplicate {
        durable := LoadPersisted(p, failing);
        return durable, attempt;
      }
      return None, attempt;
    }

    /**
     One ALARM frame. An answer is given only for an alarm that is in the inbox and was
     ingested by this process, and never leads to a second ingest. `attempt` is what became
     of the store, if there was one.
     */
    method ProcessAlarm(frame: Frame, engineAccepts: bool, failing: nat -> bool)
      returns (answer: Option<Frame>, ghost attempt: Option<Attempt>)
      requires Valid()
      modifies this, spool
      ensures Valid()
      ensures answer.None? ==>
        || codec.payload(frame).None? || codec.encode(frame).Err? || !engineAccepts
        || (attempt.Some? && !attempt.value.Found()) || spool.faults > old(spool.faults)
        || ItemAt(spool.naming, codec, old(spool.disk), spool.naming.path(IdOf(frame))).None?
      ensures answer.Some? ==> answer.value == AckFor(frame) && IdOf(frame) in accepted && codec.payload(frame).Some?
      ensures IdOf(frame) in old(accepted) ==>
        records == old(records) && accepted == old(accepted) && ingests == old(ingests) && spool.disk == old(spool.disk)
      ensures IdOf(frame) in old(accepted) ==> (answer.Some? <==> codec.payload(frame).Some?)
      ensures accepted == old(accepted) ==> records == old(records) && ingests == old(ingests)
      ensures accepted != old(accepted) ==>
        && accepted == old(accepted) + {IdOf(frame)} && ingests == old(ingests) + [IdOf(frame)] && answer.Some?
        && var item := ItemAt(spool.naming, codec, spool.disk, spool.naming.path(IdOf(frame)));
           item.Some? && records == Ingest(old(records), item.value.record)
      ensures attempt.Some? <==>
        codec.payload(frame).Some? && codec.encode(frame).Ok? && IdOf(frame) !in old(accepted)
      ensures attempt.None? ==> accepted == old(accepted) && spool.disk == old(spool.disk)
      ensures attempt.Some? ==>
        && Plausible(attempt.value, At(old(spool.disk), spool.naming.path(IdOf(frame))))
        && (attempt.value.tale.renamed ==> Readable(spool.naming, codec.encode(frame).value))
        && (answer.Some? <==> accepted != old(accepted)) && (answer.Some? ==> attempt.value.Found())
        && (Legible(spool.naming, codec, old(spool.disk), spool.naming.path(IdOf(frame))) ==>
              spool.disk.data == Told(old(spool.disk.data), spool.naming.path(IdOf(frame)),
                                      File(codec.encode(frame).value, true), attempt.value.tale))
    {
      if codec.payload(frame).None? {
        return None, None;
      }
      if IdOf(frame) in accepted {
        return Some(AckFor(frame)), None;
      }
      var durable;
      durable, attempt := Keep(frame, failing);
      if durable.None? {
        return None, attempt;
      }
      var ok := Take(IdOf(frame), durable.value, engineAccepts);
      return if ok then Some(AckFor(frame)) else None, attempt;
    }

    /**
     Start-up: reads every file in the order the directory lists them, sorts, ingests. On
     success the Store and the accepted set are those of a sorted arrangement of the records
     the files carry; on a disk with proper names they are what `Recovered` says of the disk,
     whatever the listing. Files that are damaged or carry no V2 record are in quarantine.
     */
    method RecoverInbox(listing: seq<Path>, engineAccepts: nat -> bool, failing: nat -> bool)
      returns (ok: bool, ghost sorted: seq<Item>)
      requires Valid() && accepted == {}
      requires NoRepeats(listing) && forall p :: p in listing <==> p in Present(spool.disk.data)
      modifies this, spool
      ensures Valid()
      ensures ok ==>
        && Arrangement(sorted, Collect(spool.naming, codec, old(spool.disk), listing))
        && records == IngestAll(old(records), sorted)
        && UpToDate(old(records), Collect(spool.naming, codec, old(spool.disk), listing), records)
        && (forall id :: id in accepted <==> exists item <- sorted :: item.id == id)
        && (forall p <- listing :: Recovers(spool.naming, codec, old(spool.disk), spool.disk, p))
      ensures Sweeps(spool.naming, codec, old(spool.disk), spool.disk)
      ensures ok && spool.named ==>
        Sorted(sorted) && Recovered(spool.naming, codec, old(spool.disk), old(records), records, accepted)
      ensures old(spool.ready) && (forall i :: engineAccepts(i)) ==>
        |old(spool.disk.corrupt.Keys)| + |listing| <= QUARANTINE_NAMES ==> ok || spool.faults > old(spool.faults)
    {
      sorted := [];
      var items;
      ok, items := ReadAll(listing, failing);
      if !ok {
        return false, sorted;
      }
      CollectedValues(spool.naming, codec, old(spool.disk), listing);
      var order := Sort(items);
      SameMembers(order, items);
      if spool.named {
        CollectedIds(spool.naming, codec, old(spool.disk), listing);
        SortedArrangement(order, items);
      }
      sorted := order;
      IngestedIsUpToDate(records, items, order);
      ok := IngestSorted(order, engineAccepts);
      if ok && spool.named {
        RecoveredBy(spool.naming, codec, old(spool.disk), listing, old(records), records, accepted, order);
      }
    }

    /** One file of the listing: its record; or nothing, and the file is out of the way. */
    method ReadOne(p: Path, failing: nat -> bool) returns (ok: bool, item: Option<Item>)
      requires spool.Valid() && At(spool.disk, p).current.Some?
      modifies spool
      ensures spool.Valid() && spool.ready == old(spool.ready)
      ensures spool.faults >= old(spool.faults) && |spool.disk.corrupt.Keys| <= |old(spool.disk.corrupt.Keys)| + 1
      ensures ok ==> item == ItemAt(spool.naming, codec, old(spool.disk), p)
      ensures ok ==> Recovers(spool.naming, codec, old(spool.disk), spool.disk, p)
      ensures item.Some? ==> spool.disk == old(spool.disk)
      ensures Sweep(spool.naming, codec, old(spool.disk), spool.disk)
      ensures !ok && spool.ready && |old(spool.disk.corrupt.Keys)| < QUARANTINE_NAMES ==>
        spool.faults > old(spool.faults)
      ensures forall q :: q != p ==> At(spool.disk, q).current == At(old(spool.disk), q).current
    {
      if |spool.disk.corrupt.Keys| < QUARANTINE_NAMES {
        RoomForName(p.name, spool.disk.corrupt.Keys, failing);
      }
      var status, bytes;
      ghost var moved;
      status, bytes, moved := spool.Read(p, failing);
      assert moved ==> SetsAside(spool.naming, codec, old(spool.disk), p, status == Corrupt, spool.disk);
      if status == Corrupt {
        return true, None;
      }
      if status != Success {
        return false, None;
      }
      var frame := spool.naming.decode(bytes).value;
      var record := codec.payload(frame);
      if record.None? {
        ghost var target;
        status, target := spool.QuarantineFile(p, failing);
        assert target.Some? ==> SetsAside(spool.naming, codec, old(spool.disk), p, status == Success, spool.disk);
        return status == Success, None;
      }
      return true, Some(Item(frame.timestampMs, IdOf(frame), record.value));
    }

    /** The next file of a listing; `item` is what the files carried at the `start`. */
    method ReadNext(p: Path, failing: nat -> bool, ghost start: Disk, ghost item: Path -> Option<Item>)
      returns (ok: bool, read: Option<Item>)
      requires spool.Valid() && At(spool.disk, p).current.Some? && At(spool.disk, p).current == At(start, p).current
      requires Describes(spool.naming, codec, start, item)
      modifies spool
      ensures spool.Valid() && spool.ready == old(spool.ready)
      ensures spool.faults >= old(spool.faults) && |spool.disk.corrupt.Keys| <= |old(spool.disk.corrupt.Keys)| + 1
      ensures ok ==> read == item(p) && KeepsIf(item(p).Some?, start, spool.disk, p)
      ensures Sweep(spool.naming, codec, old(spool.disk), spool.disk)
      ensures !ok && spool.ready && |old(spool.disk.corrupt.Keys)| < QUARANTINE_NAMES ==>
        spool.faults > old(spool.faults)
      ensures forall q :: q != p ==> At(spool.disk, q).current == At(old(spool.disk), q).current
    {
      SameItem(spool.naming, codec, start, spool.disk, p);
      ok, read := ReadOne(p, failing);
    }

    /**
     Reads the listed files one after the other; the first that cannot be dealt with ends it.
     `item` is what each file carried at the start.
     */
    method ReadFiles(listing: seq<Path>, failing: nat -> bool, ghost item: Path -> Option<Item>)
      returns (ok: bool, items: seq<Item>)
      requires spool.Valid() && NoRepeats(listing) && forall p <- listing :: At(spool.disk, p).current.Some?
      requires Describes(spool.naming, codec, spool.disk, item)
      modifies spool
      ensures spool.Valid() && spool.ready == old(spool.ready)
      ensures !ok && spool.ready && |old(spool.disk.corrupt.Keys)| + |listing| <= QUARANTINE_NAMES ==>
        spool.faults > old(spool.faults)
      ensures ok ==> items == Gather(item, listing)
      ensures ok ==> forall p <- listing :: KeepsIf(item(p).Some?, old(spool.disk), spool.disk, p)
      ensures Sweeps(spool.naming, codec, old(spool.disk), spool.disk)
    {
      items := [];
      SweepsNothing(spool.naming, codec, spool.disk);
      for i := 0 to |listing|
        invariant spool.Valid() && spool.ready == old(spool.ready) && spool.faults >= old(spool.faults)
        invariant |spool.disk.corrupt.Keys| <= |old(spool.disk.corrupt.Keys)| + i
        invariant items == Gather(item, listing[..i])
        invariant ReadUpTo(item, listing, i, old(spool.disk), spool.disk)
        invariant Sweeps(spool.naming, codec, old(spool.disk), spool.disk)
      {
        ghost var before := spool.disk;
        var read;
        ok, read := ReadNext(listing[i], failing, old(spool.disk), item);
        SweepsOn(spool.naming, codec, old(spool.disk), before, spool.disk);
        if !ok {
          return false, items;
        }
        OneMoreRead(item, listing, i, old(spool.disk), before, spool.disk);
        if read.Some? {
          items := items + [read.value];
        }
      }
      assert listing[..|listing|] == listing;
      ok := true;
    }

    method ReadAll(listing: seq<Path>, failing: nat -> bool) returns (ok: bool, items: seq<Item>)
      requires Valid() && accepted == {}
      requires NoRepeats(listing) && forall p <- listing :: At(spool.disk, p).current.Some?
      modifies spool
      ensures Valid() && spool.ready == old(spool.ready)
      ensures !ok && spool.ready && |old(spool.disk.corrupt.Keys)| + |listing| <= QUARANTINE_NAMES ==>
        spool.faults > old(spool.faults)
      ensures ok ==> items == Collect(spool.naming, codec, old(spool.disk), listing)
      ensures ok ==> forall p <- listing :: Recovers(spool.naming, codec, old(spool.disk), spool.disk, p)
      ensures ok && spool.named ==> forall item <- items :: At(spool.disk, spool.naming.path(item.id)).current.Some?
      ensures Sweeps(spool.naming, codec, old(spool.disk), spool.disk)
    {
      ghost var n, c, before := spool.naming, codec, spool.disk;
      ghost var item := (p: Path) => ItemAt(n, c, before, p);
      ok, items := ReadFiles(listing, failing, item);
      if ok {
        GatherIsCollect(n, c, before, listing, item);
        if spool.named {
          ItemsInPlace(n, c, before, spool.disk, listing);
        }
      }
    }

    method IngestSorted(order: seq<Item>, engineAccepts: nat -> bool) returns (ok: bool)
      requires Valid() && accepted == {}
      requires spool.named ==>
        DistinctIds(order) && forall item <- order :: At(spool.disk, spool.naming.path(item.id)).current.Some?
      requires forall item <- order :: !item.record.data.value.Valueless?
      modifies this
      ensures Valid() && ((forall i :: engineAccepts(i)) ==> ok)
      ensures ok ==> records == IngestAll(old(records), order)
      ensures ok ==> forall id :: id in accepted <==> exists item <- order :: item.id == id
    {
      for i := 0 to |order|
        invariant Valid() && records == IngestAll(old(records), order[..i])
        invariant forall id :: id in accepted <==> exists j :: 0 <= j < i && order[j].id == id
      {
        assert order[..i + 1][..i] == order[..i];
        ok := Take(order[i].id, order[i].record, engineAccepts(i));
        if !ok {
          return false;
        }
      }
      assert order[..|order|] == order;
      ok := true;
    }
  }

  /** What the listed files carry, in listing order. */
  function Collect(n: Naming, c: Codec, d: Disk, listing: seq<Path>): (items: seq<Item>) {
    if |listing| == 0 then []
    else
      var item := ItemAt(n, c, d, listing[|listing| - 1]);
      Collect(n, c, d, listing[..|listing| - 1]) + (if item.Some? then [item.value] else [])
  }

  predicate KeepsIf(kept: bool, before: Disk, after: Disk, p: Path) {
    At(after, p).current == if kept then At(before, p).current else None
  }

  /** A file with a record stays; one without is gone. */
  predicate Recovers(n: Naming, c: Codec, before: Disk, after: Disk, p: Path) {
    KeepsIf(ItemAt(n, c, before, p).Some?, before, after, p)
  }

  lemma SameItem(n: Naming, c: Codec, d: Disk, next: Disk, p: Path)
    ensures At(d, p).current == At(next, p).current ==> ItemAt(n, c, d, p) == ItemAt(n, c, next, p)
  {
  }

  /** What each file of a disk carries. */
  ghost predicate Describes(n: Naming, c: Codec, d: Disk, item: Path -> Option<Item>) {
    forall p: Path {:trigger ItemAt(n, c, d, p)} :: item(p) == ItemAt(n, c, d, p)
  }

  function Gather(item: Path -> Option<Item>, listing: seq<Path>): (items: seq<Item>) {
    if |listing| == 0 then []
    else
      var last := item(listing[|listing| - 1]);
      Gather(item, listing[..|listing| - 1]) + (if last.Some? then [last.value] else [])
  }

  /** The files before `i` have been dealt with, the others are as they were. */
  ghost predicate ReadUpTo(item: Path -> Option<Item>, listing: seq<Path>, i: nat, start: Disk, now: Disk) {
    && i <= |listing|
    && (forall j :: i <= j < |listing| ==> At(now, listing[j]).current == At(start, listing[j]).current)
    && (forall j :: 0 <= j < i ==> KeepsIf(item(listing[j]).Some?, start, now, listing[j]))
  }

  lemma OneMoreRead(item: Path -> Option<Item>, listing: seq<Path>, i: nat, start: Disk, before: Disk, now: Disk)
    requires NoRepeats(listing) && i < |listing| && ReadUpTo(item, listing, i, start, before)
    requires KeepsIf(item(listing[i]).Some?, start, now, listing[i])
    requires forall q :: q != listing[i] ==> At(now, q).current == At(before, q).current
    ensures ReadUpTo(item, listing, i + 1, start, now)
    ensures Gather(item, listing[..i + 1]) ==
      Gather(item, listing[..i]) + (if item(listing[i]).Some? then [item(listing[i]).value] else [])
  {
    assert listing[..i + 1][..i] == listing[..i];
  }

  lemma {:induction false} GatherIsCollect(n: Naming, c: Codec, d: Disk, listing: seq<Path>, item: Path -> Option<Item>)
    requires forall p: Path :: item(p) == ItemAt(n, c, d, p)
    ensures Gather(item, listing) == Collect(n, c, d, listing)
  {
    if |listing| > 0 {
      GatherIsCollect(n, c, d, listing[..|listing| - 1], item);
    }
  }

  lemma {:induction false} CollectExactly(n: Naming, c: Codec, d: Disk, listing: seq<Path>, item: Item)
    ensures item in Collect(n, c, d, listing) <==> exists p <- listing :: ItemAt(n, c, d, p) == Some(item)
  {
    if |listing| > 0 {
      var front, p := listing[..|listing| - 1], listing[|listing| - 1];
      CollectExactly(n, c, d, front, item);
      assert listing == front + [p];
    }
  }

  ghost predicate Carried(n: Naming, c: Codec, d: Disk, item: Item) {
    exists p: Path :: p in Present(d.data) && ItemAt(n, c, d, p) == Some(item)
  }

  /** All the records the disk's files carry, in order. */
  ghost predicate InOrder(n: Naming, c: Codec, d: Disk, sorted: seq<Item>) {
    Sorted(sorted) && forall item: Item :: item in sorted <==> Carried(n, c, d, item)
  }

  ghost predicate IngestedFrom(before: Records, records: Records, accepted: set<Identity>, sorted: seq<Item>) {
    && records == IngestAll(before, sorted)
    && forall id: Identity :: id in accepted <==> exists item <- sorted :: item.id == id
  }

  /**
   What recovery makes of a disk, without a word about listings: the records its files carry,
   ingested in the one order there is.
   */
  ghost predicate Recovered(n: Naming, c: Codec, d: Disk, before: Records, records: Records, accepted: set<Identity>) {
    exists sorted: seq<Item> :: InOrder(n, c, d, sorted) && IngestedFrom(before, records, accepted, sorted)
  }

  lemma RecoveredBy(n: Naming, c: Codec, d: Disk, listing: seq<Path>, before: Records, records: Records,
                    accepted: set<Identity>, sorted: seq<Item>)
    requires (forall p :: p in listing <==> p in Present(d.data)) && SameElements(sorted, Collect(n, c, d, listing))
    requires Sorted(sorted) && records == IngestAll(before, sorted)
    requires forall id: Identity :: id in accepted <==> exists item <- sorted :: item.id == id
    ensures Recovered(n, c, d, before, records, accepted)
  {
    forall item: Item ensures item in sorted <==> Carried(n, c, d, item) {
      CollectExactly(n, c, d, listing, item);
    }
    assert InOrder(n, c, d, sorted) && IngestedFrom(before, records, accepted, sorted);
  }

  /** Two recoveries of one disk, whatever their listings, end with one Store and one accepted set. */
  lemma RecoveryIgnoresListing(n: Naming, c: Codec, d: Disk, before: Records, recordsA: Records,
                               acceptedA: set<Identity>,
                               recordsB: Records, acceptedB: set<Identity>)
    requires Recovered(n, c, d, before, recordsA, acceptedA) && Recovered(n, c, d, before, recordsB, acceptedB)
    ensures recordsA == recordsB && acceptedA == acceptedB
  {
    var a: seq<Item> :| InOrder(n, c, d, a) && IngestedFrom(before, recordsA, acceptedA, a);
    var b: seq<Item> :| InOrder(n, c, d, b) && IngestedFrom(before, recordsB, acceptedB, b);
    OneOrderOfFiles(n, c, d, a, b);
    assert acceptedA == acceptedB;
  }

  lemma OneOrderOfFiles(n: Naming, c: Codec, d: Disk, a: seq<Item>, b: seq<Item>)
    requires InOrder(n, c, d, a) && InOrder(n, c, d, b)
    ensures a == b
  {
    SortedIsUnique(a, b);
  }

  /** On a well-named disk each item comes from the file its identity names, so identities are distinct. */
  lemma {:induction false} CollectedIds(n: Naming, c: Codec, d: Disk, listing: seq<Path>)
    requires Named(n, d) && NoRepeats(listing)
    ensures forall item <- Collect(n, c, d, listing) ::
      n.path(item.id) in listing && ItemAt(n, c, d, n.path(item.id)) == Some(item)
    ensures DistinctIds(Collect(n, c, d, listing))
  {
    if |listing| > 0 {
      var front, p := listing[..|listing| - 1], listing[|listing| - 1];
      CollectedIds(n, c, d, front);
      assert NamedSlot(n, p, At(d, p));
      assert ItemAt(n, c, d, p).Some? ==> n.path(ItemAt(n, c, d, p).value.id) == p;
      assert p !in front;
    }
  }

  lemma ItemsInPlace(n: Naming, c: Codec, before: Disk, after: Disk, listing: seq<Path>)
    requires Named(n, before) && NoRepeats(listing) && forall p <- listing :: Recovers(n, c, before, after, p)
    ensures forall item <- Collect(n, c, before, listing) :: At(after, n.path(item.id)).current.Some?
  {
    CollectedIds(n, c, before, listing);
    forall item <- Collect(n, c, before, listing) ensures At(after, n.path(item.id)).current.Some? {
      assert Recovers(n, c, before, after, n.path(item.id));
    }
  }

  lemma {:induction false} CollectedValues(n: Naming, c: Codec, d: Disk, listing: seq<Path>)
    requires Lawful(n, c)
    ensures forall item <- Collect(n, c, d, listing) :: !item.record.data.value.Valueless?
  {
    if |listing| > 0 {
      CollectedValues(n, c, d, listing[..|listing| - 1]);
    }
  }
}
