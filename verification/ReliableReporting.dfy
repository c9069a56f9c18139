/**
 The write-ahead gate end to end: a Store whose sink is the publisher's outbox. What becomes
 visible in the Store was durable in the outbox first, as a frame from which the collector
 reads exactly the committed record.
 */
module ReliableReporting {
  import opened Bytes
  import opened MonitorData
  import opened SpoolDisk
  import opened MonitorStore
  import opened ReliablePublisher
  import Wire = AlarmProtocol

  /** What the collector reads in a file: the envelope, then its payload. */
  function Reading(bytes: seq<byte>): (record: Option<StoredRecord>) {
    match Wire.Decode(bytes)
    case Err(_) => None
    case Ok(frame) => ReliablePayload(frame)
  }

  /** A settled outbox file that reads as this record. */
  ghost predicate Carries(reader: seq<byte> -> Option<StoredRecord>, d: Disk, p: Path, record: StoredRecord) {
    exists bytes: seq<byte> :: Settled(At(d, p), bytes) && reader(bytes) == Some(record)
  }

  class Reporter {
    const source: u64
    const publisher: Publisher
    const known: (u32, u32) -> Option<ErrorInfo>
    var records: Records

    /** The collector's reader. */
    ghost const reader: seq<byte> -> Option<StoredRecord>

    ghost predicate Valid()
      reads publisher.spool
    {
      && publisher.spool.Valid()
      && (forall r: StoredRecord :: publisher.draft(r) == Draft(source, r))
      && (forall f: Frame :: publisher.encode(f) == Wire.Encode(f))
      && (forall bytes: seq<byte> {:trigger Reading(bytes)} :: reader(bytes) == Reading(bytes))
    }

    constructor (source: u64, publisher: Publisher, known: (u32, u32) -> Option<ErrorInfo>)
      requires publisher.spool.Valid()
      requires forall r: StoredRecord :: publisher.draft(r) == Draft(source, r)
      requires forall f: Frame :: publisher.encode(f) == Wire.Encode(f)
      ensures Valid() && records == map[] && this.publisher == publisher && reader == Reading
    {
      this.source, this.publisher, this.known, records := source, publisher, known, map[];
      reader := Reading;
    }

    /** The sink: a record is durable once its frame is settled in the outbox. */
    method MakeDurable(record: StoredRecord, ids: nat -> Option<Wire.MessageId>)
      returns (ok: bool, ghost file: Option<Path>)
      requires Valid()
      modifies publisher.spool
      ensures Valid() && publisher.Unharmed(old(publisher.spool.disk))
      ensures ok ==>
        && file.Some? && At(old(publisher.spool.disk), file.value).current == None
        && Carries(reader, publisher.spool.disk, file.value, record)
    {
      file := None;
      var status;
      ghost var stored, last, tale, tried;
      status, stored, last, tale, tried := publisher.Enqueue(record, ids);
      ok := status == Stored;
      if stored.Some? {
        EnqueuedIsReadable(source, record, stored.value.messageId);
        assert Reading(Wire.Encode(stored.value).value) == Some(record);
        file := Some(publisher.spool.naming.path(Collector.IdOf(stored.value)));
      }
    }

    /**
     Commits only what the outbox holds durably. A failed report changes no key and harms no
     file that was there.
     */
    method ReportError(key: Key, value: u32, description: seq<byte>, at: i64, ids: nat -> Option<Wire.MessageId>)
      returns (r: UpdateResult, ghost file: Option<Path>)
      requires Valid()
      modifies this, publisher.spool
      ensures Valid() && publisher.Unharmed(old(publisher.spool.disk))
      ensures r.status in {Inserted, Updated} <==> records != old(records)
      ensures r.status in {Inserted, Updated} ==>
        && file.Some?
        && r.record == Some(StoredRecord(Enriched(known, key, description, Numeric(value, 2)), at))
        && records == old(records)[r.record.value.data.key := r.record.value]
        && At(old(publisher.spool.disk), file.value).current == None
        && Carries(reader, publisher.spool.disk, file.value, r.record.value)
      ensures r.status in {Inserted, Updated, Unchanged, DurabilityFailed}
      ensures r.status == Unchanged <==>
        var k := Enriched(known, key, description, Numeric(value, 2)).key;
        && k in old(records) && old(records)[k].data.value.Numeric?
        && old(records)[k].data.value.value == value
      ensures r.status == Inserted ==> r.record.value.data.key !in old(records)
      ensures r.status == Updated ==> r.record.value.data.key in old(records)
      ensures r.status == Unchanged ==> publisher.spool.disk == old(publisher.spool.disk)
    {
      file := None;
      var data := Enriched(known, key, description, Numeric(value, ERROR_STATE));
      var d := Decide(records, data, true, at);
      if d.Ignore? {
        return d.result, file;
      }
      var durable;
      durable, file := MakeDurable(d.candidate, ids);
      records := Applied(records, d, durable);
      return Answer(d, durable), file;
    }
  }
}
