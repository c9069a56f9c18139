/**
 The publisher's side of the channel: `enqueue` turns a record into a stored frame, and the
 worker removes a file only for a matching answer. `EnqueuedIsReadable` ties both wire
 formats together: the collector's payload check accepts whatever `enqueue` produced.
 */
module ReliablePublisher {
  import opened Bytes
  import opened MonitorData
  import opened Names
  import opened SpoolDisk
  import opened AlarmSpool
  import Collector = ReliableCollector
  import MonitorWire
  import Stream = AlarmStreamDecoder
  import Wire = AlarmProtocol

  type Frame = Wire.AlarmFrame

  const NANOSECONDS_PER_MILLISECOND: i64 := 1_000_000
  const MESSAGE_ID_ATTEMPTS: nat := 4

  // ----- frames -----

  /** Times before the epoch have no representation. */
  function Milliseconds(changedAt: i64): (r: Option<u64>)
    ensures r.Some? <==> changedAt >= 0
    ensures r.Some? ==> r.value * 1_000_000 <= changedAt < (r.value + 1) * 1_000_000
  {
    if changedAt < 0 then None else Some(changedAt / NANOSECONDS_PER_MILLISECOND)
  }

  const NO_ID: Wire.MessageId := [0, 0, 0, 0, 0, 0, 0, 0, 0, 0, 0, 0, 0, 0, 0, 0]

  /** The frame of a record, before an id is drawn for it. */
  function Draft(source: u64, record: StoredRecord): (r: Option<Frame>) {
    var payload := MonitorWire.EncodeV2(record);
    var timestamp := Milliseconds(record.changedAt);
    if payload.Err? || timestamp.None? then None
    else Some(Wire.AlarmFrame(Wire.ALARM, source, NO_ID, timestamp.value, payload.value))
  }

  /** The collector reads V2 payloads only. */
  function ReliablePayload(frame: Frame): (r: Option<StoredRecord>)
    ensures r.Some? <==> frame.kind == 1 && MonitorWire.DecodeV2(frame.payload).Ok?
    ensures r.Some? ==> MonitorWire.DecodeV2(frame.payload) == MonitorWire.Ok(r.value)
  {
    if frame.kind != Wire.ALARM || frame.payload == [] then None
    else
      match MonitorWire.DecodeV2(frame.payload)
      case Err(_) => None
      case Ok(record) => Some(record)
  }

  const REAL: Collector.Codec := Collector.Codec(Wire.Encode, ReliablePayload)

  /** What `enqueue` makes of a record is a legal frame, and the collector reads the record back. */
  lemma EnqueuedIsReadable(source: u64, record: StoredRecord, messageId: Wire.MessageId)
    ensures Draft(source, record).Some? <==> MonitorWire.Encodable(record) && record.changedAt >= 0
    ensures Draft(source, record).Some? ==>
      var frame := Draft(source, record).value.(messageId := messageId);
      && Wire.Legal(frame) && Wire.Decode(Wire.Encode(frame).value) == Wire.Ok(frame)
      && frame.kind == Wire.ALARM && Collector.IdOf(frame) == Identity(source, messageId)
      && frame.timestampMs * 1_000_000 <= record.changedAt < (frame.timestampMs + 1) * 1_000_000
      && ReliablePayload(frame) == Some(record)
  {
    var r := Draft(source, record);
    if r.Some? {
      MonitorWire.DecodeEncodeV2(record);
      Wire.DecodeEncode(r.value.(messageId := messageId));
    }
  }

  /** What recovery reads from the file of an enqueued record: the record, its identity and its millisecond. */
  lemma EnqueuedIsRecovered(source: u64, record: StoredRecord, messageId: Wire.MessageId, d: Disk, p: Path)
    requires Draft(source, record).Some? && At(d, p).current.Some?
    requires Wire.Encode(Draft(source, record).value.(messageId := messageId)) == Wire.Ok(At(d, p).current.value.bytes)
    ensures var item := Collector.ItemAt(INBOX, REAL, d, p);
      && item.Some? && item.value.record == record && item.value.id == Identity(source, messageId)
      && item.value.timestampMs * 1_000_000 <= record.changedAt < (item.value.timestampMs + 1) * 1_000_000
  {
    EnqueuedIsReadable(source, record, messageId);
  }

  /** The real envelope and payload formats meet what the collector's proofs ask for. */
  lemma RealFormatsAreLawful()
    ensures Collector.Lawful(INBOX, REAL) && Collector.Unambiguous(INBOX) && Collector.Unambiguous(OUTBOX)
  {
    forall f: Frame | Wire.Encode(f).Ok? ensures Wire.Decode(Wire.Encode(f).value) == Wire.Ok(f) {
      Wire.DecodeEncode(f);
    }
    forall a: Identity, b: Identity | InboxPath(a) == InboxPath(b) ensures a == b {
      PathsInjective(a, b);
    }
    forall a: Identity, b: Identity | OutboxPath(a) == OutboxPath(b) ensures a == b {
      PathsInjective(a, b);
    }
  }

  // ----- receiving an answer -----

  /** Collects exactly `size` bytes, in whatever pieces they arrive. */
  method ReceiveAll(stream: seq<byte>, offset: nat, size: nat) returns (r: Option<seq<byte>>)
    requires offset <= |stream|
    ensures r == if offset + size <= |stream| then Some(stream[offset..offset + size]) else None
  {
    var got := 0;
    while got < size
      invariant 0 <= got <= size && offset + got <= |stream|
    {
      if offset + got == |stream| {
        return None;
      }
      var piece: int := *;
      if piece < 1 || piece > size - got || piece > |stream| - offset - got {
        piece := 1;
      }
      got := got + piece;
    }
    return Some(stream[offset..offset + size]);
  }

  /** Header first, then as much payload as it announces: the first frame of the stream or nothing. */
  method ReceiveFrame(c: Stream.Codec, stream: seq<byte>) returns (r: Option<Frame>)
    requires Stream.Sized(c)
    ensures var front := Stream.FrontOf(c, stream); r == if front.Whole? then Some(front.frame) else None
  {
    var header := ReceiveAll(stream, 0, Stream.HEADER);
    if header.None? {
      return None;
    }
    assert header.value == stream[..Stream.HEADER];
    var announced := c.size(header.value);
    if announced.Err? {
      return None;
    }
    var payload := ReceiveAll(stream, Stream.HEADER, announced.value - Stream.HEADER);
    if payload.None? {
      return None;
    }
    assert header.value + payload.value == stream[..announced.value];
    var decoded := c.decode(header.value + payload.value);
    return if decoded.Ok? then Some(decoded.value) else None;
  }

  predicate Matches(ack: Frame, sent: Frame) {
    ack.kind == Wire.ACK && ack.source == sent.source && ack.messageId == sent.messageId
  }

  /** The collector's answer travels, and matches frames of the identity it answers and no others. */
  lemma AnswerMatchesItsFrame(frame: Frame, other: Frame)
    ensures var ack := Collector.AckFor(frame);
      && Wire.Legal(ack) && Wire.Decode(Wire.Encode(ack).value) == Wire.Ok(ack)
      && (Matches(ack, other) <==> Collector.IdOf(frame) == Collector.IdOf(other))
  {
    Wire.DecodeEncode(Collector.AckFor(frame));
  }

  // ----- the object -----

  datatype EnqueueStatus = Stored | Unready | EncodeFailed | RandomFailed | SpoolFull | IoFailed

  function MapStatus(s: Status): (r: EnqueueStatus) {
    match s
    case Success => Stored
    case Full => SpoolFull
    case NotReady => Unready
    case Duplicate => RandomFailed
    case InvalidArgument | InvalidFrame => EncodeFailed
    case Empty | NotFound | Corrupt | IoError => IoFailed
  }

  class Publisher {
    const spool: Spool
    const draft: StoredRecord -> Option<Frame>
    const encode: Frame -> Wire.Result<seq<byte>>

    constructor (spool: Spool, draft: StoredRecord -> Option<Frame>, encode: Frame -> Wire.Result<seq<byte>>)
      ensures this.spool == spool && this.draft == draft && this.encode == encode
    {
      this.spool, this.draft, this.encode := spool, draft, encode;
    }

    /** No data file that was there has changed. */
    ghost predicate Unharmed(before: Disk)
      reads spool
    {
      forall q :: At(before, q).current.Some? ==> At(spool.disk, q).current == At(before, q).current
    }

    /** The place of a frame's file. */
    ghost function Place(frame: Frame): (p: Path) {
      spool.naming.path(Collector.IdOf(frame))
    }

    /** The data directory is what the store of this frame made of it. */
    ghost predicate Outcome(before: Disk, frame: Frame, tale: Tale)
      reads spool
    {
      && encode(frame).Ok?
      && spool.disk.data == Told(before.data, Place(frame), File(encode(frame).value, true), tale)
      && (tale.renamed ==> At(before, Place(frame)).current == None && Readable(spool.naming, encode(frame).value))
    }

    /** The same of a frame made from the record. */
    ghost predicate LastStore(before: Disk, record: StoredRecord, id: Option<Wire.MessageId>, frame: Frame, tale: Tale)
      reads spool
    {
      && draft(record).Some? && id.Some? && frame == draft(record).value.(messageId := id.value)
      && Outcome(before, frame, tale)
    }

    /** The file the `k`-th message id names is there. */
    ghost predicate Collides(before: Disk, record: StoredRecord, ids: nat -> Option<Wire.MessageId>, k: nat) {
      && draft(record).Some? && ids(k).Some?
      && At(before, Place(draft(record).value.(messageId := ids(k).value))).current.Some?
    }

    /** It is the `k`-th id that is tried last: those before it are taken. */
    ghost predicate Reached(before: Disk, record: StoredRecord, ids: nat -> Option<Wire.MessageId>, k: nat) {
      forall j :: 0 <= j < k ==> Collides(before, record, ids, j)
    }

    /** The frame cannot be stored: it has no encoding or its name does not fit. */
    ghost predicate Unfit(frame: Frame) {
      encode(frame).Err? || Refusal(spool.naming, Collector.IdOf(frame), encode(frame).value).Some?
    }

    /** One attempt to store a frame; `again` if its file is there. */
    method Offer(message: Frame) returns (r: EnqueueStatus, again: bool, ghost tale: Tale)
      requires spool.Valid()
      modifies spool
      ensures spool.Valid() && Unharmed(old(spool.disk)) && spool.faults >= old(spool.faults)
      ensures spool.ready == old(spool.ready) && (r == Unready <==> !spool.ready && encode(message).Ok?)
      ensures r in {Stored, EncodeFailed, SpoolFull, IoFailed, Unready} <==> !again
      ensures again ==> At(old(spool.disk), Place(message)).current.Some? && spool.sequence == old(spool.sequence)
      ensures again || r in {EncodeFailed, Unready} ==> spool.disk == old(spool.disk)
      ensures !again && r != Unready ==> (r == EncodeFailed <==> Unfit(message))
      ensures r == SpoolFull && spool.faults == old(spool.faults) ==>
        && spool.maxBytes != 0
        && SpoolDisk.Stored(old(spool.disk.data)) + |encode(message).value| > spool.maxBytes
      ensures r == IoFailed ==>
        || spool.faults > old(spool.faults) || SpoolDisk.Stored(old(spool.disk.data)) >= TWO_64
        || Crowded(old(spool.disk.tmp), spool.temporary, old(spool.sequence))
      ensures r == Stored ==>
        && SpoolDisk.Settled(At(spool.disk, Place(message)), encode(message).value)
        && At(old(spool.disk), Place(message)).current == None && tale == COMPLETED
      ensures !again && r !in {EncodeFailed, Unready} ==> Outcome(old(spool.disk), message, tale)
    {
      tale := NOT_RENAMED;
      if encode(message).Err? {
        return EncodeFailed, false, tale;
      }
      var status;
      ghost var skipped;
      status, skipped, tale := spool.Store(Collector.IdOf(message), encode(message).value);
      return MapStatus(status), status == Duplicate, tale;
    }

    /**
     Persists a record under a fresh message id; `ids` are the numbers the random source
     yields, a failure of it included. Stored means that no power loss can take the frame away.
     `last` is the frame of the last store that was tried, `tale` what became of it; `tried` ids
     were taken.
     */
    method Enqueue(record: StoredRecord, ids: nat -> Option<Wire.MessageId>)
      returns (r: EnqueueStatus, ghost stored: Option<Frame>, ghost last: Option<Frame>, ghost tale: Tale,
               ghost tried: nat)
      requires spool.Valid()
      modifies spool
      ensures spool.Valid() && Unharmed(old(spool.disk))
      ensures r == Unready <==> !spool.ready
      ensures spool.ready && draft(record).None? ==> r == EncodeFailed
      ensures r == EncodeFailed && draft(record).Some? ==>
        tried < 4 && ids(tried).Some? && Unfit(draft(record).value.(messageId := ids(tried).value))
      ensures tried <= 4 && Reached(old(spool.disk), record, ids, tried)
      ensures r == RandomFailed ==> tried == 4 || ids(tried).None?
      ensures r == SpoolFull && spool.faults == old(spool.faults) ==>
        && last.Some? && encode(last.value).Ok? && spool.maxBytes != 0
        && SpoolDisk.Stored(old(spool.disk.data)) + |encode(last.value).value| > spool.maxBytes
      ensures r == Stored <==> stored.Some?
      ensures r == IoFailed ==>
        || spool.faults > old(spool.faults) || SpoolDisk.Stored(old(spool.disk.data)) >= TWO_64
        || Crowded(old(spool.disk.tmp), spool.temporary, old(spool.sequence))
      ensures stored.Some? ==>
        && draft(record).Some?
        && tried < 4 && ids(tried).Some? && stored.value == draft(record).value.(messageId := ids(tried).value)
        && encode(stored.value).Ok?
        && SpoolDisk.Settled(At(spool.disk, Place(stored.value)), encode(stored.value).value)
        && At(old(spool.disk), Place(stored.value)).current == None
      ensures stored.Some? ==> last == stored && tale == COMPLETED
      ensures if last.None? then spool.disk.data == old(spool.disk.data)
              else tried < 4 && LastStore(old(spool.disk), record, ids(tried), last.value, tale)
    {
      stored, last, tale, tried := None, None, NOT_RENAMED, 0;
      if !spool.ready {
        return Unready, stored, last, tale, tried;
      }
      var frame := draft(record);
      if frame.None? {
        return EncodeFailed, stored, last, tale, tried;
      }
      var attempt := 0;
      while attempt < MESSAGE_ID_ATTEMPTS
        invariant spool.Valid() && spool.ready && spool.disk == old(spool.disk)
        invariant spool.faults >= old(spool.faults) && spool.sequence == old(spool.sequence)
        invariant tried == attempt <= 4 && Reached(old(spool.disk), record, ids, tried)
      {
        if ids(attempt).None? {
          return RandomFailed, stored, last, tale, tried;
        }
        var message := frame.value.(messageId := ids(attempt).value);
        var again;
        r, again, tale := Offer(message);
        if !again {
          last := if r == EncodeFailed then None else Some(message);
          stored := if r == Stored then last else None;
          return;
        }
        attempt, tried := attempt + 1, tried + 1;
      }
      return RandomFailed, stored, last, tale, tried;
    }

    /**
     Reads the picked file and sends it if there is a connection. A damaged file is moved away:
     `moved` from its name, and `synced` if its directory was.
     */
    method Fetch(p: Path, connected: bool, failing: nat -> bool)
      returns (sent: Option<seq<byte>>, ghost moved: bool, ghost synced: bool)
      requires spool.Valid()
      modifies spool
      ensures spool.Valid() && spool.faults >= old(spool.faults) && spool.ready == old(spool.ready)
      ensures sent.Some? ==>
        && At(spool.disk, p).current.Some? && At(spool.disk, p).current.value.bytes == sent.value
        && Readable(spool.naming, sent.value)
      ensures sent.Some? || Intact(spool.naming, old(spool.disk), p) ==> spool.disk == old(spool.disk)
      ensures spool.ready && connected && sent.None? ==>
        spool.faults > old(spool.faults) || !Intact(spool.naming, old(spool.disk), p)
      ensures spool.ready && At(old(spool.disk), p).current.Some? && !Intact(spool.naming, old(spool.disk), p) ==>
        || At(spool.disk, p) == VACANT || spool.faults > old(spool.faults)
        || FirstFree(Taken(p.name, old(spool.disk.corrupt.Keys)), failing, 0).None?
      ensures moved ==> !Intact(spool.naming, old(spool.disk), p)
      ensures synced ==> moved
      ensures spool.disk.data == After(old(spool.disk.data), p, moved, synced)
    {
      var status, bytes;
      status, bytes, moved := spool.Read(p, failing);
      synced := status == Corrupt;
      sent := if status == Success && connected then Some(bytes) else None;
    }

    /** What came back decides: a matching answer lets the file be removed. */
    method Conclude(p: Path, bytes: seq<byte>, answer: Option<Frame>) returns (ghost unlinked: bool, ghost synced: bool)
      requires spool.Valid() && spool.naming.decode(bytes).Ok?
      modifies spool
      ensures spool.Valid() && spool.faults >= old(spool.faults)
      ensures unlinked ==> answer.Some? && Matches(answer.value, spool.naming.decode(bytes).value)
      ensures unlinked ==>
        answer.value.kind == 2 && Collector.IdOf(answer.value) == Collector.IdOf(spool.naming.decode(bytes).value)
      ensures old(spool.ready) && At(old(spool.disk), p).current.Some? ==>
        answer.Some? && Matches(answer.value, spool.naming.decode(bytes).value) ==>
          At(spool.disk, p) == VACANT || spool.faults > old(spool.faults)
      ensures synced ==> unlinked
      ensures spool.disk.data == After(old(spool.disk.data), p, unlinked, synced)
    {
      unlinked, synced := false, false;
      if answer.Some? && Matches(answer.value, spool.naming.decode(bytes).value) {
        var status;
        status, unlinked := spool.Remove(p);
        synced := status == Success;
      }
    }

    /**
     One round of the worker: send the first file, wait for an answer, remove on a match; a
     damaged first file is moved away. `answer` is what came back on the connection, if
     anything did. `gone`: the file has left its name.
     */
    method RunIteration(connected: bool, answer: Option<Frame>, failing: nat -> bool)
      returns (sent: Option<seq<byte>>, ghost from: Option<Path>, ghost gone: bool, ghost synced: bool)
      requires spool.Valid()
      modifies spool
      ensures spool.Valid() && spool.faults >= old(spool.faults)
      ensures from.Some? && spool.faults == old(spool.faults) ==> Lowest(from.value, Present(old(spool.disk.data)))
      ensures sent.Some? ==>
        && from.Some? && from.value in Present(old(spool.disk.data))
        && At(old(spool.disk), from.value).current.value.bytes == sent.value && Readable(spool.naming, sent.value)
      ensures spool.ready && connected && Present(old(spool.disk.data)) != {} && sent.None? ==>
        || spool.faults > old(spool.faults) || SpoolDisk.Stored(old(spool.disk.data)) >= TWO_64
        || (from.Some? && !Intact(spool.naming, old(spool.disk), from.value))
      ensures forall q :: At(spool.disk, q).current != At(old(spool.disk), q).current ==>
        && from == Some(q)
        && (!Intact(spool.naming, old(spool.disk), q)
            || (sent.Some? && answer.Some? && Matches(answer.value, spool.naming.decode(sent.value).value)))
      ensures sent.Some? && answer.Some? && Matches(answer.value, spool.naming.decode(sent.value).value) ==>
        At(spool.disk, from.value) == VACANT || spool.faults > old(spool.faults)
      ensures spool.ready && from.Some? && !Intact(spool.naming, old(spool.disk), from.value) ==>
        || At(spool.disk, from.value) == VACANT || spool.faults > old(spool.faults)
        || FirstFree(Taken(from.value.name, old(spool.disk.corrupt.Keys)), failing, 0).None?
      ensures from.Some? ==> from.value in Present(old(spool.disk.data))
      ensures gone ==> from.Some?
      ensures gone ==>
        || !Intact(spool.naming, old(spool.disk), from.value)
        || (sent.Some? && answer.Some? && Matches(answer.value, spool.naming.decode(sent.value).value))
      ensures synced ==> gone
      ensures spool.disk.data ==
        if from.None? then old(spool.disk.data) else After(old(spool.disk.data), from.value, gone, synced)
    {
      sent, from, gone, synced := None, None, false, false;
      var status, p;
      ghost var skipped;
      status, p, skipped := spool.Next();
      if status != Success {
        return;
      }
      from := p;
      assert skipped == {} ==> Present(old(spool.disk.data)) - skipped == Present(old(spool.disk.data));
      sent, gone, synced := Fetch(p.value, connected, failing);
      if sent.Some? {
        gone, synced := Conclude(p.value, sent.value, answer);
      }
    }
  }

  /** The data directory after a file has left its name, or not. */
  function After(data: map<Path, Slot>, p: Path, gone: bool, synced: bool): (next: map<Path, Slot>) {
    SyncedIf(if gone then Put(data, p, None) else data, p.directory, synced)
  }
}
