/**
 The two wire formats byte by byte: where each field is and what stands there, in numbers. The
 round trips of `AlarmProtocol` and `MonitorWire` would hold for any layout; this says which one
 it is.
 */
module WireLayout {
  import opened Bytes
  import opened MonitorData
  import Envelope = AlarmProtocol
  import Crc32
  import V2 = MonitorWire

  // ----- the alarm envelope -----

  /** One of the four types; an ALARM has 1 to 4096 bytes of payload, the others none. */
  lemma LegalExactly(frame: Envelope.AlarmFrame)
    ensures Envelope.Legal(frame) <==>
      1 <= frame.kind <= 4 && (if frame.kind == 1 then 1 <= |frame.payload| <= 4096 else frame.payload == [])
  {
  }

  lemma HeaderOfFrame(frame: Envelope.AlarmFrame)
    requires Envelope.Legal(frame)
    ensures var h := Envelope.Preamble(frame);
      && h[..4] == [0x53, 0x4d, 0x41, 0x31] && h[4] == 1 && h[5] == frame.kind && h[6..8] == [0, 0]
      && h[8..12] == PutU32(|frame.payload|) && h[12..20] == PutU64(frame.source)
      && h[20..36] == frame.messageId && h[36..44] == PutU64(frame.timestampMs)
  {
    Envelope.PreambleFields(frame, []);
    assert Envelope.Preamble(frame) + [] == Envelope.Preamble(frame);
    assert PutU16(0) == [0, 0];
  }

  lemma PartsOfFrame(frame: Envelope.AlarmFrame)
    requires Envelope.Legal(frame)
    ensures var b, h := Envelope.Encode(frame).value, Envelope.Preamble(frame);
      b[..44] == h && b[44..48] == PutU32(Crc32.Checksum(h + frame.payload)) && b[48..] == frame.payload
  {
  }

  lemma Slice(s: seq<byte>, n: nat, i: nat, j: nat)
    requires i <= j <= n <= |s|
    ensures s[i..j] == s[..n][i..j]
  {
  }

  /** A frame begins with magic, version, type, flags and payload size. */
  lemma FrameHead(frame: Envelope.AlarmFrame)
    requires Envelope.Legal(frame)
    ensures var b := Envelope.Encode(frame).value;
      && |b| == 48 + |frame.payload| && b[..4] == [0x53, 0x4d, 0x41, 0x31]
      && b[4] == 1 && b[5] == frame.kind && b[6..8] == [0, 0] && GetBE(b[8..12]) == |frame.payload|
  {
    var b := Envelope.Encode(frame).value;
    HeaderOfFrame(frame);
    PartsOfFrame(frame);
    Slice(b, 44, 0, 4);
    Slice(b, 44, 6, 8);
    Slice(b, 44, 8, 12);
    GetPutU32(|frame.payload|);
  }

  /** Then come source, message id and time, the CRC of everything else, and the payload. */
  lemma FrameFields(frame: Envelope.AlarmFrame)
    requires Envelope.Legal(frame)
    ensures var b := Envelope.Encode(frame).value;
      && |b| == 48 + |frame.payload| && GetBE(b[12..20]) == frame.source && b[20..36] == frame.messageId
      && GetBE(b[36..44]) == frame.timestampMs && b[48..] == frame.payload
      && GetBE(b[44..48]) == Crc32.Checksum(b[..44] + b[48..])
  {
    var b := Envelope.Encode(frame).value;
    HeaderOfFrame(frame);
    PartsOfFrame(frame);
    Slice(b, 44, 12, 20);
    Slice(b, 44, 20, 36);
    Slice(b, 44, 36, 44);
    GetPutU32(Crc32.Checksum(Envelope.Preamble(frame) + frame.payload));
    GetPutU64(frame.source);
    GetPutU64(frame.timestampMs);
  }

  // ----- the V2 datagram -----

  lemma PartsOfDatagram(record: StoredRecord)
    requires V2.Encodable(record)
    ensures var d, data := V2.EncodeV2(record).value, record.data;
      && d[..40] == V2.HeaderBytes(record) && d[40..40 + |data.description|] == data.description
      && d[40 + |data.description|..] == V2.ValueBytes(data.value)
  {
  }

  lemma HeaderOfDatagram(record: StoredRecord)
    requires V2.Encodable(record)
    ensures var h, data := V2.HeaderBytes(record), record.data;
      var size := 40 + |data.description| + |V2.ValueBytes(data.value)|;
      && h[0] == 2 && h[1] == (if data.value.Numeric? then 0 else 1) && h[2..4] == [0, 0]
      && h[4..6] == PutU16(size) && h[6..8] == PutU16(40) && h[8..24] == V2.KeyBytes(data.key)
      && h[24..40] == V2.Back(V2.Split(record.changedAt), |data.description|, |V2.ValueBytes(data.value)|)
  {
    assert PutU16(0) == [0, 0];
  }

  lemma FieldsOfKey(key: Key)
    ensures var k := V2.KeyBytes(key);
      && GetBE(k[..4]) == key.mid && GetBE(k[4..8]) == key.level
      && GetBE(k[8..12]) == key.fid && GetBE(k[12..]) == key.eid
  {
    var k := V2.KeyBytes(key);
    assert k[..4] == PutU32(key.mid) && k[4..8] == PutU32(key.level);
    assert k[8..12] == PutU32(key.fid) && k[12..] == PutU32(key.eid);
    GetPutU32(key.mid);
    GetPutU32(key.level);
    GetPutU32(key.fid);
    GetPutU32(key.eid);
  }

  /** The header begins with version, type, flags and sizes. */
  lemma DatagramHead(record: StoredRecord)
    requires V2.Encodable(record)
    ensures var d, data := V2.EncodeV2(record).value, record.data;
      && d[0] == 2 && d[1] == (if data.value.Numeric? then 0 else 1) && d[2..4] == [0, 0]
      && GetBE(d[4..6]) == |d| <= 1200 && GetBE(d[6..8]) == 40
  {
    var d := V2.EncodeV2(record).value;
    HeaderOfDatagram(record);
    PartsOfDatagram(record);
    Slice(d, 40, 2, 4);
    Slice(d, 40, 4, 6);
    Slice(d, 40, 6, 8);
    GetPutU16(|d|);
    GetPutU16(40);
  }

  /** Then comes the key. */
  lemma DatagramKey(record: StoredRecord)
    requires V2.Encodable(record)
    ensures var d, key := V2.EncodeV2(record).value, record.data.key;
      && GetBE(d[8..12]) == key.mid && GetBE(d[12..16]) == key.level
      && GetBE(d[16..20]) == key.fid && GetBE(d[20..24]) == key.eid
  {
    var d := V2.EncodeV2(record).value;
    HeaderOfDatagram(record);
    PartsOfDatagram(record);
    Slice(d, 40, 8, 24);
    FieldsOfKey(record.data.key);
    var k := d[8..24];
    assert k == V2.KeyBytes(record.data.key);
    assert d[8..12] == k[..4] && d[12..16] == k[4..8] && d[16..20] == k[8..12] && d[20..24] == k[12..];
  }

  /** Behind it: time, field sizes, description and value. */
  lemma DatagramBody(record: StoredRecord)
    requires V2.Encodable(record)
    ensures var d, data := V2.EncodeV2(record).value, record.data; var middle := 40 + |data.description|;
      && GetBE(d[36..38]) == |data.description| && GetBE(d[38..40]) == |d| - middle
      && d[40..middle] == data.description
      && (data.value.Text? ==> d[middle..] == data.value.text)
      && (data.value.Numeric? ==>
            && |d| == middle + 8
            && GetBE(d[middle..middle + 4]) == data.value.value && GetBE(d[middle + 4..]) == data.value.state)
  {
    var d, data := V2.EncodeV2(record).value, record.data;
    var description, value, middle := |data.description|, |V2.ValueBytes(data.value)|, 40 + |data.description|;
    BackOfDatagram(record);
    PartsOfDatagram(record);
    GetPutU16(description);
    GetPutU16(value);
    if data.value.Numeric? {
      var v := V2.ValueBytes(data.value);
      assert d[middle..middle + 4] == d[middle..][..4] == v[..4] == PutU32(data.value.value);
      assert d[middle + 4..] == d[middle..][4..] == v[4..] == PutU32(data.value.state);
      GetPutU32(data.value.value);
      GetPutU32(data.value.state);
    }
  }

  lemma BackOfDatagram(record: StoredRecord)
    requires V2.Encodable(record)
    ensures var d, parts := V2.EncodeV2(record).value, V2.Split(record.changedAt);
      && d[24..32] == PutU64(V2.ToBits(parts.seconds)) && d[32..36] == PutU32(parts.nanoseconds)
      && d[36..38] == PutU16(|record.data.description|) && d[38..40] == PutU16(|V2.ValueBytes(record.data.value)|)
  {
    var d, h := V2.EncodeV2(record).value, V2.HeaderBytes(record);
    HeaderOfDatagram(record);
    PartsOfDatagram(record);
    var b := h[24..40];
    assert d[24..32] == h[24..32] == b[..8] && d[32..36] == h[32..36] == b[8..12];
    assert d[36..38] == h[36..38] == b[12..14] && d[38..40] == h[38..40] == b[14..];
  }

  /** The time: whole seconds in two's complement, then nanoseconds below a second. */
  lemma DatagramTime(record: StoredRecord)
    requires V2.Encodable(record)
    ensures var d := V2.EncodeV2(record).value;
      var bits, nanoseconds := GetBE(d[24..32]), GetBE(d[32..36]);
      var seconds := if bits < 0x8000_0000_0000_0000 then bits else bits - 0x1_0000_0000_0000_0000;
      nanoseconds < 1_000_000_000 && seconds * 1_000_000_000 + nanoseconds == record.changedAt
  {
    BackOfDatagram(record);
    var parts := V2.Split(record.changedAt);
    GetPutU64(V2.ToBits(parts.seconds));
    GetPutU32(parts.nanoseconds);
  }
}
