/**
 Monitor Wire V2: a 40-byte header, a description and a value, 1200 bytes at most.

 Main results: decoding an encoded record returns it and re-encoding an accepted
 datagram returns its bytes (`DecodeEncodeV2`, `EncodeDecodeV2`), for every
 nanosecond timestamp an int64 can hold. Every arithmetic result of the timestamp
 functions has an `i64` or `u32` type, so the proofs include the absence of overflow.
 */
module MonitorWire {
  import opened Bytes
  import opened MonitorData

  const VERSION_2: byte := 2
  const NUMERIC_TYPE: byte := 0
  const TEXT_TYPE: byte := 1
  const HEADER_SIZE: nat := 40
  const MAX_DATAGRAM: nat := 1200
  const NUMERIC_SIZE: nat := 8
  const PER_SECOND: i64 := 1_000_000_000

  const INT64_MIN: i64 := -0x8000_0000_0000_0000
  const INT64_MAX: i64 := 0x7fff_ffff_ffff_ffff

  datatype Status =
    | EmptyInput | WrongVersion | InvalidType | InvalidFlags | ShortHeader | InvalidHeaderLength
    | InvalidTotalLength | InvalidFieldLength | InvalidTimestamp | DatagramTooLarge

  datatype Result<+T> = Ok(value: T) | Err(status: Status)

  // ----- timestamps -----

  /** C++ division: the quotient is truncated toward zero. */
  function TruncDiv(a: int, b: int): int
    requires b > 0
  {
    if a >= 0 then a / b else -((-a) / b)
  }

  function TruncMod(a: int, b: int): int
    requires b > 0
  {
    a - TruncDiv(a, b) * b
  }

  datatype Parts = Parts(seconds: i64, nanoseconds: u32)

  /** Seconds rounded down and the remaining nanoseconds, which are never negative. */
  function Split(total: i64): (p: Parts)
    ensures p.seconds * PER_SECOND + p.nanoseconds == total
    ensures p.nanoseconds < PER_SECOND
  {
    var seconds: i64 := TruncDiv(total, PER_SECOND);
    var nanoseconds: i64 := TruncMod(total, PER_SECOND);
    if nanoseconds < 0 then
      var down: i64 := seconds - 1;
      var up: i64 := nanoseconds + PER_SECOND;
      Parts(down, up)
    else
      Parts(seconds, nanoseconds)
  }

  predicate PartsLess(a: Parts, b: Parts) {
    a.seconds < b.seconds || (a.seconds == b.seconds && a.nanoseconds < b.nanoseconds)
  }

  /** The inverse of `Split`, refusing parts that name no int64 nanosecond count. */
  function Join(p: Parts): (r: Option<i64>)
    ensures r.Some? <==> p.nanoseconds < PER_SECOND && INT64_MIN <= p.seconds * PER_SECOND + p.nanoseconds <= INT64_MAX
    ensures r.Some? ==> r.value == p.seconds * PER_SECOND + p.nanoseconds
  {
    if p.nanoseconds >= PER_SECOND then None
    else
      var minimum := Split(INT64_MIN);
      var maximum := Split(INT64_MAX);
      if PartsLess(p, minimum) || PartsLess(maximum, p) then None
      else if p.seconds == minimum.seconds then
        var delta: u32 := p.nanoseconds - minimum.nanoseconds;
        var total: i64 := INT64_MIN + delta;
        Some(total)
      else
        var whole: i64 := p.seconds * PER_SECOND;
        var total: i64 := whole + p.nanoseconds;
        Some(total)
  }

  /** Every timestamp is recovered, the smallest one included. */
  lemma JoinSplit(total: i64)
    ensures Join(Split(total)) == Some(total)
  {
  }

  /** Parts that are accepted are in the normal form: they are the split of what they denote. */
  lemma SplitJoin(p: Parts)
    requires Join(p).Some?
    ensures Split(Join(p).value) == p
  {
    var q := Split(Join(p).value);
    assert (p.seconds - q.seconds) * PER_SECOND == q.nanoseconds - p.nanoseconds;
  }

  // ----- two's complement -----

  /** The bit pattern of a signed value, as the cast to unsigned gives it. */
  function ToBits(value: i64): (bits: u64) {
    if value >= 0 then value else value + TWO_64
  }

  /** Sign and magnitude read from the bits, with the one magnitude int64 cannot negate. */
  function FromBits(bits: u64): (value: i64)
  {
    if bits < TWO_63 then bits
    else
      var complement: u64 := TWO_64 - 1 - bits;
      var magnitude: u64 := complement + 1;
      if magnitude == TWO_63 then INT64_MIN
      else
        var positive: i64 := magnitude;
        0 - positive
  }

  lemma BitsBijective(value: i64, bits: u64)
    ensures FromBits(ToBits(value)) == value
    ensures ToBits(FromBits(bits)) == bits
  {
  }

  // ----- the datagram -----

  function TypeOf(value: Value): (t: byte)
    requires !value.Valueless?
  {
    if value.Numeric? then NUMERIC_TYPE else TEXT_TYPE
  }

  function ValueBytes(value: Value): (s: seq<byte>)
    requires !value.Valueless?
  {
    match value
    case Numeric(v, state) => PutU32(v) + PutU32(state)
    case Text(text) => text
  }

  /** The records V2 can carry. */
  predicate Encodable(record: StoredRecord) {
    && !record.data.value.Valueless?
    && HEADER_SIZE + |record.data.description| + |ValueBytes(record.data.value)| <= MAX_DATAGRAM
  }

  function KeyBytes(key: Key): (s: seq<byte>)
    ensures |s| == 16
  {
    PutU32(key.mid) + PutU32(key.level) + PutU32(key.fid) + PutU32(key.eid)
  }

  function HeaderBytes(record: StoredRecord): (s: seq<byte>)
    requires Encodable(record)
    ensures |s| == HEADER_SIZE
  {
    var parts := Split(record.changedAt);
    var description, value := |record.data.description|, |ValueBytes(record.data.value)|;
    Front(TypeOf(record.data.value), HEADER_SIZE + description + value, record.data.key)
    + Back(parts, description, value)
  }

  /** Version, type, flags, both lengths and the key. */
  function Front(kind: byte, total: u16, key: Key): (s: seq<byte>)
    ensures |s| == 24
  {
    [VERSION_2] + [kind] + PutU16(0) + PutU16(total) + PutU16(HEADER_SIZE) + KeyBytes(key)
  }

  /** Timestamp and field lengths. */
  function Back(parts: Parts, description: u16, value: u16): (s: seq<byte>)
    ensures |s| == 16
  {
    PutU64(ToBits(parts.seconds)) + PutU32(parts.nanoseconds) + PutU16(description) + PutU16(value)
  }

  function EncodeV2(record: StoredRecord): (r: Result<seq<byte>>)
    ensures r.Ok? <==> Encodable(record)
    ensures r.Ok? ==> HEADER_SIZE <= |r.value| <= MAX_DATAGRAM
  {
    if record.data.value.Valueless? then Err(InvalidType)
    else if |record.data.description| > MAX_DATAGRAM - HEADER_SIZE then Err(DatagramTooLarge)
    else if |ValueBytes(record.data.value)| > MAX_DATAGRAM - HEADER_SIZE - |record.data.description| then
      Err(DatagramTooLarge)
    else Ok(HeaderBytes(record) + record.data.description + ValueBytes(record.data.value))
  }

  datatype Header = Header(kind: byte, key: Key, parts: Parts, description: u16, value: u16)

  function ReadKey(s: seq<byte>): (key: Key)
    requires |s| == 16
    ensures KeyBytes(key) == s
  {
    Key(GetU32(s[..4]), GetU32(s[4..8]), GetU32(s[8..12]), GetU32(s[12..]))
  }

  function ReadHeader(data: seq<byte>): (r: Result<Header>)
    ensures r.Ok? ==> |data| == HEADER_SIZE + r.value.description + r.value.value
  {
    if |data| == 0 then Err(EmptyInput)
    else if data[0] != VERSION_2 then Err(WrongVersion)
    else if |data| < HEADER_SIZE then Err(ShortHeader)
    else if |data| > MAX_DATAGRAM then Err(DatagramTooLarge)
    else if data[1] != NUMERIC_TYPE && data[1] != TEXT_TYPE then Err(InvalidType)
    else if GetU16(data[2..4]) != 0 then Err(InvalidFlags)
    else if GetU16(data[6..8]) != HEADER_SIZE then Err(InvalidHeaderLength)
    else if GetU16(data[4..6]) > MAX_DATAGRAM then Err(DatagramTooLarge)
    else if GetU16(data[4..6]) < HEADER_SIZE || GetU16(data[4..6]) != |data| then Err(InvalidTotalLength)
    else if GetU32(data[32..36]) >= PER_SECOND then Err(InvalidTimestamp)
    else
      var description, value := GetU16(data[36..38]), GetU16(data[38..40]);
      if description + value != |data| - HEADER_SIZE then Err(InvalidFieldLength)
      else
        var parts := Parts(FromBits(GetU64(data[24..32])), GetU32(data[32..36]));
        Ok(Header(data[1], ReadKey(data[8..24]), parts, description, value))
  }

  function ReadValue(kind: byte, s: seq<byte>): (value: Value)
    requires kind == NUMERIC_TYPE ==> |s| == NUMERIC_SIZE
    ensures !value.Valueless? && ValueBytes(value) == s
    ensures value.Numeric? <==> kind == NUMERIC_TYPE
  {
    if kind == NUMERIC_TYPE then
      assert s == s[..4] + s[4..];
      Numeric(GetU32(s[..4]), GetU32(s[4..]))
    else Text(s)
  }

  function DecodeV2(data: seq<byte>): (r: Result<StoredRecord>) {
    match ReadHeader(data)
    case Err(status) => Err(status)
    case Ok(header) =>
      if header.kind == NUMERIC_TYPE && header.value != NUMERIC_SIZE then Err(InvalidFieldLength)
      else
        match Join(header.parts)
        case None => Err(InvalidTimestamp)
        case Some(changedAt) =>
          var middle := HEADER_SIZE + header.description;
          Ok(StoredRecord(Data(header.key, data[HEADER_SIZE..middle], ReadValue(header.kind, data[middle..])),
                          changedAt))
  }

  // ----- the two round trips -----

  lemma ReadKeyBytes(key: Key)
    ensures ReadKey(KeyBytes(key)) == key
  {
    var s := KeyBytes(key);
    assert s[..4] == PutU32(key.mid) && s[4..8] == PutU32(key.level);
    assert s[8..12] == PutU32(key.fid) && s[12..] == PutU32(key.eid);
    GetPutU32(key.mid);
    GetPutU32(key.level);
    GetPutU32(key.fid);
    GetPutU32(key.eid);
  }

  lemma ReadValueBytes(value: Value)
    requires !value.Valueless?
    ensures value.Numeric? ==> |ValueBytes(value)| == NUMERIC_SIZE
    ensures ReadValue(TypeOf(value), ValueBytes(value)) == value
  {
    if value.Numeric? {
      var s := ValueBytes(value);
      assert s[..4] == PutU32(value.value) && s[4..] == PutU32(value.state);
      GetPutU32(value.value);
      GetPutU32(value.state);
    }
  }

  lemma FrontFields(kind: byte, total: u16, key: Key, tail: seq<byte>)
    ensures var s := Front(kind, total, key) + tail;
      && s[0] == VERSION_2 && s[1] == kind && GetU16(s[2..4]) == 0 && GetU16(s[4..6]) == total
      && GetU16(s[6..8]) == HEADER_SIZE && ReadKey(s[8..24]) == key
  {
    var s := Front(kind, total, key) + tail;
    assert s[2..4] == PutU16(0) && s[4..6] == PutU16(total) && s[6..8] == PutU16(HEADER_SIZE);
    assert s[8..24] == KeyBytes(key);
    GetPutU16(0);
    GetPutU16(total);
    GetPutU16(HEADER_SIZE);
    ReadKeyBytes(key);
  }

  lemma BackFields(front: seq<byte>, parts: Parts, description: u16, value: u16, tail: seq<byte>)
    requires |front| == 24
    ensures var s := front + Back(parts, description, value) + tail;
      && FromBits(GetU64(s[24..32])) == parts.seconds && GetU32(s[32..36]) == parts.nanoseconds
      && GetU16(s[36..38]) == description && GetU16(s[38..40]) == value
  {
    var s := front + Back(parts, description, value) + tail;
    assert s[24..32] == PutU64(ToBits(parts.seconds)) && s[32..36] == PutU32(parts.nanoseconds);
    assert s[36..38] == PutU16(description) && s[38..40] == PutU16(value);
    GetPutU64(ToBits(parts.seconds));
    GetPutU32(parts.nanoseconds);
    GetPutU16(description);
    GetPutU16(value);
    BitsBijective(parts.seconds, 0);
  }

  lemma ReadEncodedHeader(record: StoredRecord)
    requires Encodable(record)
    ensures ReadHeader(EncodeV2(record).value)
         == Ok(Header(TypeOf(record.data.value), record.data.key, Split(record.changedAt),
                      |record.data.description|, |ValueBytes(record.data.value)|))
  {
    var parts := Split(record.changedAt);
    var description, value := |record.data.description|, |ValueBytes(record.data.value)|;
    var kind, key, total := TypeOf(record.data.value), record.data.key, HEADER_SIZE + description + value;
    var tail := record.data.description + ValueBytes(record.data.value);
    var data := EncodeV2(record).value;
    assert data == Front(kind, total, key) + Back(parts, description, value) + tail;
    assert data == Front(kind, total, key) + (Back(parts, description, value) + tail);
    FrontFields(kind, total, key, Back(parts, description, value) + tail);
    BackFields(Front(kind, total, key), parts, description, value, tail);
  }

  /** A record V2 can carry arrives unchanged, whatever its int64 timestamp. */
  lemma DecodeEncodeV2(record: StoredRecord)
    requires Encodable(record)
    ensures DecodeV2(EncodeV2(record).value) == Ok(record)
  {
    var data := EncodeV2(record).value;
    ReadEncodedHeader(record);
    ReadValueBytes(record.data.value);
    JoinSplit(record.changedAt);
    var middle := HEADER_SIZE + |record.data.description|;
    assert data[HEADER_SIZE..middle] == record.data.description;
    assert data[middle..] == ValueBytes(record.data.value);
  }

  lemma JoinHeader(s: seq<byte>)
    requires |s| >= HEADER_SIZE
    ensures s[..24] == [s[0]] + [s[1]] + s[2..4] + s[4..6] + s[6..8] + s[8..24]
    ensures s[24..40] == s[24..32] + s[32..36] + s[36..38] + s[38..40]
    ensures s[..40] == s[..24] + s[24..40]
  {
  }

  lemma HeaderOfDecoded(data: seq<byte>)
    requires DecodeV2(data).Ok?
    ensures Encodable(DecodeV2(data).value)
    ensures HeaderBytes(DecodeV2(data).value) == data[..HEADER_SIZE]
  {
    var record := DecodeV2(data).value;
    var header := ReadHeader(data).value;
    var middle := HEADER_SIZE + header.description;
    SplitJoin(header.parts);
    BitsBijective(0, GetU64(data[24..32]));
    assert |data[HEADER_SIZE..middle]| == header.description && |data[middle..]| == header.value;
    JoinHeader(data);
    assert data[2..4] == PutU16(0) && data[6..8] == PutU16(HEADER_SIZE);
    assert data[..24] == Front(header.kind, |data|, header.key);
    assert data[24..40] == Back(header.parts, header.description, header.value);
  }

  lemma BodyOfDecoded(data: seq<byte>)
    requires DecodeV2(data).Ok?
    ensures var record := DecodeV2(data).value;
      && !record.data.value.Valueless?
      && data[HEADER_SIZE..] == record.data.description + ValueBytes(record.data.value)
  {
    var middle := HEADER_SIZE + ReadHeader(data).value.description;
    assert data[HEADER_SIZE..] == data[HEADER_SIZE..middle] + data[middle..];
  }

  /** An accepted datagram is the one encoding of the record it carries. */
  lemma EncodeDecodeV2(data: seq<byte>)
    requires DecodeV2(data).Ok?
    ensures EncodeV2(DecodeV2(data).value) == Ok(data)
  {
    HeaderOfDecoded(data);
    BodyOfDecoded(data);
    Reassemble(data, DecodeV2(data).value);
  }

  lemma Reassemble(data: seq<byte>, record: StoredRecord)
    requires Encodable(record) && |data| >= HEADER_SIZE
    requires data[..HEADER_SIZE] == HeaderBytes(record)
    requires data[HEADER_SIZE..] == record.data.description + ValueBytes(record.data.value)
    ensures EncodeV2(record) == Ok(data)
  {
    assert data == data[..HEADER_SIZE] + data[HEADER_SIZE..];
    assert EncodeV2(record).value == HeaderBytes(record) + (record.data.description + ValueBytes(record.data.value));
  }

  // ----- the code's own form: a datagram filled in place -----

  method FillHeader(bytes: array<byte>, record: StoredRecord)
    requires Encodable(record)
    requires bytes.Length == HEADER_SIZE + |record.data.description| + |ValueBytes(record.data.value)|
    modifies bytes
    ensures bytes[..HEADER_SIZE] == HeaderBytes(record)
  {
    var description, value := |record.data.description|, bytes.Length - HEADER_SIZE - |record.data.description|;
    FillFront(bytes, TypeOf(record.data.value), record.data.key);
    FillBack(bytes, Split(record.changedAt), description, value);
  }

  method FillFront(bytes: array<byte>, kind: byte, key: Key)
    requires HEADER_SIZE <= bytes.Length <= MAX_DATAGRAM
    modifies bytes
    ensures bytes[..24] == Front(kind, bytes.Length, key)
  {
    bytes[0], bytes[1] := VERSION_2, kind;
    assert bytes[..2] == [VERSION_2] + [kind];
    StoreBE(bytes, 2, 0, 2);
    StoreBE(bytes, 4, bytes.Length, 2);
    StoreBE(bytes, 6, HEADER_SIZE, 2);
    FillKey(bytes, key);
  }

  method FillKey(bytes: array<byte>, key: Key)
    requires HEADER_SIZE <= bytes.Length
    modifies bytes
    ensures bytes[..24] == old(bytes[..8]) + KeyBytes(key)
  {
    ghost var before := bytes[..8];
    StoreBE(bytes, 8, key.mid, 4);
    StoreBE(bytes, 12, key.level, 4);
    StoreBE(bytes, 16, key.fid, 4);
    StoreBE(bytes, 20, key.eid, 4);
    Regroup(before, PutU32(key.mid), PutU32(key.level), PutU32(key.fid), PutU32(key.eid));
  }

  method FillBack(bytes: array<byte>, parts: Parts, description: u16, value: u16)
    requires HEADER_SIZE <= bytes.Length
    modifies bytes
    ensures bytes[..HEADER_SIZE] == old(bytes[..24]) + Back(parts, description, value)
  {
    ghost var before := bytes[..24];
    StoreBE(bytes, 24, ToBits(parts.seconds), 8);
    StoreBE(bytes, 32, parts.nanoseconds, 4);
    StoreBE(bytes, 36, description, 2);
    StoreBE(bytes, 38, value, 2);
    Regroup(before, PutU64(ToBits(parts.seconds)), PutU32(parts.nanoseconds), PutU16(description), PutU16(value));
  }

  lemma Regroup(s: seq<byte>, a: seq<byte>, b: seq<byte>, c: seq<byte>, d: seq<byte>)
    ensures s + a + b + c + d == s + (a + b + c + d)
  {
  }

  method FillValue(bytes: array<byte>, payload: nat, value: Value)
    requires !value.Valueless? && bytes.Length == payload + |ValueBytes(value)|
    modifies bytes
    ensures bytes[..bytes.Length] == old(bytes[..payload]) + ValueBytes(value)
  {
    if value.Numeric? {
      ghost var before := bytes[..payload];
      StoreBE(bytes, payload, value.value, 4);
      StoreBE(bytes, payload + 4, value.state, 4);
      Regroup(before, PutU32(value.value), PutU32(value.state), [], []);
    } else {
      StoreBytes(bytes, payload, value.text);
    }
  }

  method EncodeDatagram(record: StoredRecord) returns (r: Result<seq<byte>>)
    ensures r == EncodeV2(record)
  {
    if record.data.value.Valueless? {
      return Err(InvalidType);
    }
    var description := record.data.description;
    var valueLength := if record.data.value.Numeric? then NUMERIC_SIZE else |record.data.value.text|;
    if |description| > MAX_DATAGRAM - HEADER_SIZE {
      return Err(DatagramTooLarge);
    }
    if valueLength > MAX_DATAGRAM - HEADER_SIZE - |description| {
      return Err(DatagramTooLarge);
    }
    var bytes := new byte[HEADER_SIZE + |description| + valueLength](i => 0);
    FillHeader(bytes, record);
    StoreBytes(bytes, HEADER_SIZE, description);
    FillValue(bytes, HEADER_SIZE + |description|, record.data.value);
    assert bytes[..bytes.Length] == bytes[..];
    return Ok(bytes[..]);
  }
}
