/**
 The CRC-checked envelope of the reliable alarm channel: a 48-byte header followed by
 at most 4096 bytes of payload.

 Main results: encoding and decoding are inverse in both directions (`DecodeEncode`,
 `EncodeDecode`), and a decoder never accepts a frame damaged in one byte or in one
 short burst (`SingleByteCaught`, `DamageCaught`).
 */
module AlarmProtocol {
  import opened Bytes
  import Crc32

  const MAGIC: seq<byte> := [0x53, 0x4d, 0x41, 0x31]  // "SMA1"
  const VERSION: byte := 1
  const MAX_PAYLOAD: nat := 4096
  const HEADER_SIZE: nat := 48
  const MAX_FRAME: nat := 4144

  // Field offsets of the header.
  const VERSION_OFFSET: nat := 4
  const TYPE_OFFSET: nat := 5
  const FLAGS_OFFSET: nat := 6
  const LENGTH_OFFSET: nat := 8
  const SOURCE_OFFSET: nat := 12
  const MESSAGE_OFFSET: nat := 20
  const TIMESTAMP_OFFSET: nat := 36
  const CRC_OFFSET: nat := 44

  // Frame types as they appear on the wire; 3 is PING.
  const ALARM: byte := 1
  const ACK: byte := 2
  const PONG: byte := 4

  type MessageId = s: seq<byte> | |s| == 16 witness seq(16, i => 0)

  /** `kind` is the raw type byte: the code's enumeration can hold a value outside 1..4. */
  datatype AlarmFrame = AlarmFrame(kind: byte, source: u64, messageId: MessageId,
                                   timestampMs: u64, payload: seq<byte>)

  datatype Status =
    | EmptyInput | ShortHeader | WrongMagic | WrongVersion | InvalidType | InvalidFlags
    | InvalidPayloadLength | PayloadTooLarge | InvalidTotalLength | CrcMismatch

  datatype Result<+T> = Ok(value: T) | Err(status: Status)

  predicate ValidType(kind: byte) { ALARM <= kind <= PONG }

  /** What a type allows as payload size; `Ok` carries nothing but consent. */
  function Validate(kind: byte, payloadSize: nat): (r: Result<()>) {
    if !ValidType(kind) then Err(InvalidType)
    else if payloadSize > MAX_PAYLOAD then Err(PayloadTooLarge)
    else if kind == ALARM && payloadSize == 0 then Err(InvalidPayloadLength)
    else if kind != ALARM && payloadSize != 0 then Err(InvalidPayloadLength)
    else Ok(())
  }

  predicate Legal(frame: AlarmFrame) {
    Validate(frame.kind, |frame.payload|).Ok?
  }

  /** Length of the frame a header announces; only the header is looked at. */
  function FrameSize(prefix: seq<byte>): (r: Result<nat>)
    ensures r.Ok? ==> HEADER_SIZE <= r.value <= MAX_FRAME && |prefix| >= HEADER_SIZE
  {
    if |prefix| == 0 then Err(EmptyInput)
    else if |prefix| < HEADER_SIZE then Err(ShortHeader)
    else if prefix[..4] != MAGIC then Err(WrongMagic)
    else if prefix[VERSION_OFFSET] != VERSION then Err(WrongVersion)
    else if !ValidType(prefix[TYPE_OFFSET]) then Err(InvalidType)
    else if GetU16(prefix[FLAGS_OFFSET..LENGTH_OFFSET]) != 0 then Err(InvalidFlags)
    else
      var payloadSize := GetU32(prefix[LENGTH_OFFSET..SOURCE_OFFSET]);
      match Validate(prefix[TYPE_OFFSET], payloadSize)
      case Ok(_) => Ok(HEADER_SIZE + payloadSize)
      case Err(status) => Err(status)
  }

  /** The bytes the CRC covers: the header up to the CRC field, then the payload. */
  function Covered(bytes: seq<byte>): (s: seq<byte>)
    requires |bytes| >= HEADER_SIZE
  {
    bytes[..CRC_OFFSET] + bytes[HEADER_SIZE..]
  }

  /** The header up to the CRC field. */
  function Preamble(frame: AlarmFrame): (s: seq<byte>)
    requires Legal(frame)
    ensures |s| == CRC_OFFSET
  {
    MAGIC + [VERSION] + [frame.kind] + PutU16(0) + PutU32(|frame.payload|)
    + PutU64(frame.source) + frame.messageId + PutU64(frame.timestampMs)
  }

  function Encode(frame: AlarmFrame): (r: Result<seq<byte>>)
    ensures r.Ok? <==> Legal(frame)
    ensures r.Ok? ==> |r.value| == HEADER_SIZE + |frame.payload|
  {
    match Validate(frame.kind, |frame.payload|)
    case Err(status) => Err(status)
    case Ok(_) =>
      var preamble := Preamble(frame);
      Ok(preamble + PutU32(Crc32.Checksum(preamble + frame.payload)) + frame.payload)
  }

  function Decode(bytes: seq<byte>): (r: Result<AlarmFrame>) {
    match FrameSize(bytes)
    case Err(status) => Err(status)
    case Ok(size) =>
      if |bytes| != size then Err(InvalidTotalLength)
      else if !CrcMatches(bytes) then Err(CrcMismatch)
      else Ok(Fields(bytes))
  }

  predicate CrcMatches(bytes: seq<byte>)
    requires |bytes| >= HEADER_SIZE
  {
    GetU32(bytes[CRC_OFFSET..HEADER_SIZE]) == Crc32.Checksum(Covered(bytes))
  }

  function Fields(bytes: seq<byte>): (frame: AlarmFrame)
    requires |bytes| >= HEADER_SIZE
  {
    AlarmFrame(bytes[TYPE_OFFSET],
               GetU64(bytes[SOURCE_OFFSET..MESSAGE_OFFSET]),
               bytes[MESSAGE_OFFSET..TIMESTAMP_OFFSET],
               GetU64(bytes[TIMESTAMP_OFFSET..CRC_OFFSET]),
               bytes[HEADER_SIZE..])
  }

  // ----- the two round trips -----

  lemma PreambleFields(frame: AlarmFrame, tail: seq<byte>)
    requires Legal(frame)
    ensures var b := Preamble(frame) + tail;
      && b[..4] == MAGIC
      && b[VERSION_OFFSET] == VERSION
      && b[TYPE_OFFSET] == frame.kind
      && b[FLAGS_OFFSET..LENGTH_OFFSET] == PutU16(0)
      && b[LENGTH_OFFSET..SOURCE_OFFSET] == PutU32(|frame.payload|)
      && b[SOURCE_OFFSET..MESSAGE_OFFSET] == PutU64(frame.source)
      && b[MESSAGE_OFFSET..TIMESTAMP_OFFSET] == frame.messageId
      && b[TIMESTAMP_OFFSET..CRC_OFFSET] == PutU64(frame.timestampMs)
  {
  }

  /** Every legal frame survives the trip. */
  lemma DecodeEncode(frame: AlarmFrame)
    requires Legal(frame)
    ensures Decode(Encode(frame).value) == Ok(frame)
  {
    var preamble := Preamble(frame);
    var crc := Crc32.Checksum(preamble + frame.payload);
    var bytes := preamble + PutU32(crc) + frame.payload;
    assert bytes == preamble + (PutU32(crc) + frame.payload);
    PreambleFields(frame, PutU32(crc) + frame.payload);
    assert bytes[CRC_OFFSET..HEADER_SIZE] == PutU32(crc);
    assert bytes[HEADER_SIZE..] == frame.payload;
    assert Covered(bytes) == preamble + frame.payload;
    GetPutU16(0);
    GetPutU32(|frame.payload|);
    GetPutU32(crc);
    GetPutU64(frame.source);
    GetPutU64(frame.timestampMs);
  }

  lemma JoinPreamble(h: seq<byte>)
    requires |h| >= CRC_OFFSET
    ensures h[..CRC_OFFSET] == h[..4] + [h[4]] + [h[5]] + h[6..8] + h[8..12] + h[12..20] + h[20..36] + h[36..44]
  {
  }

  /** The fields the decoder reads are all that precedes the CRC. */
  lemma PreambleOfDecoded(bytes: seq<byte>)
    requires Decode(bytes).Ok?
    ensures Legal(Decode(bytes).value)
    ensures Preamble(Decode(bytes).value) == bytes[..CRC_OFFSET]
  {
    var frame := Decode(bytes).value;
    JoinPreamble(bytes);
    assert bytes[FLAGS_OFFSET..LENGTH_OFFSET] == PutU16(0);
    assert bytes[LENGTH_OFFSET..SOURCE_OFFSET] == PutU32(|frame.payload|);
    assert bytes[SOURCE_OFFSET..MESSAGE_OFFSET] == PutU64(frame.source);
    assert bytes[TIMESTAMP_OFFSET..CRC_OFFSET] == PutU64(frame.timestampMs);
  }

  /** Only the encoding of a frame decodes to it: accepted byte strings are canonical. */
  lemma EncodeDecode(bytes: seq<byte>)
    ensures Decode(bytes).Ok? ==> Legal(Decode(bytes).value) && Encode(Decode(bytes).value) == Ok(bytes)
  {
    if Decode(bytes).Ok? {
      var frame := Decode(bytes).value;
      PreambleOfDecoded(bytes);
      assert Covered(bytes) == Preamble(frame) + frame.payload;
      Reassemble(bytes, Preamble(frame), Crc32.Checksum(Covered(bytes)), frame.payload);
    }
  }

  lemma Reassemble(bytes: seq<byte>, preamble: seq<byte>, crc: u32, payload: seq<byte>)
    requires |bytes| >= 48 && bytes[..44] == preamble && GetU32(bytes[44..48]) == crc && bytes[48..] == payload
    ensures preamble + PutU32(crc) + payload == bytes
  {
    var field := bytes[44..48];
    assert PutU32(crc) == field;
    assert bytes == bytes[..44] + field + bytes[48..];
  }

  /** Distinct legal frames have distinct encodings. */
  lemma EncodeInjective(f: AlarmFrame, g: AlarmFrame)
    requires Legal(f) && Legal(g) && Encode(f).value == Encode(g).value
    ensures f == g
  {
    DecodeEncode(f);
    DecodeEncode(g);
  }

  // ----- damage -----

  /** The CRC-covered parts differ in at most 32 bits from bit `k` on. */
  predicate BurstAt(good: seq<byte>, bad: seq<byte>, k: nat, w: nat) {
    && |good| == |bad| && k + w <= 8 * |good| && w <= 32
    && var a, b := Crc32.BitsOf(good), Crc32.BitsOf(bad); a[..k] == b[..k] && a[k + w..] == b[k + w..]
  }

  lemma CoveredCaught(good: seq<byte>, bad: seq<byte>, k: nat, w: nat)
    requires Decode(good).Ok? && |bad| == |good|
    requires bad[CRC_OFFSET..HEADER_SIZE] == good[CRC_OFFSET..HEADER_SIZE]
    requires BurstAt(Covered(good), Covered(bad), k, w) && bad != good
    ensures Decode(bad).Err?
  {
    if Covered(bad) == Covered(good) {
      SameCoverSame(good, bad);
    }
    Crc32.BurstCaught(Covered(good), Covered(bad), k, w);
  }

  lemma SameCoverSame(a: seq<byte>, b: seq<byte>)
    requires |a| == |b| >= HEADER_SIZE && Covered(a) == Covered(b)
    requires a[CRC_OFFSET..HEADER_SIZE] == b[CRC_OFFSET..HEADER_SIZE]
    ensures a == b
  {
    assert Covered(a)[..CRC_OFFSET] == a[..CRC_OFFSET] && Covered(b)[..CRC_OFFSET] == b[..CRC_OFFSET];
    assert Covered(a)[CRC_OFFSET..] == a[HEADER_SIZE..] && Covered(b)[CRC_OFFSET..] == b[HEADER_SIZE..];
    assert a == a[..CRC_OFFSET] + a[CRC_OFFSET..HEADER_SIZE] + a[HEADER_SIZE..];
    assert b == b[..CRC_OFFSET] + b[CRC_OFFSET..HEADER_SIZE] + b[HEADER_SIZE..];
  }

  /**
   Damage an accepted frame without changing its length: if all of it lies in the CRC
   field, or all of it inside 32 consecutive covered bits, the result is rejected.
   */
  lemma DamageCaught(good: seq<byte>, bad: seq<byte>, k: nat, w: nat)
    requires Decode(good).Ok? && |bad| == |good| && bad != good
    requires
      || Covered(bad) == Covered(good)
      || (bad[CRC_OFFSET..HEADER_SIZE] == good[CRC_OFFSET..HEADER_SIZE] && BurstAt(Covered(good), Covered(bad), k, w))
    ensures Decode(bad).Err?
  {
    if Covered(bad) == Covered(good) {
      if bad[CRC_OFFSET..HEADER_SIZE] == good[CRC_OFFSET..HEADER_SIZE] {
        SameCoverSame(good, bad);
      }
    } else {
      CoveredCaught(good, bad, k, w);
    }
  }

  /** Changing one byte of an accepted frame, any byte to any other value, is always caught. */
  lemma SingleByteCaught(good: seq<byte>, i: nat, b: byte)
    requires i < |good| && b != good[i]
    ensures Decode(good).Ok? ==> Decode(good[i := b]).Err?
  {
    var bad := good[i := b];
    if Decode(good).Err? {
      return;
    }
    if CRC_OFFSET <= i < HEADER_SIZE {
      assert Covered(bad) == Covered(good);
      DamageCaught(good, bad, 0, 0);
    } else {
      var at := if i < CRC_OFFSET then i else i - 4;
      CoveredUpdate(good, i, b, at);
      OneByteIsABurst(Covered(good), at, b);
      DamageCaught(good, bad, 8 * at, 8);
    }
  }

  lemma OneByteIsABurst(covered: seq<byte>, at: nat, b: byte)
    requires at < |covered|
    ensures BurstAt(covered, covered[at := b], 8 * at, 8)
  {
    Crc32.AroundByte(covered, at, b);
  }

  lemma CoveredUpdate(good: seq<byte>, i: nat, b: byte, at: nat)
    requires |good| >= HEADER_SIZE && i < |good|
    requires (i < CRC_OFFSET && at == i) || (i >= HEADER_SIZE && at == i - 4)
    ensures Covered(good[i := b]) == Covered(good)[at := b]
    ensures good[i := b][CRC_OFFSET..HEADER_SIZE] == good[CRC_OFFSET..HEADER_SIZE]
  {
  }

  // ----- the code's own form: a buffer filled in place -----

  /** Header and payload fed separately, the CRC field skipped. */
  method ComputeFrameCrc(bytes: seq<byte>) returns (crc: u32)
    requires |bytes| >= HEADER_SIZE
    ensures crc == Crc32.Checksum(Covered(bytes))
  {
    var poly: Crc32.Register, initial: Crc32.Register
      := Crc32.Bits(Crc32.POLYNOMIAL, 32), Crc32.Bits(Crc32.INITIAL, 32);
    var header := Crc32.ComputeUpdate(poly, initial, bytes[..CRC_OFFSET]);
    var whole := Crc32.ComputeUpdate(poly, header, bytes[HEADER_SIZE..]);
    Crc32.UpdateConcat(poly, initial, bytes[..CRC_OFFSET], bytes[HEADER_SIZE..]);
    Crc32.Pow2Values();
    crc := Crc32.Number(Crc32.Xor(whole, initial));
  }

  method EncodeFrame(frame: AlarmFrame) returns (r: Result<seq<byte>>)
    ensures r == Encode(frame)
  {
    var validation := Validate(frame.kind, |frame.payload|);
    if validation.Err? {
      return Err(validation.status);
    }
    var bytes := new byte[HEADER_SIZE + |frame.payload|](i => 0);
    FillHeader(bytes, frame);
    FillPayload(bytes, frame.payload);
    Seal(bytes, Preamble(frame), frame.payload);
    return Ok(bytes[..]);
  }

  method FillHeader(bytes: array<byte>, frame: AlarmFrame)
    requires Legal(frame) && bytes.Length == HEADER_SIZE + |frame.payload|
    modifies bytes
    ensures bytes[..CRC_OFFSET] == Preamble(frame)
  {
    StoreBytes(bytes, 0, MAGIC);
    StoreBytes(bytes, VERSION_OFFSET, [VERSION]);
    StoreBytes(bytes, TYPE_OFFSET, [frame.kind]);
    StoreBE(bytes, FLAGS_OFFSET, 0, 2);
    StoreBE(bytes, LENGTH_OFFSET, |frame.payload|, 4);
    StoreBE(bytes, SOURCE_OFFSET, frame.source, 8);
    StoreBytes(bytes, MESSAGE_OFFSET, frame.messageId);
    StoreBE(bytes, TIMESTAMP_OFFSET, frame.timestampMs, 8);
  }

  method FillPayload(bytes: array<byte>, payload: seq<byte>)
    requires bytes.Length == HEADER_SIZE + |payload|
    modifies bytes
    ensures bytes[..CRC_OFFSET] == old(bytes[..CRC_OFFSET]) && bytes[HEADER_SIZE..] == payload
  {
    ghost var header := bytes[..HEADER_SIZE];
    StoreBytes(bytes, HEADER_SIZE, payload);
    ghost var filled := bytes[..HEADER_SIZE + |payload|];
    assert filled == header + payload;
    assert bytes[HEADER_SIZE..] == filled[HEADER_SIZE..];
    assert bytes[..CRC_OFFSET] == filled[..CRC_OFFSET] == header[..CRC_OFFSET];
  }

  /** The CRC goes between header front and payload once both are in place. */
  method Seal(bytes: array<byte>, ghost front: seq<byte>, ghost payload: seq<byte>)
    requires bytes.Length >= HEADER_SIZE && bytes[..CRC_OFFSET] == front && bytes[HEADER_SIZE..] == payload
    modifies bytes
    ensures bytes[..] == front + PutU32(Crc32.Checksum(front + payload)) + payload
  {
    var filled := bytes[..];
    assert filled[..CRC_OFFSET] == front && filled[HEADER_SIZE..] == payload;
    var crc := ComputeFrameCrc(filled);
    StoreBE(bytes, CRC_OFFSET, crc, 4);
    assert bytes[..] == bytes[..HEADER_SIZE] + bytes[HEADER_SIZE..];
  }
}
