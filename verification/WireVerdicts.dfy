/**
 What the two decoders answer to every byte string: the tests a datagram or frame must pass, in
 the order that decides which status a bad one gets, each by the place and value of its bytes.
 */
module WireVerdicts {
  import opened Bytes
  import opened MonitorData
  import Envelope = AlarmProtocol
  import Crc32
  import V2 = MonitorWire

  /** One test and the status of its failure. */
  datatype Check<S> = Check(holds: bool, status: S)

  /** The status of the first of the first `n` tests to fail. */
  function FirstFault<S>(checks: seq<Check<S>>, n: nat): (status: Option<S>)
    requires n <= |checks|
    ensures status.None? <==> forall i :: 0 <= i < n ==> checks[i].holds
    decreases n
  {
    if n == 0 then None
    else
      var earlier := FirstFault(checks, n - 1);
      if earlier.Some? then earlier
      else if checks[n - 1].holds then None
      else Some(checks[n - 1].status)
  }

  lemma FaultOfSum<S>(a: seq<Check<S>>, b: seq<Check<S>>, n: nat)
    requires n <= |b|
    ensures FirstFault(a + b, |a| + n) ==
      if FirstFault(a, |a|).Some? then FirstFault(a, |a|) else FirstFault(b, n)
  {
    if n == 0 {
      FaultOfPrefix(a, b, |a|);
    } else {
      FaultOfSum(a, b, n - 1);
    }
  }

  lemma FaultOfPrefix<S>(a: seq<Check<S>>, b: seq<Check<S>>, n: nat)
    requires n <= |a|
    ensures FirstFault(a + b, n) == FirstFault(a, n)
  {
    if n > 0 {
      FaultOfPrefix(a, b, n - 1);
    }
  }

  // ----- the alarm envelope -----

  /** The tests of the first eight bytes. */
  function FrontChecks(b: seq<byte>): (checks: seq<Check<Envelope.Status>>)
    ensures |checks| == 6
  {
    var whole := |b| >= 48;
    [ Check(|b| > 0, Envelope.EmptyInput),
      Check(whole, Envelope.ShortHeader),
      Check(whole && b[..4] == [0x53, 0x4d, 0x41, 0x31], Envelope.WrongMagic),
      Check(whole && b[4] == 1, Envelope.WrongVersion),
      Check(whole && 1 <= b[5] <= 4, Envelope.InvalidType),
      Check(whole && GetBE(b[6..8]) == 0, Envelope.InvalidFlags) ]
  }

  /** The tests of the sizes and of the sum. */
  function SizeChecks(b: seq<byte>): (checks: seq<Check<Envelope.Status>>)
    ensures |checks| == 4
  {
    var whole := |b| >= 48;
    var size := if whole then GetBE(b[8..12]) else 0;
    [ Check(size <= 4096, Envelope.PayloadTooLarge),
      Check(whole && (b[5] == 1 <==> size > 0), Envelope.InvalidPayloadLength),
      Check(|b| == 48 + size, Envelope.InvalidTotalLength),
      Check(whole && GetBE(b[44..48]) == Crc32.Checksum(b[..44] + b[48..]), Envelope.CrcMismatch) ]
  }

  function FrameChecks(b: seq<byte>): (checks: seq<Check<Envelope.Status>>)
    ensures |checks| == 10
  {
    FrontChecks(b) + SizeChecks(b)
  }

  /** A frame is refused with the status of the first test it fails, and accepted if it passes all. */
  lemma FrameVerdict(b: seq<byte>)
    ensures FirstFault(FrameChecks(b), 10) ==
      match Envelope.Decode(b) case Ok(_) => None case Err(status) => Some(status)
  {
    FaultOfSum(FrontChecks(b), SizeChecks(b), 4);
    FrontFault(b);
    if FirstFault(FrontChecks(b), 6).None? {
      SizeFault(b);
    }
  }

  lemma FrontFault(b: seq<byte>)
    ensures FirstFault(FrontChecks(b), 6).Some? ==>
      Envelope.Decode(b) == Envelope.Err(FirstFault(FrontChecks(b), 6).value)
  {
  }

  lemma SizeFault(b: seq<byte>)
    requires FirstFault(FrontChecks(b), 6).None?
    ensures FirstFault(SizeChecks(b), 4) ==
      match Envelope.Decode(b) case Ok(_) => None case Err(status) => Some(status)
  {
    var c := FrontChecks(b);
    assert c[1].holds && c[2].holds && c[3].holds && c[4].holds && c[5].holds;
  }

  // ----- the V2 datagram -----

  function Seconds(bits: nat): int {
    if bits < 0x8000_0000_0000_0000 then bits else bits - 0x1_0000_0000_0000_0000
  }

  /** The tests of the first eight bytes. */
  function OpeningChecks(d: seq<byte>): (checks: seq<Check<V2.Status>>)
    ensures |checks| == 9
  {
    var whole := |d| >= 40;
    var total := if whole then GetBE(d[4..6]) else 0;
    [ Check(|d| > 0, V2.EmptyInput),
      Check(|d| > 0 && d[0] == 2, V2.WrongVersion),
      Check(whole, V2.ShortHeader),
      Check(|d| <= 1200, V2.DatagramTooLarge),
      Check(whole && d[1] <= 1, V2.InvalidType),
      Check(whole && GetBE(d[2..4]) == 0, V2.InvalidFlags),
      Check(whole && GetBE(d[6..8]) == 40, V2.InvalidHeaderLength),
      Check(total <= 1200, V2.DatagramTooLarge),
      Check(total == |d|, V2.InvalidTotalLength) ]
  }

  /** The tests of the time and of the field sizes. */
  function FieldChecks(d: seq<byte>): (checks: seq<Check<V2.Status>>)
    ensures |checks| == 4
  {
    var whole := |d| >= 40;
    var nanoseconds := if whole then GetBE(d[32..36]) else 0;
    var time := (if whole then Seconds(GetBE(d[24..32])) else 0) * 1_000_000_000 + nanoseconds;
    var description, value := if whole then GetBE(d[36..38]) else 0, if whole then GetBE(d[38..40]) else 0;
    [ Check(nanoseconds < 1_000_000_000, V2.InvalidTimestamp),
      Check(40 + description + value == |d|, V2.InvalidFieldLength),
      Check(whole && (d[1] == 0 ==> value == 8), V2.InvalidFieldLength),
      Check(-0x8000_0000_0000_0000 <= time < 0x8000_0000_0000_0000, V2.InvalidTimestamp) ]
  }

  function DatagramChecks(d: seq<byte>): (checks: seq<Check<V2.Status>>)
    ensures |checks| == 13
  {
    OpeningChecks(d) + FieldChecks(d)
  }

  /** A datagram is refused with the status of the first test it fails, and accepted if it passes all. */
  lemma DatagramVerdict(d: seq<byte>)
    ensures FirstFault(DatagramChecks(d), 13) ==
      match V2.DecodeV2(d) case Ok(_) => None case Err(status) => Some(status)
  {
    FaultOfSum(OpeningChecks(d), FieldChecks(d), 4);
    OpeningFault(d);
    if FirstFault(OpeningChecks(d), 9).None? {
      FieldFault(d);
    }
  }

  lemma OpeningFault(d: seq<byte>)
    ensures FirstFault(OpeningChecks(d), 9).Some? ==>
      V2.DecodeV2(d) == V2.Err(FirstFault(OpeningChecks(d), 9).value)
  {
  }

  lemma FieldFault(d: seq<byte>)
    requires FirstFault(OpeningChecks(d), 9).None?
    ensures FirstFault(FieldChecks(d), 4) ==
      match V2.DecodeV2(d) case Ok(_) => None case Err(status) => Some(status)
  {
    var c := OpeningChecks(d);
    assert c[0].holds && c[1].holds && c[2].holds && c[3].holds && c[4].holds;
    assert c[5].holds && c[6].holds && c[7].holds && c[8].holds;
  }
}
