/**
 The incremental decoder that cuts a TCP byte stream into alarm frames.

 `Parse` says what a whole stream means, without chunks or buffers. Main results:
 the decoder computes `Parse` of everything it was fed, so cutting the stream
 differently changes nothing (`ChunkingIrrelevant`); `finish` accepts exactly the
 concatenations of encodings of the frames it delivered (`CompleteStreams`,
 `EncodedStreams`); and buffer and per-read frame count are bounded.
 */
module AlarmStreamDecoder {
  import opened Bytes
  import opened MonitorData
  import Wire = AlarmProtocol

  type Frame = Wire.AlarmFrame

  /**
   The part of the envelope the stream logic uses: the size a header announces, the
   decoder of a whole frame and the encoder. Keeping them as parameters keeps the
   field layout and the CRC out of the proofs below; `WIRE` is the real envelope.
   */
  datatype Codec = Codec(size: seq<byte> -> Wire.Result<nat>,
                         decode: seq<byte> -> Wire.Result<Frame>,
                         encode: Frame -> seq<byte>,
                         legal: Frame -> bool)

  const HEADER: nat := Wire.HEADER_SIZE

  /** Every announced size covers the header and respects the frame limit. */
  ghost predicate Sized(c: Codec) {
    forall h: seq<byte> :: c.size(h).Ok? ==> HEADER <= c.size(h).value <= Wire.MAX_FRAME
  }

  /** Decoder and encoder are inverse to each other, and headers tell the truth. */
  ghost predicate Lawful(c: Codec) {
    && Sized(c)
    && (forall s: seq<byte> :: c.decode(s).Ok? ==> c.legal(c.decode(s).value) && c.encode(c.decode(s).value) == s)
    && (forall f: Frame :: c.legal(f) ==>
          && c.decode(c.encode(f)) == Wire.Ok(f)
          && |c.encode(f)| >= HEADER
          && c.size(c.encode(f)[..HEADER]) == Wire.Ok(|c.encode(f)|))
  }

  function EncodeOrEmpty(frame: Frame): (s: seq<byte>) {
    if Wire.Legal(frame) then Wire.Encode(frame).value else []
  }

  const WIRE: Codec := Codec(Wire.FrameSize, Wire.Decode, EncodeOrEmpty, Wire.Legal)

  lemma SizeFromHeader(s: seq<byte>)
    requires |s| >= HEADER
    ensures Wire.FrameSize(s[..HEADER]) == Wire.FrameSize(s)
  {
    var h := s[..HEADER];
    assert h[..4] == s[..4] && h[6..8] == s[6..8] && h[8..12] == s[8..12];
  }

  lemma DecodedSize(s: seq<byte>)
    requires Wire.Decode(s).Ok?
    ensures Wire.FrameSize(s) == Wire.Ok(|s|)
  {
  }

  lemma WireLawful()
    ensures Lawful(WIRE)
  {
    forall s: seq<byte> | Wire.Decode(s).Ok?
      ensures Wire.Legal(Wire.Decode(s).value) && EncodeOrEmpty(Wire.Decode(s).value) == s
    {
      Wire.EncodeDecode(s);
    }
    assert Sized(WIRE);
    forall f: Frame | Wire.Legal(f)
      ensures var wire := EncodeOrEmpty(f);
        Wire.Decode(wire) == Wire.Ok(f) && |wire| >= HEADER && Wire.FrameSize(wire[..HEADER]) == Wire.Ok(|wire|)
    {
      Wire.DecodeEncode(f);
      DecodedSize(EncodeOrEmpty(f));
      SizeFromHeader(EncodeOrEmpty(f));
    }
  }

  /** What is left after the last complete frame, or why the stream is broken. */
  datatype Rest = Pending(buffer: seq<byte>, expected: Option<nat>) | Broken(status: Wire.Status)

  datatype Outcome = Outcome(frames: seq<Frame>, rest: Rest)

  const START: Outcome := Outcome([], Pending([], None))

  /** What the front of a stream holds. */
  datatype Front = Short | Partial(size: nat) | Bad(status: Wire.Status) | Whole(frame: Frame, size: nat)

  function FrontOf(c: Codec, s: seq<byte>): (front: Front)
    requires Sized(c)
    ensures front.Whole? ==> HEADER <= front.size <= |s|
    ensures front.Partial? ==> |s| < front.size <= Wire.MAX_FRAME
  {
    if |s| < HEADER then Short
    else
      match c.size(s[..HEADER])
      case Err(status) => Bad(status)
      case Ok(size) =>
        if |s| < size then Partial(size)
        else
          match c.decode(s[..size])
          case Err(status) => Bad(status)
          case Ok(frame) => Whole(frame, size)
  }

  /** The frames of a stream and its rest. */
  function Parse(c: Codec, s: seq<byte>): (o: Outcome)
    requires Sized(c)
    decreases |s|
  {
    match FrontOf(c, s)
    case Short => Outcome([], Pending(s, None))
    case Partial(size) => Outcome([], Pending(s, Some(size)))
    case Bad(status) => Outcome([], Broken(status))
    case Whole(frame, size) =>
      var later := Parse(c, s[size..]);
      Outcome([frame] + later.frames, later.rest)
  }

  /** Continuing from an outcome with more bytes; a broken stream stays broken. */
  function Resume(c: Codec, o: Outcome, chunk: seq<byte>): (next: Outcome)
    requires Sized(c)
  {
    match o.rest
    case Broken(_) => o
    case Pending(buffer, _) =>
      var more := Parse(c, buffer + chunk);
      Outcome(o.frames + more.frames, more.rest)
  }

  // ----- chunking -----

  /** More bytes change neither a complete first frame nor a first error. */
  lemma FrontIsStable(c: Codec, s: seq<byte>, t: seq<byte>)
    requires Sized(c)
    requires FrontOf(c, s).Bad? || FrontOf(c, s).Whole?
    ensures FrontOf(c, s + t) == FrontOf(c, s)
  {
    assert (s + t)[..HEADER] == s[..HEADER];
    var size := c.size(s[..HEADER]);
    if size.Ok? {
      assert (s + t)[..size.value] == s[..size.value];
    }
  }

  /** Parsing a prefix first and resuming with the remainder is parsing the whole. */
  lemma {:induction false} ParseConcat(c: Codec, s: seq<byte>, t: seq<byte>)
    requires Sized(c)
    ensures Parse(c, s + t) == Resume(c, Parse(c, s), t)
    decreases |s|
  {
    var front := FrontOf(c, s);
    if front.Bad? || front.Whole? {
      FrontIsStable(c, s, t);
    }
    if front.Whole? {
      assert (s + t)[front.size..] == s[front.size..] + t;
      ParseConcat(c, s[front.size..], t);
      ResumeAfter(c, front.frame, Parse(c, s[front.size..]), t);
    }
  }

  lemma ResumeAfter(c: Codec, frame: Frame, o: Outcome, chunk: seq<byte>)
    requires Sized(c)
    ensures var next := Resume(c, o, chunk);
      Resume(c, Outcome([frame] + o.frames, o.rest), chunk) == Outcome([frame] + next.frames, next.rest)
  {
    if o.rest.Pending? {
      var more := Parse(c, o.rest.buffer + chunk).frames;
      assert [frame] + o.frames + more == [frame] + (o.frames + more);
    }
  }

  function Flatten(chunks: seq<seq<byte>>): (s: seq<byte>) {
    if |chunks| == 0 then [] else Flatten(chunks[..|chunks| - 1]) + chunks[|chunks| - 1]
  }

  function FeedAll(c: Codec, chunks: seq<seq<byte>>): (o: Outcome)
    requires Sized(c)
  {
    if |chunks| == 0 then START else Resume(c, FeedAll(c, chunks[..|chunks| - 1]), chunks[|chunks| - 1])
  }

  /** Frames and final state depend on the bytes alone, not on where the feeds cut them. */
  lemma {:induction false} ChunkingIrrelevant(c: Codec, chunks: seq<seq<byte>>)
    requires Sized(c)
    ensures FeedAll(c, chunks) == Parse(c, Flatten(chunks))
  {
    if |chunks| > 0 {
      ChunkingIrrelevant(c, chunks[..|chunks| - 1]);
      ParseConcat(c, Flatten(chunks[..|chunks| - 1]), chunks[|chunks| - 1]);
    }
  }

  // ----- the language of complete streams -----

  predicate AllLegal(c: Codec, frames: seq<Frame>) {
    forall i :: 0 <= i < |frames| ==> c.legal(frames[i])
  }

  function EncodeAll(c: Codec, frames: seq<Frame>): (s: seq<byte>) {
    if |frames| == 0 then [] else c.encode(frames[0]) + EncodeAll(c, frames[1..])
  }

  predicate Complete(o: Outcome) {
    o.rest.Pending? && o.rest.buffer == []
  }

  /** A stream that ends between frames is exactly the encodings of what was delivered. */
  lemma {:induction false} CompleteStreams(c: Codec, s: seq<byte>)
    requires Lawful(c) && Complete(Parse(c, s))
    ensures AllLegal(c, Parse(c, s).frames) && EncodeAll(c, Parse(c, s).frames) == s
    decreases |s|
  {
    var front := FrontOf(c, s);
    if front.Whole? {
      var frames := Parse(c, s).frames;
      CompleteStreams(c, s[front.size..]);
      assert frames[1..] == Parse(c, s[front.size..]).frames;
      assert s == s[..front.size] + s[front.size..];
    }
  }

  /** Every concatenation of encodings is delivered completely, frame for frame. */
  lemma {:induction false} EncodedStreams(c: Codec, frames: seq<Frame>)
    requires Lawful(c) && AllLegal(c, frames)
    ensures Parse(c, EncodeAll(c, frames)) == Outcome(frames, Pending([], None))
  {
    if |frames| > 0 {
      var wire, s := c.encode(frames[0]), EncodeAll(c, frames);
      assert c.decode(wire) == Wire.Ok(frames[0]);
      assert s[..HEADER] == wire[..HEADER];
      assert s[..|wire|] == wire && s[|wire|..] == EncodeAll(c, frames[1..]);
      EncodedStreams(c, frames[1..]);
      assert frames == [frames[0]] + frames[1..];
    }
  }

  // ----- bounds -----

  /** A rest is what the parser makes of the waiting bytes alone: less than one frame. */
  ghost predicate Settled(c: Codec, rest: Rest)
    requires Sized(c)
  {
    rest.Pending? ==> |rest.buffer| < Wire.MAX_FRAME && Parse(c, rest.buffer) == Outcome([], rest)
  }

  lemma {:induction false} BufferBounded(c: Codec, s: seq<byte>)
    requires Sized(c)
    ensures Settled(c, Parse(c, s).rest)
    decreases |s|
  {
    var front := FrontOf(c, s);
    if front.Whole? {
      BufferBounded(c, s[front.size..]);
    }
  }

  lemma {:induction false} FramesNeedBytes(c: Codec, s: seq<byte>)
    requires Sized(c)
    ensures HEADER * |Parse(c, s).frames| <= |s|
    decreases |s|
  {
    var front := FrontOf(c, s);
    if front.Whole? {
      FramesNeedBytes(c, s[front.size..]);
    }
  }

  lemma FirstFrameIsNew(c: Codec, buffer: seq<byte>, chunk: seq<byte>)
    requires Sized(c)
    requires FrontOf(c, buffer).Short? || FrontOf(c, buffer).Partial?
    requires FrontOf(c, buffer + chunk).Whole?
    ensures FrontOf(c, buffer + chunk).size > |buffer|
  {
    if |buffer| >= HEADER {
      assert (buffer + chunk)[..HEADER] == buffer[..HEADER];
    }
  }

  /** A chunk completes at most one frame more than the whole headers it could hold. */
  lemma FramesPerChunk(c: Codec, o: Outcome, chunk: seq<byte>)
    requires Sized(c) && Settled(c, o.rest)
    ensures |Resume(c, o, chunk).frames| > |o.frames| ==>
              HEADER * (|Resume(c, o, chunk).frames| - |o.frames| - 1) < |chunk|
  {
    if o.rest.Pending? {
      var s := o.rest.buffer + chunk;
      if |Parse(c, s).frames| > 0 {
        FramesNeedBytes(c, s[FrontOf(c, s).size..]);
        FirstFrameIsNew(c, o.rest.buffer, chunk);
      }
    }
  }

  /** The collector reads 8 * 48 bytes a round, so a round never completes a ninth frame. */
  lemma EightFramesPerRead(c: Codec, o: Outcome, chunk: seq<byte>)
    requires Sized(c) && Settled(c, o.rest)
    requires |chunk| <= HEADER * 8
    ensures |Resume(c, o, chunk).frames| <= |o.frames| + 8
  {
    FramesPerChunk(c, o, chunk);
  }

  // ----- the decoder object -----

  datatype FeedStatus = Success | NeedMoreData | ProtocolError | AlreadyFailed

  datatype FeedResult = FeedResult(status: FeedStatus, frames: seq<Frame>, protocol: Option<Wire.Status>)

  class Decoder {
    const codec: Codec
    var buffer: seq<byte>
    var expected: Option<nat>
    var failed: bool
    var protocolError: Option<Wire.Status>

    /** Every byte handed to the decoder since it was created or last reset. */
    ghost var fed: seq<byte>

    /** The stream was declared over in the middle of a frame. */
    ghost var truncated: bool

    ghost function Current(): (rest: Rest)
      requires failed ==> protocolError.Some?
      reads this
    {
      if failed then Broken(protocolError.value) else Pending(buffer, expected)
    }

    ghost predicate Valid()
      reads this
    {
      && Sized(codec)
      && (failed ==> protocolError.Some? && buffer == [] && expected == None)
      && (if truncated then failed else Parse(codec, fed).rest == Current())
    }

    constructor (codec: Codec)
      requires Sized(codec)
      ensures Valid() && fed == [] && !truncated && this.codec == codec
    {
      this.codec := codec;
      buffer, expected, failed, protocolError, fed, truncated := [], None, false, None, [], false;
    }

    method Reset()
      requires Valid()
      modifies this
      ensures Valid() && fed == [] && !truncated && !failed
    {
      buffer, expected, failed, protocolError, fed, truncated := [], None, false, None, [], false;
    }

    method FailProtocol(status: Wire.Status)
      modifies this
      ensures failed && protocolError == Some(status) && buffer == [] && expected == None
      ensures fed == old(fed) && truncated == old(truncated)
    {
      failed, protocolError := true, Some(status);
      buffer, expected := [], None;
    }

    /** Moves bytes from `data` into the buffer until it holds `target` of them. */
    method Fill(data: seq<byte>, cursor: nat, target: nat) returns (next: nat)
      requires cursor <= |data| && |buffer| <= target
      modifies this`buffer
      ensures cursor <= next <= |data| && buffer == old(buffer) + data[cursor..next]
      ensures |buffer| == target || (|buffer| < target && next == |data|)
    {
      var take := Min(target - |buffer|, |data| - cursor);
      buffer := buffer + data[cursor..cursor + take];
      next := cursor + take;
    }

    /** One round: up to the next frame boundary, the end of `data` or the first error. */
    method Round(data: seq<byte>, cursor: nat) returns (next: nat, done: Option<Frame>)
      requires Sized(codec) && !failed && cursor < |data|
      requires Parse(codec, buffer) == Outcome([], Pending(buffer, expected))
      modifies this
      ensures fed == old(fed) && truncated == old(truncated) && cursor <= next <= |data|
      ensures failed ==> protocolError.Some? && buffer == [] && expected == None && done == None
      ensures !failed ==> cursor < next && (done.None? ==> next == |data|)
      ensures !failed ==> Parse(codec, buffer) == Outcome([], Pending(buffer, expected))
      ensures Parse(codec, old(buffer) + data[cursor..next])
              == Outcome(if done.Some? then [done.value] else [], Current())
    {
      next, done := cursor, None;
      ghost var held, whole := buffer, buffer;
      if expected.None? {
        next := Fill(data, next, HEADER);
        whole := buffer;
        if |buffer| < HEADER {
          return;
        }
        assert whole[..HEADER] == whole;
        var announced := codec.size(buffer);
        if announced.Err? {
          FailProtocol(announced.status);
          return;
        }
        expected := Some(announced.value);
      }
      assert buffer == held + data[cursor..next];
      ghost var header := buffer[..HEADER];
      assert codec.size(header) == Wire.Ok(expected.value);
      next := Fill(data, next, expected.value);
      whole := buffer;
      assert whole == held + data[cursor..next] && whole[..HEADER] == header;
      if |buffer| < expected.value {
        return;
      }
      assert whole[..|whole|] == whole && whole[|whole|..] == [];
      var decoded := codec.decode(buffer);
      if decoded.Err? {
        FailProtocol(decoded.status);
        return;
      }
      done := Some(decoded.value);
      buffer, expected := [], None;
    }

    /** Delivers the frames `data` completes; fails for good at the first malformed one. */
    method Feed(data: seq<byte>) returns (r: FeedResult)
      requires Valid()
      modifies this
      ensures Valid() && fed == old(fed) + data && truncated == old(truncated)
      ensures old(failed) ==> failed && r == FeedResult(AlreadyFailed, [], old(protocolError))
      ensures !truncated ==> Parse(codec, fed).frames == Parse(codec, old(fed)).frames + r.frames
      ensures r.status ==
        if old(failed) then AlreadyFailed else if failed then ProtocolError
        else if buffer == [] then Success else NeedMoreData
      ensures r.protocol == (if failed then protocolError else None)
    {
      ghost var before := fed;
      ghost var earlier := Parse(codec, before).frames;
      fed := fed + data;
      if failed {
        if !truncated {
          ParseConcat(codec, before, data);
        }
        return FeedResult(AlreadyFailed, [], protocolError);
      }
      var completed: seq<Frame> := [];
      var cursor := 0;
      BufferBounded(codec, before);
      assert before + data[..0] == before && earlier + [] == earlier;
      while cursor < |data| && !failed
        invariant 0 <= cursor <= |data|
        invariant fed == before + data && !truncated
        invariant failed ==> protocolError.Some? && buffer == [] && expected == None
        invariant Parse(codec, before + data[..cursor]) == Outcome(earlier + completed, Current())
        invariant !failed ==> Parse(codec, buffer) == Outcome([], Pending(buffer, expected))
        decreases !failed, |data| - cursor
      {
        ghost var start, held := cursor, buffer;
        var done;
        cursor, done := Round(data, cursor);
        Advance(codec, before, data, start, cursor, earlier + completed, held);
        if done.Some? {
          completed := completed + [done.value];
        }
      }
      if failed {
        BrokenStays(codec, before, data, cursor);
        return FeedResult(ProtocolError, completed, protocolError);
      }
      assert data[..|data|] == data;
      return FeedResult(if buffer == [] then Success else NeedMoreData, completed, None);
    }

    /**
     The end of the stream. Accepted exactly when it ends between two frames, that is
     when what was fed is the encodings of the frames delivered; a stream that stops
     inside a frame leaves the decoder failed.
     */
    method Finish() returns (r: FeedResult)
      requires Valid() && Lawful(codec)
      modifies this
      ensures Valid() && fed == old(fed) && r.frames == []
      ensures !old(truncated) ==> (r.status == Success <==> EncodeAll(codec, Parse(codec, fed).frames) == fed)
      ensures r.status == AlreadyFailed <==> old(failed)
      ensures r.status == Success ==> !failed && !truncated
      ensures r.status != Success ==> failed && r.protocol == protocolError && protocolError.Some?
      ensures r.status == ProtocolError ==>
        r.protocol == Some(if |old(buffer)| < HEADER then Wire.ShortHeader else Wire.InvalidTotalLength)
    {
      EndsBetweenFrames(codec, fed);
      if failed {
        return FeedResult(AlreadyFailed, [], protocolError);
      }
      if buffer == [] {
        return FeedResult(Success, [], None);
      }
      FailProtocol(if |buffer| < HEADER then Wire.ShortHeader else Wire.InvalidTotalLength);
      truncated := true;
      return FeedResult(ProtocolError, [], protocolError);
    }
  }

  /** A stream ends between frames exactly when it is the encodings of its frames. */
  lemma EndsBetweenFrames(c: Codec, s: seq<byte>)
    requires Lawful(c)
    ensures Complete(Parse(c, s)) <==> EncodeAll(c, Parse(c, s).frames) == s
  {
    if Complete(Parse(c, s)) {
      CompleteStreams(c, s);
    } else if EncodeAll(c, Parse(c, s).frames) == s {
      FramesLegal(c, s);
      EncodedStreams(c, Parse(c, s).frames);
    }
  }

  lemma {:induction false} FramesLegal(c: Codec, s: seq<byte>)
    requires Lawful(c)
    ensures AllLegal(c, Parse(c, s).frames)
    decreases |s|
  {
    var front := FrontOf(c, s);
    if front.Whole? {
      FramesLegal(c, s[front.size..]);
    }
  }

  function Min(a: nat, b: nat): (m: nat) {
    if a <= b then a else b
  }

  lemma Advance(c: Codec, before: seq<byte>, data: seq<byte>, start: nat, cursor: nat, frames: seq<Frame>,
                held: seq<byte>)
    requires Sized(c) && start <= cursor <= |data|
    requires var o := Parse(c, before + data[..start]);
      o.frames == frames && o.rest.Pending? && o.rest.buffer == held
    ensures var more := Parse(c, held + data[start..cursor]);
      Parse(c, before + data[..cursor]) == Outcome(frames + more.frames, more.rest)
  {
    ParseConcat(c, before + data[..start], data[start..cursor]);
    assert before + data[..start] + data[start..cursor] == before + data[..cursor];
  }

  lemma BrokenStays(c: Codec, before: seq<byte>, data: seq<byte>, cursor: nat)
    requires Sized(c) && cursor <= |data|
    requires Parse(c, before + data[..cursor]).rest.Broken?
    ensures Parse(c, before + data) == Parse(c, before + data[..cursor])
  {
    ParseConcat(c, before + data[..cursor], data[cursor..]);
    assert before + data[..cursor] + data[cursor..] == before + data;
  }
}
