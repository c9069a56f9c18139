/**
 Uploads: the asynchronous intake of a body into a temporary file, hashed chunk by chunk as
 it is written. `Transfer` is one upload as a value, with its steps as functions; the class
 `Intake` is the receiver with its event loop and worker, and its methods are those steps.

 Main result: whenever the finalizer may run, the file is exactly the announced leading part
 of the body and the streamed hash is its digest (`Intake.Finalize`). `ObjectStore` goes on
 from there.
 */
module Upload {
  import opened Bytes
  import opened MonitorData

  const CHUNK: nat := 64 * 1024

  // ----- hashing -----

  type Hash = string

  /** A hash computed piece by piece: a register, how bytes change it, and the name it yields. */
  datatype Hasher<!S> = Hasher(start: S, absorb: (S, seq<byte>) -> S, finish: S -> Hash)

  /** Absorbing in pieces is absorbing the whole. */
  ghost predicate Streaming<S(!new)>(h: Hasher<S>) {
    && (forall s: S :: h.absorb(s, []) == s)
    && (forall s: S, a: seq<byte>, b: seq<byte> {:trigger h.absorb(s, a + b)} ::
          h.absorb(h.absorb(s, a), b) == h.absorb(s, a + b))
  }

  function Digest<S>(h: Hasher<S>, content: seq<byte>): (hash: Hash) {
    h.finish(h.absorb(h.start, content))
  }

  /** Different contents of one length under one name. */
  ghost predicate Collide<S>(h: Hasher<S>, a: seq<byte>, b: seq<byte>) {
    a != b && |a| == |b| && Digest(h, a) == Digest(h, b)
  }

  /** Every function of the content is such a hash, by a register that remembers all of it. */
  lemma EveryDigestStreams(digest: seq<byte> -> Hash)
    ensures exists h: Hasher<seq<byte>> ::
      Streaming(h) && forall content: seq<byte> :: Digest(h, content) == digest(content)
  {
    var h := Hasher([], (s: seq<byte>, a: seq<byte>) => s + a, digest);
    forall s: seq<byte> ensures h.absorb(s, []) == s {
      assert s + [] == s;
    }
    forall s: seq<byte>, a: seq<byte>, b: seq<byte> ensures h.absorb(h.absorb(s, a), b) == h.absorb(s, a + b) {
      assert s + a + b == s + (a + b);
    }
    assert Streaming(h);
    forall content: seq<byte> ensures Digest(h, content) == digest(content) {
      assert [] + content == content;
    }
  }

  lemma AbsorbNext<S(!new)>(h: Hasher<S>, content: seq<byte>, offset: nat, n: nat)
    requires Streaming(h) && offset + n <= |content|
    ensures h.absorb(h.absorb(h.start, content[..offset]), content[offset..offset + n])
            == h.absorb(h.start, content[..offset + n])
  {
    var a, b := content[..offset], content[offset..offset + n];
    assert a + b == content[..offset + n];
    assert h.absorb(h.absorb(h.start, a), b) == h.absorb(h.start, a + b);
  }

  /** No answer is an error or says that nothing more can be read or written. */
  ghost predicate Goes(answers: nat -> int) {
    forall k: nat :: answers(k) > 0
  }

  /**
   Hashes a file from its start, in reads of any length; nothing if a read fails. `answers` are
   the answers of the operating system, which never exceed what was asked for.
   */
  method HashFile<S(!new)>(h: Hasher<S>, content: seq<byte>, answers: nat -> int) returns (hash: Option<Hash>)
    requires Streaming(h)
    ensures hash.Some? ==> hash.value == Digest(h, content)
    ensures Goes(answers) ==> hash.Some?
  {
    var register, offset, k := h.start, 0, 0;
    while offset < |content|
      invariant 0 <= offset <= |content| && register == h.absorb(h.start, content[..offset])
    {
      if answers(k) <= 0 {
        return None;
      }
      var n := Min3(answers(k), CHUNK, |content| - offset);
      AbsorbNext(h, content, offset, n);
      register := h.absorb(register, content[offset..offset + n]);
      offset, k := offset + n, k + 1;
    }
    assert content[..|content|] == content;
    return Some(h.finish(register));
  }

  // ----- one upload -----

  /** Where a transfer stands: received, hashed, synced, linked, its directory synced, its row written. */
  datatype Stage =
    | Receiving
    | Named(hash: Hash)
    | Flushed(hash: Hash)
    | Linked(hash: Hash)
    | Settled(hash: Hash)
    | Registered(hash: Hash)
    | Dropped

  /**
   `body` is everything the connection has received, `done` bytes of it are in the file and
   in the hash; `chunk` comes next and is at the worker, with `written` bytes in the file.
   `synced`: the file was flushed after the last write.
   */
  datatype Transfer<!S> = Transfer(
    size: nat, body: seq<byte>, done: nat, chunk: seq<byte>, written: nat, file: seq<byte>, register: S, synced: bool,
    stage: Stage)

  function Fresh<S>(h: Hasher<S>, size: nat): (u: Transfer<S>) {
    Transfer(size, [], 0, [], 0, [], h.start, false, Receiving)
  }

  function Arrived<S>(u: Transfer<S>, data: seq<byte>): (next: Transfer<S>) {
    u.(body := u.body + data)
  }

  predicate CanTake<S>(u: Transfer<S>, count: nat) {
    u.stage == Receiving && u.chunk == [] && 0 < count && u.done + count <= u.size && u.done + count <= |u.body|
  }

  function Took<S>(u: Transfer<S>, count: nat): (next: Transfer<S>)
    requires CanTake(u, count)
  {
    u.(chunk := u.body[u.done..u.done + count], written := 0)
  }

  predicate CanWrite<S>(u: Transfer<S>, n: nat) {
    u.stage == Receiving && u.written + n <= |u.chunk|
  }

  function Wrote<S>(u: Transfer<S>, n: nat): (next: Transfer<S>)
    requires CanWrite(u, n)
  {
    u.(file := u.file + u.chunk[u.written..u.written + n], written := u.written + n, synced := false)
  }

  /** The whole chunk is in the file and goes into the hash. */
  predicate CanAbsorb<S>(u: Transfer<S>) {
    u.stage == Receiving && u.chunk != [] && u.written == |u.chunk|
  }

  function Absorbed<S>(h: Hasher<S>, u: Transfer<S>): (next: Transfer<S>) {
    u.(register := h.absorb(u.register, u.chunk), done := u.done + |u.chunk|, chunk := [], written := 0)
  }

  /** Everything announced is in the file. */
  predicate CanName<S>(u: Transfer<S>) {
    u.stage == Receiving && u.done == u.size && u.chunk == []
  }

  predicate Advanced(stage: Stage) {
    stage != Receiving && stage != Dropped
  }

  /** The file is the leading part of the body. */
  predicate Placed<S>(u: Transfer<S>) {
    && u.done + |u.chunk| <= u.size && u.done + |u.chunk| <= |u.body| && u.written <= |u.chunk|
    && u.chunk == u.body[u.done..u.done + |u.chunk|] && u.file == u.body[..u.done + u.written]
    && (Advanced(u.stage) ==> u.done == u.size && u.chunk == [])
  }

  /** What was hashed is the leading part of the body. */
  predicate Hashed<S(==)>(h: Hasher<S>, u: Transfer<S>) {
    && u.done <= |u.body| && u.register == h.absorb(h.start, u.body[..u.done])
    && (Advanced(u.stage) ==> u.stage.hash == Digest(h, u.body[..u.done]))
  }

  predicate Good<S(==)>(h: Hasher<S>, u: Transfer<S>) {
    Placed(u) && Hashed(h, u)
  }

  lemma FreshIsGood<S(!new)>(h: Hasher<S>, size: nat)
    requires Streaming(h)
    ensures Good(h, Fresh(h, size))
  {
    var u := Fresh(h, size);
    assert u.body[..0] == [];
  }

  lemma ArrivedIsGood<S(!new)>(h: Hasher<S>, u: Transfer<S>, data: seq<byte>)
    requires Good(h, u)
    ensures Good(h, Arrived(u, data))
  {
    var body := u.body + data;
    assert body[..u.done] == u.body[..u.done];
    assert body[..u.done + u.written] == u.body[..u.done + u.written];
    assert body[u.done..u.done + |u.chunk|] == u.body[u.done..u.done + |u.chunk|];
  }

  lemma TookIsGood<S(!new)>(h: Hasher<S>, u: Transfer<S>, count: nat)
    requires Good(h, u) && CanTake(u, count)
    ensures Good(h, Took(u, count))
  {
  }

  lemma WroteIsPlaced<S>(u: Transfer<S>, n: nat)
    requires Placed(u) && CanWrite(u, n)
    ensures Placed(Wrote(u, n))
  {
    var at := u.done + u.written;
    assert u.chunk[u.written..u.written + n] == u.body[at..at + n];
    assert u.body[..at] + u.body[at..at + n] == u.body[..at + n];
  }

  lemma WroteIsGood<S(!new)>(h: Hasher<S>, u: Transfer<S>, n: nat)
    requires Good(h, u) && CanWrite(u, n)
    ensures Good(h, Wrote(u, n))
  {
    WroteIsPlaced(u, n);
  }

  lemma AbsorbedIsGood<S(!new)>(h: Hasher<S>, u: Transfer<S>)
    requires Streaming(h) && Good(h, u) && CanAbsorb(u)
    ensures Good(h, Absorbed(h, u))
  {
    AbsorbNext(h, u.body, u.done, |u.chunk|);
  }

  lemma NamedIsGood<S(!new)>(h: Hasher<S>, u: Transfer<S>)
    requires Good(h, u) && CanName(u)
    ensures Good(h, u.(stage := Named(h.finish(u.register)))) && u.file == u.body[..u.size]
  {
  }

  // ----- the receiver -----

  lemma TailGrows(body: seq<byte>, data: seq<byte>, k: nat)
    requires k <= |body|
    ensures (body + data)[k..] == body[k..] + data
  {
  }

  lemma TailSplits(body: seq<byte>, k: nat, n: nat)
    requires k + n <= |body|
    ensures body[k..][..n] == body[k..k + n] && body[k..][n..] == body[k + n..]
  {
  }

  /** `Done`: the worker is done, the loop has not yet run the result's callback. */
  datatype Job = NoJob | Opening | Writing(data: seq<byte>) | Done | Finishing

  datatype Phase = Preparing | Accepting | Finalizing | Failed

  function InFlight(job: Job): (data: seq<byte>) {
    if job.Writing? then job.data else []
  }

  class Intake<S(!new, ==)> {
    const hasher: Hasher<S>
    const size: nat
    var phase: Phase
    var remaining: nat
    var finishRequested: bool
    var job: Job
    var file: seq<byte>
    var register: S
    var buffer: seq<byte>

    /** Everything the connection has received after the request line. */
    ghost var body: seq<byte>

    /** The receiver as a value. */
    ghost function View(): (u: Transfer<S>)
      reads this
    {
      Transfer(size, body, |file|, InFlight(job), 0, file, register, false, Receiving)
    }

    ghost predicate Valid()
      reads this
    {
      && remaining <= size
      && (phase != Failed ==> Good(hasher, View()) && |file| + |InFlight(job)| == size - remaining)
      && (phase != Failed ==> buffer == body[size - remaining..])
      && (finishRequested ==> remaining == 0)
      && (job == Finishing ==> finishRequested)
      && (job.Writing? ==> job.data != [])
      && (phase == Preparing ==> job == Opening && !finishRequested)
      && (phase == Accepting ==> job != Opening && job != Finishing && !finishRequested)
    }

    constructor (hasher: Hasher<S>, size: nat)
      requires Streaming(hasher)
      ensures Valid() && body == [] && phase == Preparing && this.size == size && this.hasher == hasher
    {
      this.hasher, this.size := hasher, size;
      phase, remaining, finishRequested, job := Preparing, size, false, Opening;
      file, register, buffer, body := [], hasher.start, [], [];
      new;
      FreshIsGood(hasher, size);
      assert View() == Fresh(hasher, size);
    }

    method Arrive(data: seq<byte>)
      requires Valid()
      modifies this
      ensures Valid() && phase == old(phase) && View() == Arrived(old(View()), data)
    {
      if phase != Failed {
        ArrivedIsGood(hasher, View(), data);
        TailGrows(body, data, size - remaining);
      }
      ghost var u := Arrived(View(), data);
      buffer, body := buffer + data, body + data;
      assert View() == u;
    }

    /** The temporary file is open; an empty body is complete at once. */
    method Opened()
      requires Valid() && phase == Preparing
      modifies this
      ensures Valid() && View() == old(View()) && phase == (if size == 0 then Finalizing else Accepting)
      ensures finishRequested == (size == 0) && job == (if size == 0 then Finishing else NoJob)
    {
      job, phase := NoJob, Accepting;
      if size == 0 {
        phase := Finalizing;
        RequestFinish();
      }
    }

    /** The writer's `finish`: at once when idle, else when the last chunk is on disk. */
    method RequestFinish()
      requires Valid() && remaining == 0 && phase == Finalizing && job != Opening && !finishRequested
      modifies `finishRequested, `job
      ensures Valid() && finishRequested
      ensures job == if old(job) == NoJob then Finishing else old(job)
    {
      finishRequested := true;
      if job == NoJob {
        job := Finishing;
      }
    }

    /** Moves one chunk out of the network buffer; later bytes stay there. */
    method Feed(accepted: bool) returns (count: nat)
      requires Valid() && phase == Accepting
      modifies this
      ensures Valid() && body == old(body) && phase == (if accepted || count == 0 then Accepting else Failed)
      ensures count == if old(job) == NoJob then Min3(old(remaining), |old(buffer)|, 65536) else 0
      ensures count == 0 || phase == Failed ==> View() == old(View()) && job == old(job)
      ensures count > 0 && phase == Accepting ==> CanTake(old(View()), count) && View() == Took(old(View()), count)
    {
      count := 0;
      if job != NoJob || finishRequested {
        return;
      }
      count := Min3(remaining, |buffer|, CHUNK);
      if count == 0 {
        return;
      }
      if !accepted {
        phase := Failed;
        return;
      }
      TookIsGood(hasher, View(), count);
      TailSplits(body, size - remaining, count);
      ghost var u := Took(View(), count);
      job := Writing(buffer[..count]);
      buffer := buffer[count..];
      remaining := remaining - count;
      assert View() == u;
    }

    /** One call from the connection; an error unless the body is being received. */
    method Consume(accepted: bool) returns (count: Option<nat>)
      requires Valid()
      modifies this
      ensures Valid() && body == old(body)
      ensures old(phase) != Accepting ==> count == None && phase == old(phase) && View() == old(View())
      ensures phase == Failed ==> count == None
      ensures old(phase) == Accepting && phase != Failed ==>
        && count.Some? && count.value <= |old(buffer)| && buffer == old(buffer)[count.value..]
        && (phase == Finalizing <==> remaining == 0) && finishRequested == (remaining == 0)
    {
      if phase != Accepting {
        return None;
      }
      var moved := Feed(accepted);
      count := if phase == Failed then None else Some(moved);
      if phase == Accepting && remaining == 0 {
        phase := Finalizing;
        RequestFinish();
      }
    }

    /** The write loop: the whole chunk reaches the file, in pieces, or the file is spoilt. */
    method WriteChunk(data: seq<byte>, writes: nat -> int) returns (ok: bool)
      modifies `file
      ensures ok ==> file == old(file) + data
      ensures Goes(writes) ==> ok
    {
      var written, k := 0, 0;
      while written < |data|
        invariant 0 <= written <= |data| && file == old(file) + data[..written]
      {
        if writes(k) <= 0 {
          return false;
        }
        var n := if writes(k) < |data| - written then writes(k) else |data| - written;
        file := file + data[written..written + n];
        assert data[..written] + data[written..written + n] == data[..written + n];
        written, k := written + n, k + 1;
      }
      assert data[..|data|] == data;
      return true;
    }

    /** A worker writes the chunk and hashes it; an error spoils the file for good. */
    method Append(writes: nat -> int) returns (ok: bool)
      requires Valid() && Streaming(hasher) && job.Writing? && phase != Failed
      modifies `file, `register, `job, `phase
      ensures Valid() && finishRequested == old(finishRequested)
      ensures ok ==>
        && job == Done && phase == old(phase) && CanWrite(old(View()), |old(job).data|)
        && CanAbsorb(Wrote(old(View()), |old(job).data|))
        && View() == Absorbed(hasher, Wrote(old(View()), |old(job).data|))
      ensures !ok ==> phase == Failed
      ensures Goes(writes) ==> ok
    {
      var data := job.data;
      WroteIsGood(hasher, View(), |data|);
      AbsorbedIsGood(hasher, Wrote(View(), |data|));
      assert data[0..|data|] == data;
      ok := WriteChunk(data, writes);
      if !ok {
        phase := Failed;
        return;
      }
      register := hasher.absorb(register, data);
      job := Done;
    }

    /** The loop learns that the chunk is on disk; a pending finish follows now. */
    method OnWritten()
      requires Valid() && job == Done
      modifies this
      ensures Valid() && View() == old(View()) && phase == old(phase)
      ensures job == if finishRequested then Finishing else NoJob
    {
      job := if finishRequested then Finishing else NoJob;
    }

    /** Where the finalizer runs: the file is the announced part of the body, and `hash` its digest. */
    method Finalize() returns (content: seq<byte>, hash: Hash)
      requires Valid() && job == Finishing && phase != Failed
      ensures CanName(View()) && size <= |body|
      ensures content == body[..size] && hash == Digest(hasher, content) && buffer == body[size..]
    {
      NamedIsGood(hasher, View());
      content, hash := file, hasher.finish(register);
    }
  }

  function Min3(a: nat, b: nat, c: nat): (m: nat)
    ensures m <= a && m <= b && m <= c && (m == a || m == b || m == c)
  {
    if a <= b && a <= c then a else if b <= c then b else c
  }
}
