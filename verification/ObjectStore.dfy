/**
 The object directory and the table of file rows, under any number of concurrent uploads and
 power losses of the machine. An upload syncs its file, links it under its hash or compares
 it with the object already there, syncs the directory and only then registers a row.

 Main results: at every point of every run, power losses included, a row's hash is the digest
 of the announced leading part of its upload's body, and the object of that name is there and
 is that part unless the digest function collides (`RowsHoldUploads`); a row's object is on
 the medium, so that no power loss takes it (`RowsAreDurable`); and an object on the medium
 never changes (`DurableObjectsStay`). The database is taken to keep its rows.
 */
module ObjectStore {
  import opened Bytes
  import opened MonitorData
  import opened Upload

  /** An object as it lies in the directory; `synced`: flushed after the last write. */
  datatype File = File(content: seq<byte>, synced: bool)

  type Objects = map<Hash, File>

  /** An object already there must have the size and the hash of the new one. */
  predicate CanLink<S>(h: Hasher<S>, objects: Objects, size: nat, hash: Hash) {
    hash in objects ==> |objects[hash].content| == size && Digest(h, objects[hash].content) == hash
  }

  function WithObject(objects: Objects, hash: Hash, file: File): (next: Objects) {
    if hash in objects then objects else objects[hash := file]
  }

  /**
   fsync of the temporary file, link(2) or a comparison with what is there, fsync of the
   directory; nothing on an error. `flushed`, `answers` and `directorySynced` are the answers of
   the operating system.
   */
  method Publish<S(!new)>(h: Hasher<S>, objects: Objects, content: seq<byte>, size: nat, hash: Hash, flushed: bool,
                          answers: nat -> int, directorySynced: bool)
    returns (next: Option<Objects>)
    requires Streaming(h)
    ensures next.Some? ==>
      CanLink(h, objects, size, hash) && next.value == WithObject(objects, hash, File(content, true))
    ensures next.Some? ==> flushed && directorySynced
    ensures flushed && directorySynced && Goes(answers) && CanLink(h, objects, size, hash) ==> next.Some?
  {
    if !flushed {
      return None;
    }
    next := Some(objects);
    if hash in objects {
      var existing := HashFile(h, objects[hash].content, answers);
      if |objects[hash].content| != size || existing != Some(hash) {
        return None;
      }
    } else {
      next := Some(objects[hash := File(content, true)]);
    }
    if !directorySynced {
      return None;
    }
  }

  // ----- steps -----

  /** A file row names an object; `upload` is the transfer it was registered for. */
  datatype Row = Row(hash: Hash, upload: nat)

  /** `durable` are the names whose directory entries are on the medium for certain. */
  datatype Storage<!S> = Storage(
    objects: Objects, durable: set<Hash>, rows: map<string, Row>, uploads: seq<Transfer<S>>)

  /** What happens to one upload. */
  datatype Act =
    | Arrive(data: seq<byte>)
    | Take(count: nat)
    | Write(n: nat)
    | Absorb
    | Name
    | SyncFile
    | Link
    | SyncDirectory
    | Register(name: string)
    | Fail

  datatype Step = Start(size: nat) | Move(i: nat, act: Act) | Unregister(name: string) | PowerLoss

  predicate CanMove<S>(h: Hasher<S>, s: Storage<S>, act: Act, u: Transfer<S>) {
    match act
    case Arrive(_) => true
    case Take(count) => CanTake(u, count)
    case Write(n) => CanWrite(u, n)
    case Absorb => CanAbsorb(u)
    case Name => CanName(u)
    case SyncFile => u.stage.Named?
    case Link => u.stage.Flushed? && CanLink(h, s.objects, u.size, u.stage.hash)
    case SyncDirectory => u.stage.Linked?
    case Register(name) => u.stage.Settled? && name !in s.rows
    case Fail => !u.stage.Registered?
  }

  function Moved<S>(h: Hasher<S>, s: Storage<S>, act: Act, u: Transfer<S>): (next: Transfer<S>)
    requires CanMove(h, s, act, u)
  {
    match act
    case Arrive(data) => Arrived(u, data)
    case Take(count) => Took(u, count)
    case Write(n) => Wrote(u, n)
    case Absorb => Absorbed(h, u)
    case Name => u.(stage := Named(h.finish(u.register)))
    case SyncFile => u.(stage := Flushed(u.stage.hash), synced := true)
    case Link => u.(stage := Linked(u.stage.hash))
    case SyncDirectory => u.(stage := Settled(u.stage.hash))
    case Register(_) => u.(stage := Registered(u.stage.hash))
    case Fail => u.(stage := Dropped)
  }

  function MovedObjects<S>(h: Hasher<S>, s: Storage<S>, act: Act, u: Transfer<S>): (next: Objects)
    requires CanMove(h, s, act, u)
  {
    match act
    case Link => WithObject(s.objects, u.stage.hash, File(u.file, u.synced))
    case _ => s.objects
  }

  function MovedRows<S>(h: Hasher<S>, s: Storage<S>, act: Act, i: nat, u: Transfer<S>): (next: map<string, Row>)
    requires CanMove(h, s, act, u)
  {
    match act
    case Register(name) => s.rows[name := Row(u.stage.hash, i)]
    case _ => s.rows
  }

  /** The process dies with its transfers; what is registered is history. */
  function Interrupted<S>(u: Transfer<S>): (next: Transfer<S>) {
    if u.stage.Registered? then u else u.(stage := Dropped)
  }

  /**
   What a power loss leaves: every durable entry and any of the others, one that was not
   synced with any content.
   */
  ghost predicate Survives(objects: Objects, durable: set<Hash>, next: Objects) {
    && durable <= next.Keys <= objects.Keys
    && forall hash <- next :: objects[hash].synced ==> next[hash] == objects[hash]
  }

  ghost predicate Next<S(!new)>(h: Hasher<S>, s: Storage<S>, step: Step, next: Storage<S>) {
    match step
    case Start(size) => next == s.(uploads := s.uploads + [Fresh(h, size)])
    case Unregister(name) => next == s.(rows := s.rows - {name})
    case Move(i, act) =>
      && i < |s.uploads| && CanMove(h, s, act, s.uploads[i])
      && next == Storage(MovedObjects(h, s, act, s.uploads[i]),
                         if act.SyncDirectory? then s.objects.Keys else s.durable,
                         MovedRows(h, s, act, i, s.uploads[i]),
                         s.uploads[i := Moved(h, s, act, s.uploads[i])])
    case PowerLoss =>
      && Survives(s.objects, s.durable, next.objects) && next.durable == next.objects.Keys && next.rows == s.rows
      && |next.uploads| == |s.uploads|
      && forall i :: 0 <= i < |s.uploads| ==> next.uploads[i] == Interrupted(s.uploads[i])
  }

  // ----- what every run keeps -----

  ghost predicate UploadOk<S(!new)>(h: Hasher<S>, objects: Objects, durable: set<Hash>, u: Transfer<S>) {
    && Good(h, u)
    && (u.stage.Flushed? ==> u.synced)
    && (u.stage.Linked? || u.stage.Settled? || u.stage.Registered? ==>
          u.stage.hash in objects && |objects[u.stage.hash].content| == u.size)
    && (u.stage.Settled? || u.stage.Registered? ==> u.stage.hash in durable)
  }

  ghost predicate RowOk<S(!new)>(s: Storage<S>, row: Row) {
    row.upload < |s.uploads| && s.uploads[row.upload].stage == Registered(row.hash)
  }

  ghost predicate ObjectsOk<S(!new)>(h: Hasher<S>, objects: Objects) {
    forall hash <- objects :: objects[hash].synced && Digest(h, objects[hash].content) == hash
  }

  /** What is on the medium stays as it is. */
  ghost predicate Keeps(objects: Objects, durable: set<Hash>, next: Objects) {
    forall hash <- durable :: hash in objects && hash in next && next[hash] == objects[hash]
  }

  ghost predicate Extends(objects: Objects, next: Objects) {
    forall hash <- objects :: hash in next && next[hash] == objects[hash]
  }

  ghost predicate Ok<S(!new)>(h: Hasher<S>, s: Storage<S>) {
    && ObjectsOk(h, s.objects) && s.durable <= s.objects.Keys
    && (forall i :: 0 <= i < |s.uploads| ==> UploadOk(h, s.objects, s.durable, s.uploads[i]))
    && (forall name <- s.rows :: RowOk(s, s.rows[name]))
  }

  lemma MovedIsGood<S(!new)>(h: Hasher<S>, s: Storage<S>, act: Act, u: Transfer<S>)
    requires Streaming(h) && Good(h, u) && CanMove(h, s, act, u)
    ensures Good(h, Moved(h, s, act, u))
  {
    match act
    case Arrive(data) => ArrivedIsGood(h, u, data);
    case Take(count) => TookIsGood(h, u, count);
    case Write(n) => WroteIsGood(h, u, n);
    case Absorb => AbsorbedIsGood(h, u);
    case Name => NamedIsGood(h, u);
    case _ =>
  }

  lemma MovedKeepsUpload<S(!new)>(h: Hasher<S>, s: Storage<S>, act: Act, u: Transfer<S>, durable: set<Hash>)
    requires Streaming(h) && UploadOk(h, s.objects, s.durable, u) && CanMove(h, s, act, u)
    requires s.durable <= s.objects.Keys && durable == if act.SyncDirectory? then s.objects.Keys else s.durable
    ensures UploadOk(h, MovedObjects(h, s, act, u), durable, Moved(h, s, act, u))
  {
    MovedIsGood(h, s, act, u);
  }

  /** What is linked is synced and named by its content; what was there stays. */
  lemma MovedKeepsObjects<S(!new)>(h: Hasher<S>, s: Storage<S>, act: Act, u: Transfer<S>)
    requires UploadOk(h, s.objects, s.durable, u) && CanMove(h, s, act, u) && ObjectsOk(h, s.objects)
    ensures ObjectsOk(h, MovedObjects(h, s, act, u)) && Extends(s.objects, MovedObjects(h, s, act, u))
  {
    if act.Link? {
      assert u.file == u.body[..u.done];
    }
  }

  lemma MoveKeepsUploads<S(!new)>(h: Hasher<S>, s: Storage<S>, i: nat, act: Act, next: Storage<S>)
    requires Streaming(h) && Ok(h, s) && Next(h, s, Move(i, act), next) && Extends(s.objects, next.objects)
    ensures forall j :: 0 <= j < |next.uploads| ==> UploadOk(h, next.objects, next.durable, next.uploads[j])
  {
    assert UploadOk(h, s.objects, s.durable, s.uploads[i]);
    MovedKeepsUpload(h, s, act, s.uploads[i], next.durable);
    forall j | 0 <= j < |next.uploads| ensures UploadOk(h, next.objects, next.durable, next.uploads[j]) {
      assert UploadOk(h, s.objects, s.durable, s.uploads[j]);
      if j != i {
        OthersStayOk(h, s.objects, s.durable, next.objects, next.durable, s.uploads[j]);
      }
    }
  }

  lemma OthersStayOk<S(!new)>(h: Hasher<S>, objects: Objects, durable: set<Hash>, next: Objects, nextDurable: set<Hash>,
                              u: Transfer<S>)
    requires UploadOk(h, objects, durable, u) && Extends(objects, next) && durable <= nextDurable
    ensures UploadOk(h, next, nextDurable, u)
  {
  }

  lemma MoveKeepsRows<S(!new)>(h: Hasher<S>, s: Storage<S>, i: nat, act: Act, next: Storage<S>)
    requires Ok(h, s) && Next(h, s, Move(i, act), next)
    ensures forall name <- next.rows :: RowOk(next, next.rows[name])
  {
    forall name <- next.rows ensures RowOk(next, next.rows[name]) {
      assert name in s.rows ==> RowOk(s, s.rows[name]);
    }
  }

  /** A power loss takes transfers under way, and nothing a row depends on. */
  lemma LossKeepsOk<S(!new)>(h: Hasher<S>, s: Storage<S>, next: Storage<S>)
    requires Ok(h, s) && Next(h, s, PowerLoss, next)
    ensures Ok(h, next) && Keeps(s.objects, s.durable, next.objects)
  {
    forall i | 0 <= i < |next.uploads| ensures UploadOk(h, next.objects, next.durable, next.uploads[i]) {
      assert UploadOk(h, s.objects, s.durable, s.uploads[i]);
    }
    forall name <- next.rows ensures RowOk(next, next.rows[name]) {
      assert RowOk(s, s.rows[name]);
    }
  }

  lemma NextKeepsOk<S(!new)>(h: Hasher<S>, s: Storage<S>, step: Step, next: Storage<S>)
    requires Streaming(h) && Ok(h, s) && Next(h, s, step, next)
    ensures Ok(h, next) && s.durable <= next.durable && Keeps(s.objects, s.durable, next.objects)
  {
    match step
    case Start(size) =>
      FreshIsGood(h, size);
      assert forall name <- next.rows :: RowOk(s, s.rows[name]);
    case Unregister(_) =>
      assert forall name <- next.rows :: RowOk(s, s.rows[name]);
    case Move(i, act) =>
      assert UploadOk(h, s.objects, s.durable, s.uploads[i]);
      MovedKeepsObjects(h, s, act, s.uploads[i]);
      MoveKeepsUploads(h, s, i, act, next);
      MoveKeepsRows(h, s, i, act, next);
    case PowerLoss => LossKeepsOk(h, s, next);
  }

  ghost predicate Run<S(!new)>(h: Hasher<S>, states: seq<Storage<S>>, steps: seq<Step>) {
    && |states| == |steps| + 1 && states[0] == Storage(map[], {}, map[], [])
    && forall i :: 0 <= i < |steps| ==> Next(h, states[i], steps[i], states[i + 1])
  }

  lemma {:induction false} RunKeepsOk<S(!new)>(h: Hasher<S>, states: seq<Storage<S>>, steps: seq<Step>, k: nat)
    requires Streaming(h) && Run(h, states, steps) && k < |states|
    ensures Ok(h, states[k])
  {
    if k > 0 {
      RunKeepsOk(h, states, steps, k - 1);
      NextKeepsOk(h, states[k - 1], steps[k - 1], states[k]);
    }
  }

  /**
   At every point of every concurrent run, power losses included: the hash in a file row is
   the digest of the announced part of the body uploaded for it, and the object of that name
   is there and is this part, or the digest function has collided on the two.
   */
  lemma RowsHoldUploads<S(!new)>(h: Hasher<S>, states: seq<Storage<S>>, steps: seq<Step>, k: nat, name: string)
    requires Streaming(h) && Run(h, states, steps) && k < |states| && name in states[k].rows
    ensures var s := states[k]; var row := s.rows[name];
      && row.upload < |s.uploads|
      && var u := s.uploads[row.upload];
      && u.size <= |u.body| && row.hash == Digest(h, u.body[..u.size]) && row.hash in s.objects
      && var content := s.objects[row.hash].content;
      content == u.body[..u.size] || Collide(h, content, u.body[..u.size])
  {
    RunKeepsOk(h, states, steps, k);
    var s := states[k];
    assert RowOk(s, s.rows[name]);
    assert UploadOk(h, s.objects, s.durable, s.uploads[s.rows[name].upload]);
  }

  /** The object of a row is on the medium, whole: whatever a power loss leaves has it. */
  lemma RowsAreDurable<S(!new)>(h: Hasher<S>, states: seq<Storage<S>>, steps: seq<Step>, k: nat, name: string,
                                left: Objects)
    requires Streaming(h) && Run(h, states, steps) && k < |states| && name in states[k].rows
    requires Survives(states[k].objects, states[k].durable, left)
    ensures var hash := states[k].rows[name].hash;
      hash in left && hash in states[k].objects && left[hash] == states[k].objects[hash]
  {
    RunKeepsOk(h, states, steps, k);
    var s := states[k];
    assert RowOk(s, s.rows[name]);
    assert UploadOk(h, s.objects, s.durable, s.uploads[s.rows[name].upload]);
  }

  /** At every point every object's name is the digest of its content. */
  lemma ObjectsNamed<S(!new)>(h: Hasher<S>, states: seq<Storage<S>>, steps: seq<Step>, k: nat, hash: Hash)
    requires Streaming(h) && Run(h, states, steps) && k < |states| && hash in states[k].objects
    ensures Digest(h, states[k].objects[hash].content) == hash
  {
    RunKeepsOk(h, states, steps, k);
  }

  /** Breaks off upload `i`: a failure, or a power loss before its row was there. */
  predicate BreaksOff<S>(s: Storage<S>, step: Step, i: nat) {
    i < |s.uploads| && (step == Move(i, Fail) || (step.PowerLoss? && !s.uploads[i].stage.Registered?))
  }

  /** An upload that was broken off never gets a row. */
  lemma {:induction false} BrokenOffForGood<S(!new)>(h: Hasher<S>, states: seq<Storage<S>>, steps: seq<Step>,
                                                     j: nat, k: nat, i: nat)
    requires Streaming(h) && Run(h, states, steps) && j < k < |states| && BreaksOff(states[j], steps[j], i)
    ensures i < |states[k].uploads| && states[k].uploads[i].stage.Dropped?
    ensures forall name <- states[k].rows :: states[k].rows[name].upload != i
  {
    assert Next(h, states[k - 1], steps[k - 1], states[k]);
    if j < k - 1 {
      BrokenOffForGood(h, states, steps, j, k - 1, i);
    }
    RunKeepsOk(h, states, steps, k);
    assert forall name <- states[k].rows :: RowOk(states[k], states[k].rows[name]);
  }

  /** An object on the medium is never lost and never changes. */
  lemma {:induction false} DurableObjectsStay<S(!new)>(h: Hasher<S>, states: seq<Storage<S>>, steps: seq<Step>,
                                                       j: nat, k: nat, hash: Hash)
    requires Streaming(h) && Run(h, states, steps) && j <= k < |states| && hash in states[j].durable
    ensures hash in states[j].objects && hash in states[k].durable
    ensures hash in states[k].objects && states[k].objects[hash] == states[j].objects[hash]
  {
    RunKeepsOk(h, states, steps, j);
    if j < k {
      DurableObjectsStay(h, states, steps, j, k - 1, hash);
      RunKeepsOk(h, states, steps, k - 1);
      NextKeepsOk(h, states[k - 1], steps[k - 1], states[k]);
    }
  }

  /** Without a power loss no object is: once linked it stays as it is. */
  lemma {:induction false} LinkedObjectsStay<S(!new)>(h: Hasher<S>, states: seq<Storage<S>>, steps: seq<Step>,
                                                      j: nat, k: nat, hash: Hash)
    requires Streaming(h) && Run(h, states, steps) && j <= k < |states| && hash in states[j].objects
    requires forall i :: j <= i < k ==> steps[i] != PowerLoss
    ensures hash in states[k].objects && states[k].objects[hash] == states[j].objects[hash]
  {
    if j < k {
      LinkedObjectsStay(h, states, steps, j, k - 1, hash);
      assert Next(h, states[k - 1], steps[k - 1], states[k]);
    }
  }

  // ----- every upload can be completed -----

  ghost predicate Path<S(!new)>(h: Hasher<S>, states: seq<Storage<S>>, steps: seq<Step>) {
    && |states| == |steps| + 1
    && forall i :: 0 <= i < |steps| ==> Next(h, states[i], steps[i], states[i + 1])
  }

  ghost predicate Reaches<S(!new)>(h: Hasher<S>, s: Storage<S>, t: Storage<S>) {
    exists states: seq<Storage<S>>, steps: seq<Step> ::
      Path(h, states, steps) && states[0] == s && states[|steps|] == t
  }

  lemma OneStep<S(!new)>(h: Hasher<S>, s: Storage<S>, t: Storage<S>, step: Step, u: Storage<S>)
    requires Reaches(h, s, t) && Next(h, t, step, u)
    ensures Reaches(h, s, u)
  {
    var states: seq<Storage<S>>, steps: seq<Step> :|
      Path(h, states, steps) && states[0] == s && states[|steps|] == t;
    var more, longer := states + [u], steps + [step];
    assert Path(h, more, longer) && more[0] == s && more[|longer|] == u;
  }

  lemma Acts<S(!new)>(h: Hasher<S>, s: Storage<S>, t: Storage<S>, i: nat, act: Act) returns (u: Storage<S>)
    requires Reaches(h, s, t) && i < |t.uploads| && CanMove(h, t, act, t.uploads[i])
    ensures Reaches(h, s, u) && |u.uploads| == |t.uploads| && u.uploads[i] == Moved(h, t, act, t.uploads[i])
    ensures u.objects == MovedObjects(h, t, act, t.uploads[i]) && u.rows == MovedRows(h, t, act, i, t.uploads[i])
  {
    u := Storage(MovedObjects(h, t, act, t.uploads[i]), if act.SyncDirectory? then t.objects.Keys else t.durable,
                 MovedRows(h, t, act, i, t.uploads[i]), t.uploads[i := Moved(h, t, act, t.uploads[i])]);
    OneStep(h, s, t, Move(i, act), u);
  }

  /** The upload begins and its body arrives. */
  lemma Begun<S(!new)>(h: Hasher<S>, s: Storage<S>, body: seq<byte>) returns (t: Storage<S>, i: nat)
    ensures Reaches(h, s, t) && i < |t.uploads| && t.objects == s.objects && t.rows == s.rows
    ensures t.uploads[i] == Transfer(|body|, body, 0, [], 0, [], h.start, false, Receiving)
  {
    i := |s.uploads|;
    assert Path(h, [s], []) && [s][0] == s;
    t := s.(uploads := s.uploads + [Fresh(h, |body|)]);
    OneStep(h, s, s, Start(|body|), t);
    t := Acts(h, s, t, i, Arrive(body));
    assert [] + body == body;
  }

  /** The body is written and hashed, in one piece. */
  lemma Received<S(!new)>(h: Hasher<S>, s: Storage<S>, t: Storage<S>, i: nat, body: seq<byte>) returns (u: Storage<S>)
    requires Streaming(h) && Reaches(h, s, t) && i < |t.uploads|
    requires t.uploads[i] == Transfer(|body|, body, 0, [], 0, [], h.start, false, Receiving)
    ensures Reaches(h, s, u) && i < |u.uploads| && u.objects == t.objects && u.rows == t.rows
    ensures var x := u.uploads[i]; CanName(x) && x.register == h.absorb(h.start, body) && x.size == |body|
  {
    u := t;
    if |body| > 0 {
      u := Acts(h, s, u, i, Take(|body|));
      assert body[0..|body|] == body;
      u := Acts(h, s, u, i, Write(|body|));
      u := Acts(h, s, u, i, Absorb);
    } else {
      assert body == [] && h.absorb(h.start, []) == h.start;
    }
  }

  /**
   From every state, a body can be uploaded and registered under a free name, unless an object
   of another size already has its hash.
   */
  lemma CanUpload<S(!new)>(h: Hasher<S>, s: Storage<S>, body: seq<byte>, name: string) returns (t: Storage<S>)
    requires Streaming(h) && Ok(h, s) && name !in s.rows
    requires Digest(h, body) in s.objects ==> |s.objects[Digest(h, body)].content| == |body|
    ensures Reaches(h, s, t) && name in t.rows && t.rows[name].hash == Digest(h, body)
  {
    var i: nat;
    t, i := Begun(h, s, body);
    t := Received(h, s, t, i, body);
    t := Acts(h, s, t, i, Name);
    t := Acts(h, s, t, i, SyncFile);
    t := Acts(h, s, t, i, Link);
    t := Acts(h, s, t, i, SyncDirectory);
    t := Acts(h, s, t, i, Register(name));
  }

  // ----- reading an object -----

  /** Exactly the requested range, from reads of any length; nothing if it is not there or a read fails. */
  method ReadRange(content: seq<byte>, offset: int, count: nat, answers: nat -> int) returns (r: Option<seq<byte>>)
    ensures r.Some? ==> 0 <= offset && offset + count <= |content| && r.value == content[offset..offset + count]
    ensures 0 <= offset && offset + count <= |content| && Goes(answers) ==> r.Some?
  {
    if offset < 0 || offset > |content| || count > |content| - offset {
      return None;
    }
    var data: seq<byte>, k := [], 0;
    while |data| < count
      invariant |data| <= count && data == content[offset..offset + |data|]
    {
      if answers(k) <= 0 {
        return None;
      }
      var n := if answers(k) < count - |data| then answers(k) else count - |data|;
      data, k := data + content[offset + |data|..offset + |data| + n], k + 1;
    }
    return Some(data);
  }
}
