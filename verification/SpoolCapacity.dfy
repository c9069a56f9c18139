/**
 The byte cap of a spool over whole runs of system calls and power losses. A power loss may
 bring back a file whose unlinking was never synced, beside files stored since.

 Main results: a loss can take the spool past the cap exactly when the largest sizes its
 names have had since their directories were last synced add up to more
 (`LossPassesCapExactly`); without a removal left unsynced no loss can (`CapOverRuns`).
 */
module SpoolCapacity {
  import opened Bytes
  import opened MonitorData
  import opened SpoolDisk

  // ----- sums -----

  ghost function Total(sizes: map<Path, nat>): (n: nat)
    decreases |sizes.Keys|
  {
    if sizes.Keys == {} then 0
    else
      var p :| p in sizes.Keys;
      assert (sizes - {p}).Keys == sizes.Keys - {p};
      sizes[p] + Total(sizes - {p})
  }

  lemma {:induction false} TotalIsSum(sizes: map<Path, nat>, data: map<Path, Slot>)
    requires forall p <- sizes :: sizes[p] == SizeAt(data, p)
    ensures Total(sizes) == Sum(data, sizes.Keys)
    decreases |sizes.Keys|
  {
    if sizes.Keys != {} {
      var p :| p in sizes.Keys && Total(sizes) == sizes[p] + Total(sizes - {p});
      assert (sizes - {p}).Keys == sizes.Keys - {p};
      TotalIsSum(sizes - {p}, data);
      SumRemove(data, sizes.Keys, p);
    }
  }

  /** Names without a file add nothing. */
  lemma {:induction false} SumOfVacant(data: map<Path, Slot>, paths: set<Path>)
    requires forall p <- paths :: SizeAt(data, p) == 0
    ensures Sum(data, paths) == 0
    decreases |paths|
  {
    if paths != {} {
      var p :| p in paths;
      SumRemove(data, paths, p);
      SumOfVacant(data, paths - {p});
    }
  }

  lemma StoredIsSum(data: map<Path, Slot>, paths: set<Path>)
    requires Present(data) <= paths
    ensures Stored(data) == Sum(data, paths)
  {
    SumSplit(data, paths, Present(data));
    SumOfVacant(data, paths - Present(data));
  }

  lemma {:induction false} SumMonotone(a: map<Path, Slot>, b: map<Path, Slot>, paths: set<Path>)
    requires forall p <- paths :: SizeAt(a, p) <= SizeAt(b, p)
    ensures Sum(a, paths) <= Sum(b, paths)
    decreases |paths|
  {
    if paths != {} {
      var p :| p in paths;
      SumRemove(a, paths, p);
      SumRemove(b, paths, p);
      SumMonotone(a, b, paths - {p});
    }
  }

  lemma StoredMonotone(a: map<Path, Slot>, b: map<Path, Slot>)
    requires forall p: Path :: SizeAt(a, p) <= SizeAt(b, p)
    ensures Stored(a) <= Stored(b)
  {
    var paths := Present(a) + Present(b);
    StoredIsSum(a, paths);
    StoredIsSum(b, paths);
    SumMonotone(a, b, paths);
  }

  // ----- the worst a power loss can leave -----

  function Size(file: Option<File>): (n: nat) {
    if file.Some? then |file.value.bytes| else 0
  }

  ghost function Largest(files: set<Option<File>>): (f: Option<File>)
    requires files != {}
    ensures f in files && forall g <- files :: Size(g) <= Size(f)
  {
    var f :| f in files;
    if files == {f} then f
    else
      var g := Largest(files - {f});
      if Size(f) >= Size(g) then f else g
  }

  ghost function Worst(d: Disk): (next: Disk)
    requires forall p <- d.data :: d.data[p].durable != {}
  {
    d.(data := map p | p in d.data :: var f := Largest(d.data[p].durable); Slot(f, {f}))
  }

  lemma SoundHasContent(n: Naming, d: Disk)
    requires Sound(n, d)
    ensures forall p <- d.data :: d.data[p].durable != {}
  {
    forall p <- d.data ensures d.data[p].durable != {} {
      assert SoundSlot(n, p, At(d, p));
    }
  }

  lemma WorstIsALoss(n: Naming, d: Disk)
    requires Sound(n, d) && forall p <- d.data :: d.data[p].durable != {}
    ensures PowerLoss(d, Worst(d))
  {
    forall p: Path ensures LeftOver(At(d, p), At(Worst(d), p)) {
      assert Remains(At(d, p), At(Worst(d), p), At(Worst(d), p).current);
    }
  }

  /** No loss of a sound disk leaves more. */
  lemma WorstIsWorst(n: Naming, d: Disk, next: Disk)
    requires Sound(n, d) && (forall p <- d.data :: d.data[p].durable != {}) && PowerLoss(d, next)
    ensures Stored(next.data) <= Stored(Worst(d).data)
  {
    forall p: Path ensures SizeAt(next.data, p) <= SizeAt(Worst(d).data, p) {
      assert SoundSlot(n, p, At(d, p));
      var kept: Option<File> :| Remains(At(d, p), At(next, p), kept);
      assert At(next, p).current == kept;
    }
    StoredMonotone(next.data, Worst(d).data);
  }

  // ----- in terms of the calls made -----

  /** The move leaves one possible content under `p`. */
  predicate Settles(m: Move, p: Path) {
    m == Loss || m == Call(Sync(p.directory))
  }

  /** The largest size the name has had since its directory was last synced. */
  function Peak(states: seq<Disk>, moves: seq<Move>, k: nat, p: Path): (size: nat)
    requires |states| == |moves| + 1 && k < |states|
  {
    var now := SizeAt(states[k].data, p);
    if k == 0 || Settles(moves[k - 1], p) then now
    else
      var before := Peak(states, moves, k - 1, p);
      if before > now then before else now
  }

  /** A disk after a clean start: every name has one possible content. */
  ghost predicate Clean(d: Disk) {
    forall p: Path :: At(d, p).durable == {At(d, p).current}
  }

  ghost predicate PeakOk(slot: Slot, peak: nat) {
    && slot.current in slot.durable
    && (exists f <- slot.durable :: Size(f) == peak)
    && (forall f <- slot.durable :: Size(f) <= peak)
  }

  lemma PeakStep(n: Naming, d: Disk, m: Move, next: Disk, p: Path, peak: nat)
    requires Moved(n, d, m, next) && PeakOk(At(d, p), peak)
    ensures var now := SizeAt(next.data, p);
      PeakOk(At(next, p), if Settles(m, p) || peak <= now then now else peak)
  {
    var now := At(next, p).current;
    assert Size(now) == SizeAt(next.data, p);
    var f :| f in At(d, p).durable && Size(f) == peak;
    if m.Loss? {
      var kept: Option<File> :| Remains(At(d, p), At(next, p), kept);
    } else if At(next, p) != At(d, p) {
      assert now in At(next, p).durable;
      if !Settles(m, p) {
        assert f in At(next, p).durable;
      }
    }
  }

  lemma {:induction false} PeakIsReached(n: Naming, states: seq<Disk>, moves: seq<Move>, k: nat, p: Path)
    requires Run(n, states, moves) && Clean(states[0]) && k < |states|
    ensures PeakOk(At(states[k], p), Peak(states, moves, k, p))
  {
    if k == 0 {
      assert At(states[0], p).current in At(states[0], p).durable;
    } else {
      PeakIsReached(n, states, moves, k - 1, p);
      PeakStep(n, states[k - 1], moves[k - 1], states[k], p, Peak(states, moves, k - 1, p));
    }
  }

  function Peaks(states: seq<Disk>, moves: seq<Move>, k: nat): (sizes: map<Path, nat>)
    requires |states| == |moves| + 1 && k < |states|
  {
    map p | p in states[k].data :: Peak(states, moves, k, p)
  }

  lemma WorstIsPeaks(n: Naming, states: seq<Disk>, moves: seq<Move>, k: nat)
    requires Run(n, states, moves) && Clean(states[0]) && k < |states|
    requires forall p <- states[k].data :: states[k].data[p].durable != {}
    ensures Stored(Worst(states[k]).data) == Total(Peaks(states, moves, k))
  {
    var data, sizes := Worst(states[k]).data, Peaks(states, moves, k);
    forall p <- sizes ensures sizes[p] == SizeAt(data, p) {
      PeakIsReached(n, states, moves, k, p);
      assert PeakOk(At(states[k], p), sizes[p]);
    }
    TotalIsSum(sizes, data);
    StoredIsSum(data, sizes.Keys);
  }

  /**
   At any point of any run a power loss can take the spool past the cap if and only if the
   largest sizes its names have had since their directories were last synced add up to more.
   */
  lemma LossPassesCapExactly(n: Naming, states: seq<Disk>, moves: seq<Move>, k: nat, cap: nat)
    requires Run(n, states, moves) && Sound(n, states[0]) && Clean(states[0]) && k < |states|
    ensures (exists next: Disk :: PowerLoss(states[k], next) && Stored(next.data) > cap)
            <==> Total(Peaks(states, moves, k)) > cap
  {
    var d := states[k];
    RunsAreSound(n, states, moves, k);
    SoundHasContent(n, d);
    WorstIsALoss(n, d);
    WorstIsPeaks(n, states, moves, k);
    forall next: Disk | PowerLoss(d, next) ensures Stored(next.data) <= Total(Peaks(states, moves, k)) {
      WorstIsWorst(n, d, next);
    }
  }

  // ----- runs that stay within the cap -----

  /** Some file was unlinked or moved away from `p` and its directory not synced since. */
  ghost predicate Dangling(moves: seq<Move>, k: nat, p: Path)
    requires k <= |moves|
  {
    exists j :: 0 <= j < k && Removes(moves[j], p) && forall i :: j < i < k ==> !Settles(moves[i], p)
  }

  ghost predicate Tidy(moves: seq<Move>, k: nat)
    requires k <= |moves|
  {
    forall p: Path :: !Dangling(moves, k, p)
  }

  lemma DanglingStays(moves: seq<Move>, k: nat, p: Path)
    requires 0 < k <= |moves|
    ensures Dangling(moves, k - 1, p) && !Settles(moves[k - 1], p) ==> Dangling(moves, k, p)
  {
    if Dangling(moves, k - 1, p) && !Settles(moves[k - 1], p) {
      var j :| 0 <= j < k - 1 && Removes(moves[j], p) && forall i :: j < i < k - 1 ==> !Settles(moves[i], p);
      assert forall i :: j < i < k ==> !Settles(moves[i], p);
    }
  }

  /** A name is smaller than it was only after a removal. */
  lemma {:induction false} PeakNeedsRemoval(n: Naming, states: seq<Disk>, moves: seq<Move>, k: nat, p: Path)
    requires Run(n, states, moves) && k < |states| && !Dangling(moves, k, p)
    ensures Peak(states, moves, k, p) == SizeAt(states[k].data, p)
  {
    if k > 0 && !Settles(moves[k - 1], p) {
      assert Moved(n, states[k - 1], moves[k - 1], states[k]);
      assert !Removes(moves[k - 1], p);
      DanglingStays(moves, k, p);
      PeakNeedsRemoval(n, states, moves, k - 1, p);
    }
  }

  /** A loss with nothing dangling raises nothing. */
  lemma LossRaisesNothing(n: Naming, states: seq<Disk>, moves: seq<Move>, k: nat, next: Disk)
    requires Run(n, states, moves) && Sound(n, states[0]) && Clean(states[0]) && k < |states|
    requires Tidy(moves, k) && PowerLoss(states[k], next)
    ensures Stored(next.data) <= Stored(states[k].data)
  {
    RunsAreSound(n, states, moves, k);
    forall p: Path ensures SizeAt(next.data, p) <= SizeAt(states[k].data, p) {
      PeakIsReached(n, states, moves, k, p);
      PeakNeedsRemoval(n, states, moves, k, p);
      assert SoundSlot(n, p, At(states[k], p));
      var kept: Option<File> :| Remains(At(states[k], p), At(next, p), kept);
      assert Size(kept) <= Peak(states, moves, k, p);
    }
    StoredMonotone(next.data, states[k].data);
  }

  /** Each rename was admitted by the capacity test, and no loss found a removal unsynced. */
  ghost predicate Orderly(states: seq<Disk>, moves: seq<Move>, k: nat, cap: nat)
    requires |states| == |moves| + 1 && k <= |moves|
  {
    && (forall i :: 0 <= i < k && moves[i].Call? && moves[i].event.Publish? ==> Stored(states[i + 1].data) <= cap)
    && (forall i :: 0 <= i < k && moves[i] == Loss ==> Tidy(moves, i))
  }

  /** Then the cap holds at every point of the run, after power losses too. */
  lemma {:induction false} CapOverRuns(n: Naming, states: seq<Disk>, moves: seq<Move>, k: nat, cap: nat)
    requires Run(n, states, moves) && Sound(n, states[0]) && Clean(states[0]) && k < |states|
    requires Stored(states[0].data) <= cap && Orderly(states, moves, k, cap)
    ensures Stored(states[k].data) <= cap
  {
    if k > 0 {
      var d, m, next := states[k - 1], moves[k - 1], states[k];
      CapOverRuns(n, states, moves, k - 1, cap);
      assert Moved(n, d, m, next);
      if m == Loss {
        LossRaisesNothing(n, states, moves, k - 1, next);
      } else if !m.event.Publish? {
        CallRaisesNothing(n, d, m.event, next);
      }
    }
  }

  lemma CallRaisesNothing(n: Naming, d: Disk, e: Event, next: Disk)
    requires Step(n, d, e, next) && !e.Publish?
    ensures Stored(next.data) <= Stored(d.data)
  {
    match e
    case Temporary =>
    case Sync(directory) => StoredAfterFlush(d.data, directory);
    case Unlink(path) => StoredAfterRemoval(d.data, path);
    case Quarantine(path, _) => StoredAfterRemoval(d.data, path);
  }

  /**
   Without that order the cap can be passed: a file is unlinked, another is admitted in its
   place, and a power loss brings the first one back.
   */
  lemma LossCanPassCap(n: Naming, p: Path, full: seq<byte>, q: Path, more: seq<byte>)
    requires Spells(n, full, p) && Spells(n, more, q) && p != q && |more| <= |full|
    ensures exists states: seq<Disk> ::
      && Run(n, states, [Call(Unlink(p)), Call(Publish("t", q)), Loss]) && Sound(n, states[0]) && Clean(states[0])
      && (forall i :: 0 <= i < 3 ==> Stored(states[i].data) <= |full|) && Stored(states[3].data) > |full|
  {
    var a, b := Some(File(full, true)), Some(File(more, true));
    var d0 := Disk(map[p := Slot(a, {a})], map["t" := File(more, true)], map[]);
    var d1 := d0.(data := Put(d0.data, p, None));
    var d2 := d1.(data := Put(d1.data, q, b));
    var d3 := d2.(data := map[p := Slot(a, {a}), q := Slot(b, {b})]);
    assert Sound(n, d0) by {
      forall other: Path ensures SoundSlot(n, other, At(d0, other)) {
      }
    }
    BackAgain(d0.data, p, q, File(more, true), d3.data);
    assert Moved(n, d2, Loss, d3) by {
      forall other: Path ensures LeftOver(At(d2, other), At(d3, other)) {
        assert Remains(At(d2, other), At(d3, other), At(d3, other).current);
      }
    }
    var states, moves := [d0, d1, d2, d3], [Call(Unlink(p)), Call(Publish("t", q)), Loss];
    assert Moved(n, d0, moves[0], d1) && Moved(n, d1, moves[1], d2);
    assert Run(n, states, moves);
  }

  lemma BackAgain(data: map<Path, Slot>, p: Path, q: Path, file: File, back: map<Path, Slot>)
    requires p != q && q !in data && Present(data) == {p} && Present(back) == {p, q}
    requires SizeAt(back, p) == SizeAt(data, p) && SizeAt(back, q) == |file.bytes|
    ensures Stored(data) == SizeAt(data, p) && Stored(Put(data, p, None)) == 0
    ensures Stored(Put(Put(data, p, None), q, Some(file))) == |file.bytes|
    ensures Stored(back) == SizeAt(data, p) + |file.bytes|
  {
    OneFile(data, p);
    StoredAfterRemoval(data, p);
    StoredAfterPublish(Put(data, p, None), q, file);
    SumRemove(back, {p, q}, p);
    assert {p, q} - {p} == {q};
    SumRemove(back, {q}, q);
    assert {q} - {q} == {} && Sum(back, {}) == 0;
  }

  lemma OneFile(data: map<Path, Slot>, p: Path)
    requires Present(data) == {p}
    ensures Stored(data) == SizeAt(data, p)
  {
    SumRemove(data, {p}, p);
    assert {p} - {p} == {};
    assert Sum(data, {}) == 0;
  }
}
