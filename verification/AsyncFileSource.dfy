/**
 Reads from an asynchronous file source. The shared state is changed by the event loop and
 by worker threads; every method below is one critical section of the state's mutex (or one
 callback run by the loop), so the methods may be called in any order by anyone.

 `Valid` is the conservation law: every request made is, exactly once, in the completion
 slot, in the loop's queue or delivered; and what a callback is told is true (`Truthful`): data
 without an error is the part of the file that was asked for, and a failed read is an error.
 */
module AsyncFileSource {
  import opened Bytes
  import opened MonitorData

  const CHUNK: nat := 64 * 1024

  datatype Errno = ECANCELED | EBUSY | EINVAL | EIO

  /** What the loop will hand to a read callback. */
  datatype Delivery = Delivery(request: nat, error: Option<Errno>, data: seq<byte>)

  /** What a worker is doing for the source. `Closing`: terminal is set, the lock is free. */
  datatype Stage =
    | Opening
    | Resting
    | Reading(offset: nat, count: nat)
    | Closing(error: Option<Errno>, data: seq<byte>)
    | Over

  function One(request: Option<nat>): (m: set<nat>) {
    if request.Some? then {request.value} else {}
  }

  /** How often request `r` occurs. */
  function Times(s: seq<Delivery>, r: nat): (n: nat) {
    if |s| == 0 then 0 else Times(s[..|s| - 1], r) + if s[|s| - 1].request == r then 1 else 0
  }

  lemma {:induction false} TimesOfTail(s: seq<Delivery>, r: nat)
    requires |s| > 0
    ensures Times(s, r) == Times(s[1..], r) + if s[0].request == r then 1 else 0
  {
    if |s| > 1 {
      var n := |s| - 1;
      TimesOfTail(s[..n], r);
      assert s[..n][1..] == s[1..][..n - 1];
    }
  }

  /** What was posted is what waits and what was run, request by request. */
  ghost predicate Accounted(posted: set<nat>, queue: seq<Delivery>, delivered: seq<Delivery>) {
    forall r: nat {:trigger Times(queue, r)} :: Times(queue, r) + Times(delivered, r) == (if r in posted then 1 else 0)
  }

  lemma PostedOnce(posted: set<nat>, queue: seq<Delivery>, delivered: seq<Delivery>, d: Delivery)
    requires Accounted(posted, queue, delivered) && d.request !in posted
    ensures Accounted(posted + {d.request}, queue + [d], delivered)
  {
    forall r: nat ensures Times(queue + [d], r) == Times(queue, r) + if d.request == r then 1 else 0 {
      assert (queue + [d])[..|queue|] == queue;
    }
  }

  lemma RunOnce(posted: set<nat>, queue: seq<Delivery>, delivered: seq<Delivery>, d: Delivery)
    requires |queue| > 0 && d.request == queue[0].request && Accounted(posted, queue, delivered)
    ensures Accounted(posted, queue[1..], delivered + [d])
  {
    forall r: nat ensures Times(queue[1..], r) + Times(delivered + [d], r) == (if r in posted then 1 else 0) {
      TimesOfTail(queue, r);
      assert (delivered + [d])[..|delivered|] == delivered;
    }
  }

  /**
   An error comes without data; without an error the data is what was `wanted` by a request
   whose read has not `failed`.
   */
  predicate Truthful(d: Delivery, wanted: map<nat, seq<byte>>, failed: set<nat>) {
    if d.error.Some? then d.data == []
    else d.request in wanted && d.data == wanted[d.request] && d.request !in failed
  }

  ghost predicate Told(s: seq<Delivery>, posted: set<nat>, wanted: map<nat, seq<byte>>, failed: set<nat>) {
    forall i :: 0 <= i < |s| ==> s[i].request in posted && Truthful(s[i], wanted, failed)
  }

  /** What becomes known of a request that was not posted yet is no news for the others. */
  lemma StillTold(s: seq<Delivery>, posted: set<nat>, wanted: map<nat, seq<byte>>, failed: set<nat>,
                  more: map<nat, seq<byte>>, others: set<nat>)
    requires Told(s, posted, wanted, failed)
    requires forall r <- posted :: (r in wanted ==> r in more && more[r] == wanted[r]) && (r in others ==> r in failed)
    ensures Told(s, posted, more, others)
  {
    forall i | 0 <= i < |s| ensures Truthful(s[i], more, others) {
      assert Truthful(s[i], wanted, failed);
    }
  }

  lemma ToldAgain(s: seq<Delivery>, posted: set<nat>, wanted: map<nat, seq<byte>>, failed: set<nat>, d: Delivery)
    requires Told(s, posted, wanted, failed) && Truthful(d, wanted, failed)
    ensures Told(s + [d], posted + {d.request}, wanted, failed) && Told(s, posted + {d.request}, wanted, failed)
  {
  }

  /** Why a read request is turned away at once, if it is. */
  function Verdict(over: bool, occupied: bool, offset: int, count: nat, size: nat,
                   accepted: bool): (code: Option<Errno>)
    ensures code.None? <==>
      !over && !occupied && 0 <= offset && 1 <= count <= 65536 && offset + count <= size && accepted
    ensures code.Some? && (over || (!occupied && 0 <= offset && 1 <= count <= 65536 && offset + count <= size)) ==>
      code == Some(ECANCELED)
    ensures !over ==> (code == Some(EBUSY) <==> occupied)
  {
    if over then Some(ECANCELED)
    else if occupied then Some(EBUSY)
    else if offset < 0 || count == 0 || count > CHUNK || offset + count > size then Some(EINVAL)
    else if !accepted then Some(ECANCELED)
    else None
  }

  class Source {
    const content: seq<byte>
    var busy: bool
    var cancelled: bool
    var terminal: bool
    var initialized: bool
    var stage: Stage
    var completion: Option<nat>

    /** The event loop: callbacks waiting, and callbacks run. */
    var queue: seq<Delivery>
    var delivered: seq<Delivery>

    /** Every request made with a callback, and every request whose callback was ever posted. */
    ghost var asked: set<nat>
    ghost var posted: set<nat>

    /** The bytes each started read was to fetch, and the requests whose read failed. */
    ghost var wanted: map<nat, seq<byte>>
    ghost var failed: set<nat>

    /** Nothing posted is lost or run twice, and all of it is true. */
    ghost predicate LoopOk()
      reads this`queue, this`delivered, this`posted, this`wanted, this`failed
    {
      && Accounted(posted, queue, delivered)
      && Told(queue, posted, wanted, failed) && Told(delivered, posted, wanted, failed)
    }

    ghost predicate Valid()
      reads this
    {
      && asked == posted + One(completion) && One(completion) !! posted
      && (completion.Some? ==> (stage.Reading? || stage.Closing?) && !cancelled)
      && (stage.Reading? ==> initialized && !terminal && stage.offset + stage.count <= |content|)
      && (stage.Closing? ==> stage.error.Some? || cancelled)
      && (stage.Opening? || stage.Reading? || stage.Closing? ==> busy)
      && (stage.Closing? || stage.Over? ==> terminal)
      && (stage.Closing? && stage.error.Some? ==> stage.data == [])
      && (stage.Reading? && completion.Some? ==>
            && completion.value in wanted && completion.value !in failed
            && wanted[completion.value] == content[stage.offset..stage.offset + stage.count])
      && wanted.Keys + failed <= asked
    }

    /** A source whose file a worker is about to open. */
    constructor (content: seq<byte>)
      ensures Valid() && LoopOk() && asked == {} && !cancelled && !terminal
      ensures stage == Opening && !initialized && busy && this.content == content
    {
      this.content := content;
      busy, cancelled, terminal, initialized, stage, completion := true, false, false, false, Opening, None;
      queue, delivered, asked, posted, wanted, failed := [], [], {}, {}, map[], {};
    }

    /** The worker has opened the file, or failed to. */
    method OpenReturns(failed: bool)
      requires Valid() && LoopOk() && stage == Opening
      modifies this
      ensures Valid() && LoopOk() && asked == old(asked) && delivered == old(delivered) && queue == old(queue)
      ensures wanted == old(wanted) && this.failed == old(this.failed) && cancelled == old(cancelled)
      ensures if failed || cancelled then terminal && stage == Closing(Some(EIO), [])
              else initialized && !busy && stage == Resting
    {
      if cancelled || failed {
        terminal, stage := true, Closing(Some(EIO), []);
      } else {
        initialized, busy, stage := true, false, Resting;
      }
    }

    /** Puts a callback into the loop's queue; an empty callback is dropped. */
    method Post(callback: Option<nat>, error: Option<Errno>, data: seq<byte>)
      requires LoopOk() && One(callback) !! posted
      requires callback.Some? ==> Truthful(Delivery(callback.value, error, data), wanted, failed)
      modifies this`queue, this`posted
      ensures LoopOk() && posted == old(posted) + One(callback)
      ensures queue == old(queue) + (if callback.Some? then [Delivery(callback.value, error, data)] else [])
    {
      if callback.Some? {
        PostedOnce(posted, queue, delivered, Delivery(callback.value, error, data));
        ToldAgain(queue, posted, wanted, failed, Delivery(callback.value, error, data));
        ToldAgain(delivered, posted, wanted, failed, Delivery(callback.value, error, data));
        posted := posted + {callback.value};
        queue := queue + [Delivery(callback.value, error, data)];
      }
    }

    /**
     `callback` numbers this request's callback, if it has one; `accepted` is the executor's
     answer. Each refusal answers the callback at once.
     */
    method Request(offset: int, count: nat, callback: Option<nat>, accepted: bool)
      requires Valid() && LoopOk() && One(callback) !! asked
      modifies this
      ensures Valid() && LoopOk() && delivered == old(delivered)
      ensures asked == old(asked) + One(callback)
      ensures var over, occupied := old(this.cancelled || this.terminal), old(!this.initialized || this.busy);
        var code := Verdict(over, occupied, offset, count, |content|, accepted);
        if code.None? then
          && stage == Reading(offset, count) && completion == callback && queue == old(queue) && failed == old(failed)
          && (callback.Some? ==> wanted == old(wanted)[callback.value := content[offset..offset + count]])
        else && wanted == old(wanted) && failed == old(failed) && stage == old(stage) && completion == old(completion)
             && queue == old(queue) + (if callback.Some? then [Delivery(callback.value, code, [])] else [])
    {
      var code := Judge(offset, count, accepted);
      if code.None? {
        Start(offset, count, callback);
      } else {
        asked := asked + One(callback);
        Post(callback, code, []);
      }
    }

    /** Hands the read to a worker. */
    method Start(offset: nat, count: nat, callback: Option<nat>)
      requires Valid() && LoopOk() && One(callback) !! asked && offset + count <= |content|
      requires initialized && !busy && !terminal && !cancelled
      modifies `busy, `completion, `stage, `asked, `wanted
      ensures Valid() && LoopOk() && asked == old(asked) + One(callback)
      ensures stage == Reading(offset, count) && completion == callback
      ensures callback.Some? ==> wanted == old(wanted)[callback.value := content[offset..offset + count]]
    {
      asked := asked + One(callback);
      busy, completion, stage := true, callback, Reading(offset, count);
      Want(callback, content[offset..offset + count]);
    }

    /** The tests of a request, in their order. */
    method Judge(offset: int, count: nat, accepted: bool) returns (code: Option<Errno>)
      ensures code == Verdict(cancelled || terminal, !initialized || busy, offset, count, |content|, accepted)
    {
      if cancelled || terminal {
        return Some(ECANCELED);
      }
      if !initialized || busy {
        return Some(EBUSY);
      }
      if offset < 0 || count == 0 || count > CHUNK || offset > |content| || count > |content| - offset {
        return Some(EINVAL);
      }
      return if accepted then None else Some(ECANCELED);
    }

    /** Takes down what a request is to fetch. */
    ghost method Want(callback: Option<nat>, data: seq<byte>)
      requires LoopOk() && One(callback) !! posted
      modifies `wanted
      ensures LoopOk() && wanted == if callback.Some? then old(wanted)[callback.value := data] else old(wanted)
    {
      if callback.Some? {
        var more := wanted[callback.value := data];
        StillTold(queue, posted, wanted, failed, more, failed);
        StillTold(delivered, posted, wanted, failed, more, failed);
        wanted := more;
      }
    }

    /** Takes down that the read of the waiting request failed. */
    ghost method Fail()
      requires LoopOk() && One(completion) !! posted
      modifies `failed
      ensures LoopOk() && failed == old(failed) + One(completion)
    {
      StillTold(queue, posted, wanted, failed, wanted, failed + One(completion));
      StillTold(delivered, posted, wanted, failed, wanted, failed + One(completion));
      failed := failed + One(completion);
    }

    /** A worker comes back from its read: `failure` is what the read threw. */
    method ReadReturns(failure: Option<Errno>)
      requires Valid() && LoopOk() && stage.Reading?
      modifies this
      ensures Valid() && LoopOk() && asked == old(asked) && delivered == old(delivered)
      ensures wanted == old(wanted)
      ensures failed == if failure.Some? then old(failed) + One(old(completion)) else old(failed)
      ensures failure.None? && !old(cancelled) ==> stage == Resting && completion == None && !busy
      ensures failure.None? && !old(cancelled) && old(completion).Some? ==>
        var from, to := old(stage).offset, old(stage).offset + old(stage).count;
        queue == old(queue) + [Delivery(old(completion).value, None, content[from..to])]
      ensures failure.Some? || old(cancelled) ==>
        terminal && stage.Closing? && queue == old(queue) && completion == old(completion)
      ensures failure.Some? ==> stage == Closing(failure, [])
    {
      if failure.Some? {
        Fail();
      }
      var data := if failure.Some? then [] else content[stage.offset..stage.offset + stage.count];
      if cancelled || failure.Some? {
        terminal, stage := true, Closing(failure, data);
      } else {
        busy, stage := false, Resting;
        var callback := completion;
        completion := None;
        Post(callback, None, data);
      }
    }

    /** The file is closed; the lock is taken again for the last post. */
    method WorkerCloses()
      requires Valid() && LoopOk() && stage.Closing?
      modifies this
      ensures Valid() && LoopOk() && asked == old(asked) && delivered == old(delivered)
      ensures !busy && completion == None && stage == Over && wanted == old(wanted) && failed == old(failed)
      ensures queue == old(queue) +
        (if old(completion).Some? then [Delivery(old(completion).value, old(stage).error, old(stage).data)] else [])
    {
      var callback, error, data := completion, stage.error, stage.data;
      busy, stage, completion := false, Over, None;
      Post(callback, error, data);
    }

    /** Answers a waiting callback even while a worker is inside its read. */
    method Cancel() returns (claimed: bool)
      requires Valid() && LoopOk()
      modifies this
      ensures Valid() && LoopOk() && asked == old(asked) && delivered == old(delivered)
      ensures cancelled && completion == None && wanted == old(wanted) && failed == old(failed)
      ensures queue == old(queue) +
        (if old(completion).Some? then [Delivery(old(completion).value, Some(ECANCELED), [])] else [])
      ensures stage == old(stage) && terminal == old(terminal) && busy == (old(busy) || claimed)
      ensures claimed == (!old(terminal) && !old(busy))
    {
      var callback := completion;
      cancelled, completion := true, None;
      Post(callback, Some(ECANCELED), []);
      claimed := !terminal && !busy;
      if claimed {
        busy := true;
      }
    }

    /** The loop runs its next callback. After cancellation it always sees an error and no data. */
    method Deliver() returns (d: Delivery)
      requires Valid() && LoopOk() && |queue| > 0
      modifies this
      ensures Valid() && LoopOk() && asked == old(asked) && posted == old(posted) && completion == old(completion)
      ensures queue == old(queue)[1..] && delivered == old(delivered) + [d]
      ensures wanted == old(wanted) && failed == old(failed) && stage == old(stage) && busy == old(busy)
      ensures d.request == old(queue)[0].request
      ensures cancelled ==> d.error == Some(ECANCELED) && d.data == []
      ensures !cancelled ==> d == old(queue)[0]
    {
      d := queue[0];
      if cancelled {
        d := d.(error := Some(ECANCELED), data := []);
      }
      RunOnce(posted, queue, delivered, d);
      queue := queue[1..];
      delivered := delivered + [d];
    }
  }

  /** A request whose read failed is told of an error, whenever its callback runs. */
  lemma FailureIsTold(source: Source, i: nat)
    requires source.LoopOk() && i < |source.delivered| && source.delivered[i].request in source.failed
    ensures source.delivered[i].error.Some? && source.delivered[i].data == []
  {
    assert Truthful(source.delivered[i], source.wanted, source.failed);
  }

  /** When nothing is pending any more, every request has been answered exactly once. */
  lemma EachAnsweredOnce(asked: set<nat>, delivered: seq<Delivery>, r: nat)
    requires Accounted(asked, [], delivered) && r in asked
    ensures exists i :: 0 <= i < |delivered| && delivered[i].request == r
    ensures forall i, j :: 0 <= i < j < |delivered| && delivered[i].request == r ==> delivered[j].request != r
  {
    assert Times([], r) == 0;
    TimesOnce(delivered, r);
  }

  lemma {:induction false} TimesOnce(s: seq<Delivery>, r: nat)
    ensures Times(s, r) == 0 ==> forall i :: 0 <= i < |s| ==> s[i].request != r
    ensures Times(s, r) == 1 ==>
      && (exists i :: 0 <= i < |s| && s[i].request == r)
      && (forall i, j :: 0 <= i < j < |s| && s[i].request == r ==> s[j].request != r)
  {
    if |s| > 0 {
      var n := |s| - 1;
      TimesOnce(s[..n], r);
      if s[n].request != r && Times(s, r) == 1 {
        var i :| 0 <= i < n && s[..n][i].request == r;
        assert s[i].request == r;
      }
    }
  }
}
