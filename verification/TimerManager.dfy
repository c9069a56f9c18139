/**
 The deadline-ordered timer list. `check` fires the earliest timer outside the lock, so other
 threads may add timers while its callback runs: each method here is one critical section of
 the manager (or the callback's moment between two of them). Times are nanoseconds of a
 monotonic clock.

 Main results, in `Valid`: the list stays sorted; over the whole run deadlines fire in
 non-decreasing order; the k-th firing of a timer is at its first deadline plus (k - 1)
 intervals; a one-shot timer fires at most once.
 */
module TimerManager {
  import opened Bytes
  import opened MonitorData

  const NANOS_PER_MILLI: nat := 1_000_000
  const NANOS_PER_MICRO: nat := 1000
  const MICROS_PER_SECOND: nat := 1_000_000
  const CLOCK_MAX: int := 0x7fff_ffff_ffff_ffff

  /** `interval` is zero for a one-shot timer; `first` is its first deadline. */
  datatype Timer = Timer(id: u64, first: int, interval: nat, next: int, fireCount: nat)

  datatype Firing = Firing(id: u64, k: nat, deadline: int)

  // ----- the select timeout -----

  datatype Timeval = Timeval(seconds: nat, micros: nat)

  function Nanos(t: Timeval): (n: nat) {
    (t.seconds * MICROS_PER_SECOND + t.micros) * NANOS_PER_MICRO
  }

  /** The remaining time, rounded up by less than a microsecond; nothing once it is due. */
  function TimeoutUntil(deadline: int, now: int): (t: Timeval)
    ensures t.micros < MICROS_PER_SECOND
    ensures deadline <= now ==> Nanos(t) == 0
    ensures deadline > now ==> deadline - now <= Nanos(t) < deadline - now + NANOS_PER_MICRO
  {
    if deadline <= now then Timeval(0, 0)
    else
      var micros := (deadline - now + NANOS_PER_MICRO - 1) / NANOS_PER_MICRO;
      Timeval(micros / MICROS_PER_SECOND, micros % MICROS_PER_SECOND)
  }

  // ----- the list -----

  ghost predicate Sorted(s: seq<Timer>) {
    forall i, j :: 0 <= i < j < |s| ==> s[i].next <= s[j].next
  }

  /** Due at the first deadline plus one interval per firing so far. */
  predicate OnSchedule(t: Timer, firings: nat) {
    t.next == t.first + firings * t.interval
  }

  lemma NextOnSchedule(t: Timer)
    requires t.fireCount > 0 && OnSchedule(t, t.fireCount - 1)
    ensures OnSchedule(t.(next := t.next + t.interval), t.fireCount)
  {
    assert t.fireCount * t.interval == (t.fireCount - 1) * t.interval + t.interval;
  }

  /** Timers are what they were added as, apart from progress on their schedule. */
  predicate Known(added: map<u64, Timer>, t: Timer) {
    t.id in added && added[t.id].first == t.first && added[t.id].interval == t.interval
  }

  predicate Listed(added: map<u64, Timer>, t: Timer) {
    Known(added, t) && OnSchedule(t, t.fireCount) && (t.interval == 0 ==> t.fireCount == 0)
  }

  /** Taken out to fire: counted, not yet advanced. */
  predicate Firable(added: map<u64, Timer>, t: Timer) {
    && Known(added, t) && t.fireCount > 0 && OnSchedule(t, t.fireCount - 1)
    && (t.interval == 0 ==> t.fireCount == 1)
  }

  ghost predicate ListOk(timers: seq<Timer>, active: Option<Timer>, added: map<u64, Timer>) {
    && Sorted(timers)
    && (forall i :: 0 <= i < |timers| ==> Listed(added, timers[i]))
    && (forall i, j :: 0 <= i < j < |timers| ==> timers[i].id != timers[j].id)
    && (active.Some? ==>
          && Firable(added, active.value)
          && forall i :: 0 <= i < |timers| ==> timers[i].id != active.value.id)
  }

  /** Firings never go back in time, and nothing still listed lies before the last of them. */
  ghost predicate OrderOk(timers: seq<Timer>, active: Option<Timer>, fired: seq<Firing>, clock: int) {
    && (forall i, j :: 0 <= i < j < |fired| ==> fired[i].deadline <= fired[j].deadline)
    && (active.Some? ==> |fired| > 0 && active.value.next == fired[|fired| - 1].deadline)
    && (|fired| > 0 ==>
          && fired[|fired| - 1].deadline < clock
          && forall i :: 0 <= i < |timers| ==> fired[|fired| - 1].deadline <= timers[i].next)
  }

  /** The k-th firing of a timer is at its first deadline plus k - 1 intervals; one-shots have no second. */
  predicate Scheduled(added: map<u64, Timer>, f: Firing) {
    && f.id in added && f.k > 0
    && f.deadline == added[f.id].first + (f.k - 1) * added[f.id].interval
    && (added[f.id].interval == 0 ==> f.k == 1)
  }

  /** How often a timer is among the firings. */
  function Occurrences(fired: seq<Firing>, id: u64): (n: nat) {
    if |fired| == 0 then 0
    else Occurrences(fired[..|fired| - 1], id) + (if fired[|fired| - 1].id == id then 1 else 0)
  }

  lemma OneMoreFiring(fired: seq<Firing>, f: Firing, id: u64)
    ensures Occurrences(fired + [f], id) == Occurrences(fired, id) + (if f.id == id then 1 else 0)
  {
    assert (fired + [f])[..|fired|] == fired;
  }

  lemma {:induction false} NeverFired(fired: seq<Firing>, id: u64)
    requires forall i :: 0 <= i < |fired| ==> fired[i].id != id
    ensures Occurrences(fired, id) == 0
  {
    if |fired| > 0 {
      NeverFired(fired[..|fired| - 1], id);
    }
  }

  lemma {:induction false} FiredBefore(fired: seq<Firing>, i: nat)
    requires i < |fired|
    ensures Occurrences(fired, fired[i].id) > Occurrences(fired[..i], fired[i].id)
  {
    var n := |fired| - 1;
    if i < n {
      FiredBefore(fired[..n], i);
      assert fired[..n][..i] == fired[..i];
    }
  }

  /** The count of a timer is the number of its firings so far. */
  predicate Counted(fired: seq<Firing>, t: Timer) {
    Occurrences(fired, t.id) == t.fireCount
  }

  /** A firing's number is its place among the firings of its timer. */
  predicate Numbered(fired: seq<Firing>, i: nat)
    requires i < |fired|
  {
    fired[i].k == Occurrences(fired[..i], fired[i].id) + 1
  }

  ghost predicate FiringsOk(timers: seq<Timer>, active: Option<Timer>, fired: seq<Firing>, added: map<u64, Timer>) {
    && (forall i :: 0 <= i < |fired| ==> Scheduled(added, fired[i]) && Numbered(fired, i))
    && (forall i :: 0 <= i < |timers| ==> Counted(fired, timers[i]))
    && (active.Some? ==> Counted(fired, active.value))
  }

  ghost predicate Consistent(timers: seq<Timer>, active: Option<Timer>, fired: seq<Firing>, clock: int,
                             added: map<u64, Timer>)
  {
    ListOk(timers, active, added) && OrderOk(timers, active, fired, clock) && FiringsOk(timers, active, fired, added)
  }

  // ----- the changes of the list -----

  /** `t` at a place where it belongs, behind its equals. */
  predicate Fits(s: seq<Timer>, k: nat, t: Timer) {
    && k <= |s|
    && (forall i :: 0 <= i < k ==> s[i].next <= t.next)
    && (forall i :: k <= i < |s| ==> t.next < s[i].next)
  }

  function Inserted(s: seq<Timer>, k: nat, t: Timer): (r: seq<Timer>)
    requires k <= |s|
    ensures |r| == |s| + 1 && r[k] == t
    ensures forall i :: 0 <= i < |r| ==> r[i] == if i < k then s[i] else if i == k then t else s[i - 1]
  {
    s[..k] + [t] + s[k..]
  }

  lemma InsertKeepsList(s: seq<Timer>, k: nat, t: Timer, active: Option<Timer>, added: map<u64, Timer>)
    requires ListOk(s, active, added) && Fits(s, k, t) && Listed(added, t)
    requires (forall i :: 0 <= i < |s| ==> s[i].id != t.id) && (active.Some? ==> active.value.id != t.id)
    ensures ListOk(Inserted(s, k, t), active, added)
  {
  }

  lemma InsertKeepsRest(s: seq<Timer>, k: nat, t: Timer, active: Option<Timer>, fired: seq<Firing>, clock: int,
                        added: map<u64, Timer>)
    requires OrderOk(s, active, fired, clock) && FiringsOk(s, active, fired, added) && k <= |s|
    requires |fired| > 0 ==> fired[|fired| - 1].deadline <= t.next
    requires Counted(fired, t)
    ensures OrderOk(Inserted(s, k, t), active, fired, clock) && FiringsOk(Inserted(s, k, t), active, fired, added)
  {
  }

  lemma PopKeepsFirings(s: seq<Timer>, fired: seq<Firing>, added: map<u64, Timer>, f: Firing)
    requires FiringsOk(s, None, fired, added) && ListOk(s, None, added) && |s| > 0
    requires f == Firing(s[0].id, s[0].fireCount + 1, s[0].next) && Scheduled(added, f)
    ensures FiringsOk(s[1..], Some(s[0].(fireCount := s[0].fireCount + 1)), fired + [f], added)
  {
    assert Counted(fired, s[0]);
    OneMoreFiring(fired, f, s[0].id);
    forall i | 0 <= i < |s[1..]| ensures Counted(fired + [f], s[1..][i]) {
      assert Counted(fired, s[i + 1]);
      OneMoreFiring(fired, f, s[i + 1].id);
    }
    forall i | 0 <= i <= |fired| ensures Scheduled(added, (fired + [f])[i]) && Numbered(fired + [f], i) {
      assert (fired + [f])[..i] == fired[..i];
      assert i < |fired| ==> Scheduled(added, fired[i]) && Numbered(fired, i);
      assert fired[..|fired|] == fired;
    }
  }

  lemma PopKeepsList(s: seq<Timer>, fired: seq<Firing>, clock: int, now: int, added: map<u64, Timer>)
    requires ListOk(s, None, added) && OrderOk(s, None, fired, clock) && |s| > 0 && s[0].next < now && clock <= now
    ensures var t := s[0].(fireCount := s[0].fireCount + 1);
      ListOk(s[1..], Some(t), added) && OrderOk(s[1..], Some(t), fired + [Firing(t.id, t.fireCount, t.next)], now)
  {
    assert Listed(added, s[0]);
  }

  /** The earliest timer is due and taken out. */
  lemma PopKeepsAll(s: seq<Timer>, fired: seq<Firing>, clock: int, now: int, added: map<u64, Timer>)
    requires Consistent(s, None, fired, clock, added) && |s| > 0 && s[0].next < now && clock <= now
    ensures var t := s[0].(fireCount := s[0].fireCount + 1);
      Consistent(s[1..], Some(t), fired + [Firing(t.id, t.fireCount, t.next)], now, added)
  {
    assert Listed(added, s[0]);
    PopKeepsList(s, fired, clock, now, added);
    PopKeepsFirings(s, fired, added, Firing(s[0].id, s[0].fireCount + 1, s[0].next));
  }

  /** A recurring timer comes back one interval later. */
  lemma ReturnKeepsAll(s: seq<Timer>, k: nat, t: Timer, fired: seq<Firing>, clock: int, added: map<u64, Timer>)
    requires Consistent(s, Some(t), fired, clock, added) && t.interval > 0
    requires Fits(s, k, t.(next := t.next + t.interval))
    ensures Consistent(Inserted(s, k, t.(next := t.next + t.interval)), None, fired, clock, added)
  {
    var u := t.(next := t.next + t.interval);
    NextOnSchedule(t);
    InsertKeepsList(s, k, u, None, added);
    InsertKeepsRest(s, k, u, None, fired, clock, added);
  }

  /** A one-shot timer does not come back. */
  lemma LeaveKeepsAll(s: seq<Timer>, t: Timer, fired: seq<Firing>, clock: int, added: map<u64, Timer>)
    requires Consistent(s, Some(t), fired, clock, added)
    ensures Consistent(s, None, fired, clock, added)
  {
  }

  /** A new timer: its record, then its place. */
  lemma AddKeepsAll(s: seq<Timer>, k: nat, active: Option<Timer>, fired: seq<Firing>, clock: int, now: int,
                    added: map<u64, Timer>, t: Timer)
    requires Consistent(s, active, fired, clock, added) && t.id !in added && clock <= now < t.next && Fits(s, k, t)
    requires t.next == t.first && t.fireCount == 0
    ensures Consistent(Inserted(s, k, t), active, fired, now, added[t.id := t])
  {
    RecordKeepsAll(s, active, fired, clock, now, added, t);
    InsertKeepsList(s, k, t, active, added[t.id := t]);
    InsertKeepsRest(s, k, t, active, fired, now, added[t.id := t]);
  }

  lemma RecordKeepsAll(s: seq<Timer>, active: Option<Timer>, fired: seq<Firing>, clock: int, now: int,
                       added: map<u64, Timer>, t: Timer)
    requires Consistent(s, active, fired, clock, added) && t.id !in added && t.fireCount == 0 && clock <= now
    ensures Consistent(s, active, fired, now, added[t.id := t]) && Counted(fired, t)
    ensures (forall i :: 0 <= i < |s| ==> s[i].id != t.id) && (active.Some? ==> active.value.id != t.id)
  {
    forall i | 0 <= i < |s| ensures s[i].id != t.id && Listed(added[t.id := t], s[i]) {
      assert Listed(added, s[i]);
    }
    forall i | 0 <= i < |fired| ensures Scheduled(added[t.id := t], fired[i]) && fired[i].id != t.id {
      assert Scheduled(added, fired[i]);
    }
    NeverFired(fired, t.id);
  }

  // ----- the object -----

  datatype CheckResult = Idle | Wait(timeout: Timeval) | Fire(timer: Timer)

  function NewTimer(id: u64, delay: nat, recurring: bool, now: int): (t: Timer)
    ensures t.id == id && t.first == t.next == now + delay * 1_000_000 && t.fireCount == 0
    ensures t.interval == if recurring then delay * 1_000_000 else 0
  {
    var nanos := delay * NANOS_PER_MILLI;
    Timer(id, now + nanos, if recurring then nanos else 0, now + nanos, 0)
  }

  class Manager {
    var timers: seq<Timer>
    var nextId: u64
    var cleanedUp: bool

    /** The timer whose callback is running, taken out of the list. */
    var active: Option<Timer>

    /** Every firing so far, the latest clock reading, and every timer as it was added. */
    ghost var fired: seq<Firing>
    ghost var clock: int
    ghost var added: map<u64, Timer>

    ghost predicate Valid()
      reads this
    {
      && Consistent(timers, active, fired, clock, added)
      && forall id <- added :: id < nextId || nextId == 0
    }

    constructor ()
      ensures Valid() && timers == [] && fired == []
    {
      timers, nextId, cleanedUp, active := [], 1, false, None;
      fired, clock, added := [], 0, map[];
    }

    /** Behind every deadline that is not later: equal deadlines keep the order of their insertion. */
    method FindPosition(t: Timer) returns (k: nat)
      requires Sorted(timers)
      ensures Fits(timers, k, t)
    {
      k := 0;
      while k < |timers| && timers[k].next <= t.next
        invariant k <= |timers| && forall i :: 0 <= i < k ==> timers[i].next <= t.next
      {
        k := k + 1;
      }
    }

    /** `accepting`: the callback is set, the flags are valid and the wake-up pipe is ready; `woken` is its answer. */
    method Add(delay: int, recurring: bool, accepting: bool, woken: bool, now: int)
      returns (handle: Option<u64>, ghost at: nat)
      requires Valid() && clock <= now <= CLOCK_MAX
      modifies this
      ensures Valid() && fired == old(fired) && active == old(active)
      ensures handle.None? ==> timers == old(timers) && nextId == old(nextId)
      ensures handle.Some? <==>
        delay > 0 && accepting && woken && !cleanedUp && old(nextId) != 0
        && delay <= (CLOCK_MAX - now) / NANOS_PER_MILLI
      ensures handle.Some? ==>
        && handle.value == old(nextId) != 0 && nextId == (old(nextId) + 1) % TWO_64
        && var t := NewTimer(handle.value, delay, recurring, now);
           Fits(old(timers), at, t) && timers == Inserted(old(timers), at, t)
    {
      at := 0;
      if delay <= 0 || !accepting || cleanedUp || nextId == 0 || delay > (CLOCK_MAX - now) / NANOS_PER_MILLI {
        return None, at;
      }
      var t := NewTimer(nextId, delay, recurring, now);
      if !woken {
        return None, at;
      }
      at := Place(t, now);
      handle := Some(nextId);
      nextId := (nextId + 1) % TWO_64;
    }

    /** Puts a new timer into the list. */
    method Place(t: Timer, ghost now: int) returns (ghost at: nat)
      requires Consistent(timers, active, fired, clock, added) && t.id !in added && clock <= now < t.next
      requires t.next == t.first && t.fireCount == 0
      modifies `timers, `clock, `added
      ensures Consistent(timers, active, fired, clock, added)
      ensures Fits(old(timers), at, t) && timers == Inserted(old(timers), at, t)
      ensures clock == now && added == old(added)[t.id := t]
    {
      var k := FindPosition(t);
      AddKeepsAll(timers, k, active, fired, clock, now, added, t);
      timers := Inserted(timers, k, t);
      clock, added, at := now, added[t.id := t], k;
    }

    /** One round of `check` up to the callback: idle, a timeout for the earliest deadline, or a firing. */
    method Check(now: int) returns (r: CheckResult)
      requires Valid() && active == None && clock <= now
      modifies this
      ensures Valid() && nextId == old(nextId)
      ensures r == Idle <==> cleanedUp || old(timers) == []
      ensures r.Fire? <==> !cleanedUp && old(timers) != [] && old(timers)[0].next < now
      ensures r.Wait? ==> |timers| > 0 && r.timeout == TimeoutUntil(timers[0].next, now)
      ensures !r.Fire? ==> timers == old(timers) && fired == old(fired) && active == None
      ensures r.Fire? ==>
        && timers == old(timers)[1..] && active == Some(r.timer)
        && r.timer == old(timers)[0].(fireCount := old(timers)[0].fireCount + 1)
        && fired == old(fired) + [Firing(r.timer.id, r.timer.fireCount, r.timer.next)]
    {
      if cleanedUp || |timers| == 0 {
        return Idle;
      }
      var earliest := timers[0];
      if !(earliest.next < now) {
        return Wait(TimeoutUntil(earliest.next, now));
      }
      var t := TakeOut(now);
      return Fire(t);
    }

    /** Counts the firing of the earliest timer and takes it out of the list. */
    method TakeOut(ghost now: int) returns (t: Timer)
      requires Consistent(timers, active, fired, clock, added) && active == None
      requires |timers| > 0 && timers[0].next < now && clock <= now
      modifies `timers, `active, `fired, `clock
      ensures Consistent(timers, active, fired, clock, added) && clock == now
      ensures t == old(timers)[0].(fireCount := old(timers)[0].fireCount + 1)
      ensures timers == old(timers)[1..] && active == Some(t)
      ensures fired == old(fired) + [Firing(t.id, t.fireCount, t.next)]
    {
      PopKeepsAll(timers, fired, clock, now, added);
      t := timers[0].(fireCount := timers[0].fireCount + 1);
      timers, active := timers[1..], Some(t);
      clock, fired := now, fired + [Firing(t.id, t.fireCount, t.next)];
    }

    /** After the callback: a recurring timer advances from its planned time, not from now. */
    method Return() returns (ghost at: nat)
      requires Valid() && active.Some?
      modifies this
      ensures Valid() && active == None && fired == old(fired) && nextId == old(nextId)
      ensures old(active).value.interval == 0 ==> timers == old(timers)
      ensures old(active).value.interval > 0 ==>
        var t := old(active).value.(next := old(active).value.next + old(active).value.interval);
        Fits(old(timers), at, t) && timers == Inserted(old(timers), at, t)
    {
      at := 0;
      var t := active.value;
      if t.interval > 0 {
        at := Reinsert(t);
      } else {
        LeaveKeepsAll(timers, t, fired, clock, added);
        active := None;
      }
    }

    method Reinsert(t: Timer) returns (ghost at: nat)
      requires Consistent(timers, active, fired, clock, added) && active == Some(t) && t.interval > 0
      modifies `timers, `active
      ensures Consistent(timers, active, fired, clock, added) && active == None
      ensures var u := t.(next := t.next + t.interval);
        Fits(old(timers), at, u) && timers == Inserted(old(timers), at, u)
    {
      var advanced := t.(next := t.next + t.interval);
      var k := FindPosition(advanced);
      ReturnKeepsAll(timers, k, t, fired, clock, added);
      timers, active := Inserted(timers, k, advanced), None;
      at := k;
    }

    method Cleanup()
      requires Valid()
      modifies this
      ensures Valid() && cleanedUp && fired == old(fired)
      ensures timers == if old(cleanedUp) then old(timers) else []
    {
      if !cleanedUp {
        cleanedUp, timers := true, [];
      }
    }
  }

  /**
   What `Valid` says of a run: a firing with `m` earlier firings of the same timer is `m`
   intervals after the timer's first deadline, none skipped and none repeated.
   */
  lemma FiresOnSchedule(timers: seq<Timer>, active: Option<Timer>, fired: seq<Firing>, added: map<u64, Timer>, i: nat)
    requires FiringsOk(timers, active, fired, added) && i < |fired|
    ensures fired[i].id in added
    ensures fired[i].deadline ==
      added[fired[i].id].first + Occurrences(fired[..i], fired[i].id) * added[fired[i].id].interval
  {
    assert Scheduled(added, fired[i]) && Numbered(fired, i);
  }

  /** ... and of one-shot timers: no two firings. */
  lemma OneShotFiresOnce(timers: seq<Timer>, active: Option<Timer>, fired: seq<Firing>, added: map<u64, Timer>,
                         i: nat, j: nat)
    requires FiringsOk(timers, active, fired, added) && i < j < |fired| && added[fired[i].id].interval == 0
    ensures fired[i].id != fired[j].id
  {
    assert Scheduled(added, fired[i]) && Scheduled(added, fired[j]) && Numbered(fired, j);
    FiredBefore(fired[..j], i);
  }
}
