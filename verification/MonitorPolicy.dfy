/**
 The alarm policies: each keeps a few fields or a ring buffer, and each is proved against the
 whole history of its samples (`history`, ghost). A policy's state after any sequence of
 samples is thereby a property of that sequence alone.
 */
module MonitorPolicy {
  import opened Bytes

  datatype FeedResult = FeedResult(noteworthy: bool, value: u32)

  // ----- streaks: the latest samples that all satisfy a condition -----

  datatype Sample = Sample(value: u32, time: int)

  /** Where the unbroken streak at the end of `h` begins, not looking back before `base`. */
  function Streak<T>(p: T -> bool, h: seq<T>, base: nat): (start: nat)
    requires base <= |h|
    ensures base <= start <= |h|
  {
    if |h| == base || !p(h[|h| - 1]) then |h| else Streak(p, h[..|h| - 1], base)
  }

  /** The streak is the longest: everything in it satisfies `p`, and what precedes it does not. */
  lemma {:induction false} StreakIsLongest<T>(p: T -> bool, h: seq<T>, base: nat)
    requires base <= |h|
    ensures var s := Streak(p, h, base);
      && (forall i :: s <= i < |h| ==> p(h[i]))
      && (base < s < |h| ==> !p(h[s - 1]))
      && (base < s == |h| ==> !p(h[s - 1]))
  {
    if |h| > base && p(h[|h| - 1]) {
      StreakIsLongest(p, h[..|h| - 1], base);
    }
  }

  lemma StreakGoesOn<T>(p: T -> bool, h: seq<T>, base: nat, x: T)
    requires base <= |h|
    ensures Streak(p, h + [x], base) == if p(x) then Streak(p, h, base) else |h| + 1
  {
    assert (h + [x])[..|h|] == h;
  }

  // ----- CONT_FOR: above the threshold without a break for a duration -----

  datatype Level = Low | Pending | Active

  /** Some later sample of the present streak lies `duration` after its first. */
  ghost predicate HeldFor(above: Sample -> bool, h: seq<Sample>, duration: int) {
    Reached(h, Streak(above, h, 0), duration)
  }

  ghost predicate Reached(h: seq<Sample>, start: nat, duration: int) {
    exists j :: start < j < |h| && h[j].time - h[start].time >= duration
  }

  lemma ReachedMore(h: seq<Sample>, x: Sample, start: nat, duration: int)
    ensures Reached(h + [x], start, duration) <==>
      Reached(h, start, duration) || (start < |h| && x.time - h[start].time >= duration)
  {
    var g := h + [x];
    if Reached(h, start, duration) {
      var j :| start < j < |h| && h[j].time - h[start].time >= duration;
      assert g[j] == h[j] && g[start] == h[start];
    }
    if start < |h| && x.time - h[start].time >= duration {
      assert g[|h|] == x && g[start] == h[start];
    }
  }

  class ContFor {
    const threshold: u32
    const duration: int
    const above: Sample -> bool
    var level: Level
    var crossedAt: int
    ghost var history: seq<Sample>

    ghost predicate Valid()
      reads this
    {
      && duration >= 0
      && (forall s: Sample :: above(s) <==> s.value > threshold)
      && (level == Low <==> Streak(above, history, 0) == |history|)
      && (level == Pending ==> crossedAt == history[Streak(above, history, 0)].time)
      && (level == Active <==> HeldFor(above, history, duration))
    }

    constructor (threshold: u32, duration: int)
      requires duration >= 0
      ensures Valid() && history == [] && this.threshold == threshold && this.duration == duration
    {
      this.threshold, this.duration := threshold, duration;
      above := (s: Sample) => s.value > threshold;
      level, crossedAt, history := Low, 0, [];
    }

    /** Noteworthy exactly when the condition begins to hold. */
    method Feed(value: u32, now: int) returns (r: FeedResult)
      requires Valid()
      modifies this
      ensures Valid() && history == old(history) + [Sample(value, now)]
      ensures r.value == if HeldFor(above, history, duration) then 1 else 0
      ensures r.noteworthy <==> HeldFor(above, history, duration) && !HeldFor(above, old(history), duration)
    {
      ghost var before, x := history, Sample(value, now);
      StreakGoesOn(above, before, 0, x);
      history := history + [x];
      if value <= threshold {
        level, crossedAt := Low, 0;
        return FeedResult(false, 0);
      }
      ghost var start := Streak(above, before, 0);
      StillHeld(above, before, x, duration);
      match level {
        case Low =>
          level, crossedAt := Pending, now;
          return FeedResult(false, 0);
        case Pending =>
          if now < crossedAt || now - crossedAt < duration {
            return FeedResult(false, 0);
          }
          level := Active;
          return FeedResult(true, 1);
        case Active =>
          return FeedResult(false, 1);
      }
    }
  }

  /** One more sample in the streak: held before, or held by the new one. */
  lemma StillHeld(above: Sample -> bool, h: seq<Sample>, x: Sample, duration: int)
    requires above(x)
    ensures HeldFor(above, h + [x], duration) <==>
      || HeldFor(above, h, duration)
      || (Streak(above, h, 0) < |h| && x.time - h[Streak(above, h, 0)].time >= duration)
  {
    StreakGoesOn(above, h, 0, x);
    ReachedMore(h, x, Streak(above, h, 0), duration);
  }

  // ----- ring buffers -----

  /** The contents of a ring, oldest first: `head` is where the next element goes. */
  function Window<T>(ring: seq<T>, head: nat, count: nat): (w: seq<T>)
    requires head < |ring| && count <= |ring| && (count < |ring| ==> head == count)
    ensures |w| == count
  {
    if count < |ring| then ring[..count] else ring[head..] + ring[..head]
  }

  /** The last `n` elements, or all there are. */
  function Last<T>(s: seq<T>, n: nat): (t: seq<T>)
    ensures |t| == if |s| <= n then |s| else n
  {
    if |s| <= n then s else s[|s| - n..]
  }

  predicate RingOk<T(==)>(ring: seq<T>, head: nat, count: nat, all: seq<T>) {
    && head < |ring| && count <= |ring| && (count < |ring| ==> head == count)
    && Window(ring, head, count) == Last(all, |ring|)
  }

  function After(head: nat, n: nat): (next: nat)
    requires head < n
    ensures next < n
  {
    if head + 1 == n then 0 else head + 1
  }

  lemma AfterIsModulo(head: nat, n: nat)
    requires head < n
    ensures After(head, n) == (head + 1) % n
  {
  }

  /** Writing at the head and moving it on drops the oldest and appends the newest. */
  lemma RingPush<T>(ring: seq<T>, head: nat, count: nat, all: seq<T>, x: T)
    requires RingOk(ring, head, count, all)
    ensures RingOk(ring[head := x], After(head, |ring|), if count < |ring| then count + 1 else count, all + [x])
  {
    var n, r := |ring|, ring[head := x];
    var next, w := After(head, n), Window(ring, head, count);
    if count < n {
      assert r[..count + 1] == w + [x];
      assert count + 1 == n ==> r[next..] + r[..next] == r;
    } else {
      assert w[1..] == ring[head + 1..] + ring[..head];
      assert r[next..] + r[..next] == w[1..] + [x];
    }
  }

  /** The in-place form of it, on the policies' own vectors. */
  method Push<T(==)>(ring: array<T>, head: nat, count: nat, ghost all: seq<T>, x: T) returns (next: nat, more: nat)
    requires RingOk(ring[..], head, count, all)
    modifies ring
    ensures RingOk(ring[..], next, more, all + [x])
    ensures more == |Last(all + [x], ring.Length)|
    ensures more == ring.Length ==> ring[next] == Last(all + [x], ring.Length)[0]
  {
    RingPush(ring[..], head, count, all, x);
    AfterIsModulo(head, ring.Length);
    ghost var filled := ring[..][head := x];
    ring[head] := x;
    assert ring[..] == filled;
    next, more := (head + 1) % ring.Length, if count < ring.Length then count + 1 else count;
    assert more == ring.Length ==> Window(ring[..], next, more)[0] == ring[next];
  }

  // ----- TIMES_PER_PERIOD: `count` events within a period -----

  /** There are `n` events and the last `n` of them fit into the period. */
  predicate Crowded(events: seq<int>, n: nat, period: int)
    requires n > 0
  {
    |events| >= n && 0 <= events[|events| - 1] - events[|events| - n] <= period
  }

  class TimesPerPeriod {
    const threshold: u32
    const period: int
    const events: array<int>
    var count: nat
    var head: nat
    var alerting: bool

    /** The times of all samples above the threshold. */
    ghost var history: seq<int>

    ghost predicate Valid()
      reads this, events
    {
      && events.Length > 0
      && RingOk(events[..], head, count, history)
      && alerting == Crowded(history, events.Length, period)
    }

    constructor (threshold: u32, target: nat, period: int)
      requires target > 0
      ensures Valid() && fresh(events) && history == [] && events.Length == target
      ensures this.threshold == threshold && this.period == period
    {
      this.threshold, this.period := threshold, period;
      events := new int[target](_ => 0);
      count, head, alerting, history := 0, 0, false, [];
    }

    /** Samples at or below the threshold change nothing; the rest fire on the rising edge only. */
    method Feed(value: u32, now: int) returns (r: FeedResult)
      requires Valid()
      modifies this, events
      ensures Valid() && history == if value > threshold then old(history) + [now] else old(history)
      ensures r.value == if Crowded(history, events.Length, period) then 1 else 0
      ensures r.noteworthy <==> Crowded(history, events.Length, period) && !Crowded(old(history), events.Length, period)
    {
      if value <= threshold {
        return FeedResult(false, if alerting then 1 else 0);
      }
      head, count := Push(events, head, count, history, now);
      history := history + [now];
      var met := false;
      if count == events.Length {
        var oldest := events[head];
        if now >= oldest {
          met := now - oldest <= period;
        }
      }
      var fired := met && !alerting;
      alerting := met;
      return FeedResult(fired, if alerting then 1 else 0);
    }
  }

  /** For times that never run backwards: the condition is that `n` events lie that close together. */
  lemma CrowdedMeansClose(events: seq<int>, n: nat, period: int)
    requires n > 0 && forall i, j :: 0 <= i < j < |events| ==> events[i] <= events[j]
    ensures Crowded(events, n, period) <==>
      |events| >= n && forall i :: |events| - n <= i < |events| ==> events[|events| - 1] - events[i] <= period
  {
    if |events| >= n {
      assert n == 1 || events[|events| - n] <= events[|events| - 1];
    }
  }

  // ----- SMOOTH_TRIM: the mean of the last accepted samples -----

  function Sum(s: seq<u32>): (n: nat) {
    if |s| == 0 then 0 else s[0] + Sum(s[1..])
  }

  lemma {:induction false} SumConcat(s: seq<u32>, t: seq<u32>)
    ensures Sum(s + t) == Sum(s) + Sum(t)
  {
    if |s| == 0 {
      assert s + t == t;
    } else {
      assert (s + t)[1..] == s[1..] + t;
      SumConcat(s[1..], t);
    }
  }

  lemma TimesNext(k: nat, n: nat)
    ensures k * (n + 1) == k * n + k
  {
  }

  lemma {:induction false} TimesLess(a: nat, b: nat, n: nat)
    requires a < b
    ensures a * n + n <= b * n
  {
    TimesNext(n, b - 1);
    if a < b - 1 {
      TimesLess(a, b - 1, n);
    }
  }

  lemma {:induction false} SumBounds(s: seq<u32>, low: nat, high: nat)
    requires forall i :: 0 <= i < |s| ==> low <= s[i] <= high
    ensures low * |s| <= Sum(s) <= high * |s|
  {
    if |s| > 0 {
      SumBounds(s[1..], low, high);
      TimesNext(low, |s[1..]|);
      TimesNext(high, |s[1..]|);
    }
  }

  /** The 64-bit sum of the code cannot overflow for windows of up to 2^32 samples. */
  lemma SumFits(s: seq<u32>)
    requires |s| <= TWO_32
    ensures Sum(s) < TWO_64
  {
    SumBounds(s, 0, TWO_32 - 1);
  }

  lemma QuotientBounds(total: nat, n: nat)
    requires n > 0
    ensures total / n * n <= total < total / n * n + n
  {
  }

  /** Integer division, as the code does it; an empty window has mean zero. */
  function Mean(s: seq<u32>): (n: nat) {
    if |s| == 0 then 0 else Sum(s) / |s|
  }

  /** The floor mean lies within the extremes of what it averages. */
  lemma MeanWithin(s: seq<u32>, low: nat, high: nat)
    requires |s| > 0 && forall i :: 0 <= i < |s| ==> low <= s[i] <= high
    ensures low <= Mean(s) <= high
  {
    SumBounds(s, low, high);
    QuotientBounds(Sum(s), |s|);
    BetweenProducts(Sum(s), |s|, Mean(s), low, high);
  }

  lemma BetweenProducts(total: nat, n: nat, q: nat, low: nat, high: nat)
    requires q * n <= total < q * n + n && low * n <= total <= high * n
    ensures low <= q <= high
  {
    if q < low {
      TimesLess(q, low, n);
    } else if q > high {
      TimesLess(high, q, n);
    }
  }

  class SmoothTrim {
    const trim: u32
    const samples: array<u32>
    var count: nat
    var head: nat
    var sum: nat
    var average: nat

    /** The samples that passed the trim. */
    ghost var accepted: seq<u32>

    ghost predicate SumOk()
      reads this, samples
    {
      && samples.Length > 0
      && RingOk(samples[..], head, count, accepted)
      && sum == Sum(Last(accepted, samples.Length))
    }

    ghost predicate Valid()
      reads this, samples
    {
      SumOk() && average == Mean(Last(accepted, samples.Length))
    }

    constructor (window: nat, trim: u32)
      requires window > 0
      ensures Valid() && fresh(samples) && accepted == [] && samples.Length == window && this.trim == trim
    {
      this.trim := trim;
      samples := new u32[window](_ => 0);
      count, head, sum, average, accepted := 0, 0, 0, 0, [];
    }

    /** The first sample always counts; a later one only within `trim` of the mean. */
    predicate Passes(value: u32): (passes: bool)
      reads this
      ensures passes <==> count == 0 || average - trim <= value <= average + trim
    {
      count == 0 || (if value >= average then value - average else average - value) <= trim
    }

    /** Replaces the oldest sample once the window is full. */
    method Accept(value: u32)
      requires SumOk()
      modifies this, samples
      ensures SumOk() && accepted == old(accepted) + [value] && average == old(average)
    {
      SumPush(accepted, samples.Length, value);
      if count == samples.Length {
        assert Window(samples[..], head, count)[0] == samples[head];
        sum := sum - samples[head];
      }
      sum := sum + value;
      head, count := Push(samples, head, count, accepted, value);
      accepted := accepted + [value];
    }

    method Average() returns (mean: nat)
      requires SumOk() && count > 0
      ensures mean == Mean(Last(accepted, samples.Length)) < TWO_32
    {
      MeanFits(Last(accepted, samples.Length));
      mean := sum / count;
    }

    method Feed(value: u32) returns (r: FeedResult)
      requires Valid()
      modifies this, samples
      ensures Valid()
      ensures accepted == if old(Passes(value)) then old(accepted) + [value] else old(accepted)
      ensures r.value == average == Mean(Last(accepted, samples.Length))
      ensures r.noteworthy <==> average != old(average)
      ensures !old(Passes(value)) ==> sum == old(sum) && samples[..] == old(samples[..])
    {
      if Passes(value) {
        Accept(value);
        var mean := Average();
        r := FeedResult(mean != average, 0);
        average := mean;
      } else {
        r := FeedResult(false, 0);
      }
      MeanFits(Last(accepted, samples.Length));
      r := r.(value := average);
    }
  }

  /** A mean of 32-bit samples is a 32-bit number. */
  lemma MeanFits(s: seq<u32>)
    ensures 0 <= Mean(s) < TWO_32
  {
    if |s| > 0 {
      MeanWithin(s, 0, TWO_32 - 1);
    }
  }

  /** The running sum never goes below zero: what leaves the window was in it. */
  lemma SumPush(all: seq<u32>, n: nat, x: u32)
    requires n > 0
    ensures var before, after := Last(all, n), Last(all + [x], n);
      Sum(after) == Sum(before) + x - (if |all| < n then 0 else before[0])
    ensures |all| >= n ==> Last(all, n)[0] <= Sum(Last(all, n))
  {
    var before, after := Last(all, n), Last(all + [x], n);
    SumConcat(before, [x]);
    assert Sum([x]) == x;
    if |all| < n {
      assert after == before + [x];
    } else {
      assert after == before[1..] + [x];
      SumConcat(before[1..], [x]);
    }
  }
}
