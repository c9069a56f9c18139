/**
 The hysteresis alarm of the storage monitor: it changes state only after readings that ask
 for the change have come in without a break for a hold duration. A missing reading breaks
 the streak but never changes the state.
 */
module ThresholdAlarm {
  import opened Bytes
  import opened MonitorData
  import opened MonitorPolicy

  datatype Reading = Reading(value: Option<u32>, time: int)

  class Alarm {
    const trigger: u32
    const recovery: u32
    const duration: int
    const rising: Reading -> bool
    const falling: Reading -> bool
    var active: bool
    var pendingSince: Option<int>

    /** All readings, and how many of them there were at the last change. */
    ghost var history: seq<Reading>
    ghost var changedAt: nat

    /** The readings that ask for a change. */
    ghost function Asking(): (p: Reading -> bool)
      reads this
    {
      if active then falling else rising
    }

    ghost predicate Valid()
      reads this
    {
      && recovery < trigger && duration >= 0 && changedAt <= |history|
      && (forall r: Reading :: rising(r) <==> r.value.Some? && r.value.value >= trigger)
      && (forall r: Reading :: falling(r) <==> r.value.Some? && r.value.value <= recovery)
      && var start := Streak(Asking(), history, changedAt);
         pendingSince == if start < |history| then Some(history[start].time) else None
    }

    constructor (trigger: u32, recovery: u32, duration: int)
      requires recovery < trigger && duration >= 0
      ensures Valid() && !active && history == []
      ensures this.trigger == trigger && this.recovery == recovery && this.duration == duration
    {
      this.trigger, this.recovery, this.duration := trigger, recovery, duration;
      rising := (r: Reading) => r.value.Some? && r.value.value >= trigger;
      falling := (r: Reading) => r.value.Some? && r.value.value <= recovery;
      active, pendingSince, history, changedAt := false, None, [], 0;
    }

    /**
     The state changes exactly when the streak of asking readings since the last change
     spans the hold duration, from its first reading to this one.
     */
    method Feed(value: Option<u32>, now: int) returns (r: bool)
      requires Valid()
      modifies this
      ensures Valid() && history == old(history) + [Reading(value, now)] && r == active
      ensures var start := Streak(old(Asking()), history, old(changedAt));
        active != old(active) <==> start < |history| && now - history[start].time >= duration
      ensures changedAt == if active != old(active) then |history| else old(changedAt)
    {
      ghost var x := Reading(value, now);
      StreakGoesOn(Asking(), history, changedAt, x);
      history := history + [x];
      if value.None? {
        pendingSince := None;
        return active;
      }
      var transition := if active then value.value <= recovery else value.value >= trigger;
      if !transition {
        pendingSince := None;
        return active;
      }
      if pendingSince.None? {
        pendingSince := Some(now);
      }
      if now - pendingSince.value >= duration {
        active, pendingSince := !active, None;
        changedAt := |history|;
      }
      return active;
    }
  }

  /** What the streak in `Feed` means: every reading in it is known and on the far side of its bound. */
  lemma SustainedChange(asks: Reading -> bool, history: seq<Reading>, changedAt: nat, k: nat)
    requires changedAt <= |history| && Streak(asks, history, changedAt) <= k < |history|
    requires forall r: Reading :: asks(r) ==> r.value.Some?
    ensures asks(history[k]) && history[k].value.Some?
  {
    StreakIsLongest(asks, history, changedAt);
  }
}
