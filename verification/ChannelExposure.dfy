/**
 When a power loss of the collector can lose an alarm, told by the steps of the run. All of
 it holds in every run, earlier power losses included.

 Main results: once the sender has removed its copy, the alarm can be lost if and only if no
 sync of its inbox directory followed its rename into the inbox (`LostExactlyWhenUnsynced`);
 an entry taken on through a completed store is never exposed (`StoredIsSafe`), so that
 recovery and the already-present branch of a received frame are the only ways into danger
 (`OnlyUnseenAreExposed`).
 */
module ChannelExposure {
  import opened MonitorData
  import opened Names
  import opened ReliableChannel

  // ----- renames and syncs -----

  /** The step renames a frame of this identity into the inbox. */
  predicate Renames(s: State, step: Step, id: Identity) {
    && step.ReceiverMoves? && step.receiver.Receive? && step.receiver.m.id == id
    && id !in s.receiver.accepted && At(s.receiver.inbox, id).current == None
  }

  /** The step leaves the entry one possible content: a sync, or a power loss it came through. */
  predicate Secures(step: Step, id: Identity) {
    step == ReceiverMoves(InboxSync(id.source)) || step == ReceiverMoves(CollectorPowerLoss)
  }

  /** The identity was renamed into the inbox, and nothing has secured the entry since. */
  ghost predicate Unsynced(states: seq<State>, steps: seq<Step>, k: nat, id: Identity)
    requires |states| == |steps| + 1 && k <= |steps|
  {
    exists r :: 0 <= r < k && Renames(states[r], steps[r], id) && forall j :: r < j < k ==> !Secures(steps[j], id)
  }

  lemma UnsyncedStep(states: seq<State>, steps: seq<Step>, k: nat, id: Identity)
    requires |states| == |steps| + 1 && 0 < k <= |steps|
    ensures Unsynced(states, steps, k, id) <==>
      Renames(states[k - 1], steps[k - 1], id) || (!Secures(steps[k - 1], id) && Unsynced(states, steps, k - 1, id))
  {
    if !Secures(steps[k - 1], id) && Unsynced(states, steps, k - 1, id) {
      var r :| 0 <= r < k - 1 && Renames(states[r], steps[r], id) &&
        forall j :: r < j < k - 1 ==> !Secures(steps[j], id);
      assert forall j :: r < j < k ==> !Secures(steps[j], id);
    }
  }

  /** One step of one inbox entry. */
  lemma EntryStep(s: State, step: Step, next: State, id: Identity)
    requires Next(s, step, next)
    requires var e := At(s.receiver.inbox, id); e.current in e.durable
    ensures var e, f := At(s.receiver.inbox, id), At(next.receiver.inbox, id);
      && f.current in f.durable
      && (f.current.Some? ==>
            (None in f.durable <==>
              Renames(s, step, id) || (!Secures(step, id) && e.current.Some? && None in e.durable)))
      && (f.current.Some? && !Renames(s, step, id) && !Secures(step, id) ==> e.current.Some?)
  {
    if step == ReceiverMoves(CollectorPowerLoss) {
      assert Survives(At(s.receiver.inbox, id), At(next.receiver.inbox, id));
    }
  }

  lemma {:induction false} UnsyncedExactly(states: seq<State>, steps: seq<Step>, k: nat, id: Identity)
    requires Run(states, steps) && k <= |steps|
    ensures var e := At(states[k].receiver.inbox, id);
      e.current in e.durable && (e.current.Some? ==> (None in e.durable <==> Unsynced(states, steps, k, id)))
  {
    if k > 0 {
      UnsyncedExactly(states, steps, k - 1, id);
      UnsyncedStep(states, steps, k, id);
      EntryStep(states[k - 1], steps[k - 1], states[k], id);
    }
  }

  ghost predicate CanBeLost(s: State, id: Identity)
    requires id in s.senders.promised
  {
    exists next: State ::
      Next(s, ReceiverMoves(CollectorPowerLoss), next) && id in next.senders.promised && Lost(next, id)
  }

  /**
   In every run: a promised alarm that only the inbox still holds can be lost to a power loss
   of the collector if and only if its inbox directory was not synced after the rename.
   */
  lemma LostExactlyWhenUnsynced(states: seq<State>, steps: seq<Step>, k: nat, id: Identity)
    requires Run(states, steps) && k <= |steps| && id in states[k].senders.promised && !Lost(states[k], id)
    requires At(states[k].senders.outbox, id).current != Some(states[k].senders.promised[id])
    ensures CanBeLost(states[k], id) <==> Unsynced(states, steps, k, id)
  {
    var s := states[k];
    RunKeepsBase(states, steps, k);
    UnsyncedExactly(states, steps, k, id);
    assert Genuine(s.senders.used, id, At(s.receiver.inbox, id));
    if Unsynced(states, steps, k, id) {
      var next := LossFollows(s, id);
    }
    forall next: State
      | Next(s, ReceiverMoves(CollectorPowerLoss), next) && id in next.senders.promised && Lost(next, id)
      ensures Unsynced(states, steps, k, id)
    {
      assert Survives(At(s.receiver.inbox, id), At(next.receiver.inbox, id));
    }
  }

  // ----- what is never exposed -----

  /** In the inbox for good: no power loss takes it, and nobody will take it back. */
  predicate Safe(r: Receiver, id: Identity) {
    && At(r.inbox, id).current.Some? && None !in At(r.inbox, id).durable
    && !(r.collector.Publishing? && r.collector.message.id == id)
  }

  lemma SafeStep(r: Receiver, sent: set<Message>, step: ReceiverStep, next: Receiver, id: Identity)
    requires Safe(r, id) && ReceiverNext(r, sent, step, next) && At(r.inbox, id).current in At(r.inbox, id).durable
    ensures Safe(next, id)
  {
    if step.CollectorPowerLoss? {
      assert Survives(At(r.inbox, id), At(next.inbox, id));
    }
  }

  lemma SafeNext(s: State, step: Step, next: State, id: Identity)
    requires Safe(s.receiver, id) && Next(s, step, next)
    requires var e := At(s.receiver.inbox, id); e.current in e.durable
    ensures Safe(next.receiver, id)
  {
    if step.ReceiverMoves? {
      SafeStep(s.receiver, s.sent, step.receiver, next.receiver, id);
    }
  }

  /** An entry whose store has returned success stays safe, whatever fails later. */
  lemma {:induction false} StoredIsSafe(states: seq<State>, steps: seq<Step>, j: nat, k: nat)
    requires Run(states, steps) && j < k <= |steps| && steps[j] == ReceiverMoves(StoreReturn)
    ensures states[j].receiver.collector.Publishing?
    ensures Safe(states[k].receiver, states[j].receiver.collector.message.id)
  {
    assert Next(states[j], steps[j], states[j + 1]);
    if k > j + 1 {
      var id := states[j].receiver.collector.message.id;
      StoredIsSafe(states, steps, j, k - 1);
      UnsyncedExactly(states, steps, k - 1, id);
      SafeNext(states[k - 1], steps[k - 1], states[k], id);
    }
  }

  /** The collector takes an entry on without having stored it itself. */
  predicate TakesUnseen(s: State, step: Step, id: Identity) {
    && step.ReceiverMoves?
    && (step.receiver == Recover(id)
        || (step.receiver.Receive? && step.receiver.m.id == id && id !in s.receiver.accepted
            && At(s.receiver.inbox, id).current.Some?))
  }

  /** On its way to acceptance, or accepted by some process. */
  predicate TakenOn(r: Receiver, id: Identity) {
    id in r.confirmed || r.collector == Holding(id) || r.collector == Ingested(id)
  }

  lemma TakenOnStep(s: State, step: Step, next: State, id: Identity)
    requires Next(s, step, next) && !TakesUnseen(s, step, id)
    requires var e := At(s.receiver.inbox, id); e.current in e.durable
    requires TakenOn(s.receiver, id) ==> Safe(s.receiver, id)
    ensures TakenOn(next.receiver, id) ==> Safe(next.receiver, id)
  {
    if TakenOn(s.receiver, id) {
      SafeNext(s, step, next, id);
    }
  }

  lemma {:induction false} SeenIsSafe(states: seq<State>, steps: seq<Step>, k: nat, id: Identity)
    requires Run(states, steps) && k <= |steps|
    requires forall i :: 0 <= i < k ==> !TakesUnseen(states[i], steps[i], id)
    ensures TakenOn(states[k].receiver, id) ==> Safe(states[k].receiver, id)
  {
    if k > 0 {
      SeenIsSafe(states, steps, k - 1, id);
      UnsyncedExactly(states, steps, k - 1, id);
      TakenOnStep(states[k - 1], steps[k - 1], states[k], id);
    }
  }

  /** An accepted alarm that a power loss can take was recovered, or found present when its frame came. */
  lemma OnlyUnseenAreExposed(states: seq<State>, steps: seq<Step>, k: nat, id: Identity)
    requires Run(states, steps) && k <= |steps|
    requires id in states[k].receiver.confirmed && None in At(states[k].receiver.inbox, id).durable
    ensures exists i :: 0 <= i < k && TakesUnseen(states[i], steps[i], id)
  {
    if forall i :: 0 <= i < k ==> !TakesUnseen(states[i], steps[i], id) {
      SeenIsSafe(states, steps, k, id);
    }
  }
}
