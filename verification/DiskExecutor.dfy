/**
 The bounded disk executor and the transfers registered with it. Receivers and file sources
 share one protocol of flags (busy, cancelled, terminal, post_enabled); each critical section
 and each lock-free piece of work is one step here, and steps of different transfers and
 threads interleave freely.

 Main results: a cleanup task is never refused (`CleanupAccepted`), so the two calls of
 `terminate` are unreachable; an unregistered transfer holds no file and posts nothing; and
 after shutdown has begun every run drains (`DrainIsBounded`, `DrainNeverStalls`).
 */
module DiskExecutor {
  const MAX_TRANSFERS: nat := 64  // registrations, and slots of the job queue

  datatype Phase = Created | Running | Closing | Stopped

  datatype Job = Initialize | Write | Finish | Cleanup

  /** Where a transfer's task is. `Claimed`: `cancel` has set busy and is about to post. */
  datatype Work =
    | NoWork
    | Claimed
    | Queued(job: Job)
    | Working(job: Job)
    | Worked(job: Job, failed: bool)   // body done, lock not yet taken
    | Ending                           // terminal is set; closing the file without the lock
    | Leaving                          // busy is cleared; about to release the registration

  datatype Transfer = Transfer(
    registered: bool, busy: bool, cancelled: bool, terminal: bool, postEnabled: bool,
    file: bool, reporting: bool, work: Work,
    posts: nat)                        // results handed to the event loop

  datatype Executor = Executor(
    phase: Phase,
    poolStopped: bool,
    threads: nat,
    transfers: seq<Transfer>,
    hooks: set<nat>)                   // cancellations `begin_shutdown` still has to call

  // ----- one transfer -----

  const ATTACHED: Transfer := Transfer(true, false, false, false, true, false, false, NoWork, 0)

  function Launched(t: Transfer, job: Job): (next: Transfer) {
    t.(busy := true, work := Queued(job))
  }

  predicate Posts(t: Transfer) {
    !t.cancelled && t.postEnabled
  }

  /** The end of a job's body, under the lock. */
  function Concluded(t: Transfer): (next: Transfer)
    requires t.work.Worked?
  {
    if t.cancelled || t.work.failed || t.work.job == Finish then t.(terminal := true, reporting := true, work := Ending)
    else t.(busy := false, work := NoWork, posts := if Posts(t) then t.posts + 1 else t.posts)
  }

  /** A cleanup task begins by setting terminal; it reports nothing. */
  function CleaningUp(t: Transfer): (next: Transfer) {
    t.(terminal := true, reporting := false, work := Ending)
  }

  function Closed(t: Transfer): (next: Transfer) {
    t.(file := false, busy := false, work := Leaving, posts := if t.reporting && Posts(t) then t.posts + 1 else t.posts)
  }

  function Released(t: Transfer): (next: Transfer) {
    t.(registered := false, work := NoWork)
  }

  function Cancelled(t: Transfer): (next: Transfer) {
    var c := t.(cancelled := true, postEnabled := false);
    if t.terminal || t.busy then c else c.(busy := true, work := Claimed)
  }

  predicate Ok(t: Transfer) {
    && t.busy == (t.work.Claimed? || t.work.Queued? || t.work.Working? || t.work.Worked? || t.work.Ending?)
    && t.terminal == (t.work.Ending? || t.work.Leaving? || !t.registered)
    && (!t.registered ==> t.work == NoWork && !t.file)
    && (t.work.Leaving? ==> !t.file)
    && (t.registered && t.cancelled ==> t.work != NoWork)
    && (t.work.Claimed? || t.work == Queued(Cleanup) || t.work == Working(Cleanup) ==> t.cancelled)
    && (t.work.Worked? ==> t.work.job != Cleanup)
    && t.postEnabled == !t.cancelled
  }

  // ----- the executor -----

  function Count(w: Transfer -> nat, s: seq<Transfer>): (n: nat) {
    if |s| == 0 then 0 else Count(w, s[..|s| - 1]) + w(s[|s| - 1])
  }

  function IsRegistered(t: Transfer): (n: nat) { if t.registered then 1 else 0 }

  function IsQueued(t: Transfer): (n: nat) { if t.work.Queued? then 1 else 0 }

  function IsRunning(t: Transfer): (n: nat) {
    if t.work.Working? || t.work.Worked? || t.work.Ending? || t.work.Leaving? then 1 else 0
  }

  /** The answer of `post`: the phase admits the job and the queue has room. */
  predicate Accepts(s: Executor, cleanup: bool) {
    && (s.phase == Running || (cleanup && s.phase == Closing))
    && !s.poolStopped && Count(IsQueued, s.transfers) < MAX_TRANSFERS
  }

  datatype Step =
    | StartPool(threads: nat)
    | Attach
    | Launch(i: nat, job: Job)
    | Begin(i: nat)
    | Body(i: nat, acquired: bool, failed: bool)
    | Conclude(i: nat)
    | Close(i: nat)
    | Release(i: nat)
    | Cancel(i: nat)
    | PostCleanup(i: nat)
    | BeginShutdown
    | Hook(i: nat)
    | StopPool
    | Stop

  function With(s: Executor, i: nat, t: Transfer): (next: Executor)
    requires i < |s.transfers|
  {
    s.(transfers := s.transfers[i := t])
  }

  predicate Next(s: Executor, step: Step, next: Executor) {
    match step
    case StartPool(threads) => threads > 0 && s.phase == Created && next == s.(phase := Running, threads := threads)
    case Attach =>
      && s.phase == Running && Count(IsRegistered, s.transfers) < MAX_TRANSFERS
      && next == s.(transfers := s.transfers + [ATTACHED])
    case Launch(i, job) =>
      && i < |s.transfers| && job != Cleanup && var t := s.transfers[i];
      && !t.cancelled && !t.terminal && !t.busy && Accepts(s, false)
      && next == With(s, i, Launched(t, job))
    case Begin(i) =>
      && i < |s.transfers| && s.transfers[i].work.Queued? && Count(IsRunning, s.transfers) < s.threads
      && next == With(s, i, s.transfers[i].(work := Working(s.transfers[i].work.job)))
    case Body(i, acquired, failed) =>
      && i < |s.transfers| && var t := s.transfers[i];
      && t.work.Working?
      && next == With(s, i, if t.work.job == Cleanup then CleaningUp(t)
                            else t.(work := Worked(t.work.job, failed),
                                    file := t.file || (acquired && t.work.job == Initialize)))
    case Conclude(i) =>
      i < |s.transfers| && s.transfers[i].work.Worked? && next == With(s, i, Concluded(s.transfers[i]))
    case Close(i) =>
      i < |s.transfers| && s.transfers[i].work.Ending? && next == With(s, i, Closed(s.transfers[i]))
    case Release(i) =>
      i < |s.transfers| && s.transfers[i].work.Leaving? && next == With(s, i, Released(s.transfers[i]))
    case Cancel(i) => i < |s.transfers| && next == With(s, i, Cancelled(s.transfers[i]))
    case PostCleanup(i) =>
      && i < |s.transfers| && s.transfers[i].work.Claimed? && Accepts(s, true)
      && next == With(s, i, s.transfers[i].(work := Queued(Cleanup)))
    case BeginShutdown =>
      && (s.phase == Created || s.phase == Running)
      && next == s.(phase := Closing, hooks := set i | 0 <= i < |s.transfers| && s.transfers[i].registered)
    case Hook(i) =>
      && i in s.hooks && i < |s.transfers|
      && next == With(s, i, Cancelled(s.transfers[i])).(hooks := s.hooks - {i})
    case StopPool =>
      s.phase == Closing && Count(IsRegistered, s.transfers) == 0 && next == s.(poolStopped := true)
    case Stop => s.phase == Closing && s.poolStopped && next == s.(phase := Stopped)
  }

  ghost predicate Inv(s: Executor) {
    && (forall i :: 0 <= i < |s.transfers| ==> Ok(s.transfers[i]))
    && Count(IsRegistered, s.transfers) <= MAX_TRANSFERS
    && (s.phase == Created || s.phase == Stopped || s.poolStopped ==> Count(IsRegistered, s.transfers) == 0)
    && (s.poolStopped ==> s.phase == Closing || s.phase == Stopped)
    && (s.phase == Running || (s.phase == Closing && Count(IsRegistered, s.transfers) > 0) ==> s.threads > 0)
    && (s.phase == Closing ==>
          forall i :: 0 <= i < |s.transfers| && s.transfers[i].registered && !s.transfers[i].cancelled ==> i in s.hooks)
  }

  const START: Executor := Executor(Created, false, 0, [], {})

  // ----- counting -----

  lemma {:induction false} CountUpdate(w: Transfer -> nat, s: seq<Transfer>, i: nat, t: Transfer)
    requires i < |s|
    ensures Count(w, s[i := t]) + w(s[i]) == Count(w, s) + w(t)
  {
    var n := |s| - 1;
    if i < n {
      CountUpdate(w, s[..n], i, t);
      assert s[i := t][..n] == s[..n][i := t];
    } else {
      assert s[i := t][..n] == s[..n];
    }
  }

  lemma CountAppend(w: Transfer -> nat, s: seq<Transfer>, t: Transfer)
    ensures Count(w, s + [t]) == Count(w, s) + w(t)
  {
    assert (s + [t])[..|s|] == s;
  }

  lemma {:induction false} CountAtMost(w: Transfer -> nat, v: Transfer -> nat, s: seq<Transfer>)
    requires forall i :: 0 <= i < |s| ==> w(s[i]) <= v(s[i])
    ensures Count(w, s) <= Count(v, s)
  {
    if |s| > 0 {
      CountAtMost(w, v, s[..|s| - 1]);
    }
  }

  /** Strictly fewer, if one place makes a difference. */
  lemma CountBelow(w: Transfer -> nat, v: Transfer -> nat, s: seq<Transfer>, i: nat)
    requires i < |s| && forall j :: 0 <= j < |s| ==> w(s[j]) <= v(s[j])
    ensures Count(w, s) + v(s[i]) <= Count(v, s) + w(s[i])
    decreases |s|
  {
    var n := |s| - 1;
    if i < n {
      CountBelow(w, v, s[..n], i);
    } else {
      CountAtMost(w, v, s[..n]);
    }
  }

  lemma {:induction false} CountZero(w: Transfer -> nat, s: seq<Transfer>, i: nat)
    requires i < |s| && Count(w, s) == 0
    ensures w(s[i]) == 0
  {
    if i < |s| - 1 {
      CountZero(w, s[..|s| - 1], i);
    }
  }

  // ----- every step keeps the invariant -----

  lemma LocalSteps(t: Transfer, job: Job, acquired: bool, failed: bool)
    requires Ok(t) && job != Cleanup
    ensures Ok(ATTACHED) && Ok(Cancelled(t))
    ensures !t.cancelled && !t.terminal && !t.busy ==> Ok(Launched(t, job))
    ensures t.work.Queued? ==> Ok(t.(work := Working(t.work.job)))
    ensures t.work == Working(Cleanup) ==> Ok(CleaningUp(t))
    ensures t.work.Working? && t.work.job != Cleanup ==>
      Ok(t.(work := Worked(t.work.job, failed), file := t.file || (acquired && t.work.job == Initialize)))
    ensures t.work.Worked? ==> Ok(Concluded(t))
    ensures t.work.Ending? ==> Ok(Closed(t))
    ensures t.work.Leaving? ==> Ok(Released(t))
    ensures t.work.Claimed? ==> Ok(t.(work := Queued(Cleanup)))
  {
  }

  /** The transfer a step works on. */
  function Subject(step: Step): (i: nat) {
    match step
    case Launch(i, _) => i
    case Begin(i) => i
    case Body(i, _, _) => i
    case Conclude(i) => i
    case Close(i) => i
    case Release(i) => i
    case Cancel(i) => i
    case PostCleanup(i) => i
    case Hook(i) => i
    case _ => 0
  }

  predicate Local(step: Step) {
    !(step.StartPool? || step.Attach? || step.BeginShutdown? || step.StopPool? || step.Stop?)
  }

  /** A local step replaces one transfer; registration ends but never begins there. */
  lemma LocalStep(s: Executor, step: Step, next: Executor)
    requires Inv(s) && Next(s, step, next) && Local(step)
    ensures var i := Subject(step);
      && i < |s.transfers| == |next.transfers|
      && next.transfers == s.transfers[i := next.transfers[i]]
      && Ok(next.transfers[i])
      && (next.transfers[i].registered ==> s.transfers[i].registered)
      && (s.transfers[i].cancelled ==> next.transfers[i].cancelled)
      && (next.transfers[i].posts != s.transfers[i].posts ==> next.transfers[i].registered && !s.transfers[i].cancelled)
  {
    var i := Subject(step);
    var job := if step.Launch? then step.job else Write;
    LocalSteps(s.transfers[i], job, step.Body? && step.acquired, step.Body? && step.failed);
  }

  lemma LocalKeepsInv(s: Executor, step: Step, next: Executor)
    requires Inv(s) && Next(s, step, next) && Local(step)
    ensures Inv(next)
  {
    LocalStep(s, step, next);
    CountUpdate(IsRegistered, s.transfers, Subject(step), next.transfers[Subject(step)]);
    assert next.phase == s.phase && next.poolStopped == s.poolStopped && next.threads == s.threads;
  }

  lemma NextKeepsInv(s: Executor, step: Step, next: Executor)
    requires Inv(s) && Next(s, step, next)
    ensures Inv(next)
  {
    if Local(step) {
      LocalKeepsInv(s, step, next);
    } else if step.Attach? {
      CountAppend(IsRegistered, s.transfers, ATTACHED);
    }
  }

  ghost predicate Run(states: seq<Executor>, steps: seq<Step>) {
    && |states| == |steps| + 1 && Inv(states[0])
    && forall i :: 0 <= i < |steps| ==> Next(states[i], steps[i], states[i + 1])
  }

  lemma {:induction false} RunKeepsInv(states: seq<Executor>, steps: seq<Step>, k: nat)
    requires Run(states, steps) && k < |states|
    ensures Inv(states[k])
  {
    if k > 0 {
      RunKeepsInv(states, steps, k - 1);
      NextKeepsInv(states[k - 1], steps[k - 1], states[k]);
    }
  }

  // ----- cleanup is never refused -----

  /** At most one queued task per registration, and none for a transfer that is not queued itself. */
  lemma QueueHasRoom(s: Executor, i: nat)
    requires Inv(s) && i < |s.transfers| && s.transfers[i].registered && !s.transfers[i].work.Queued?
    ensures Count(IsQueued, s.transfers) < Count(IsRegistered, s.transfers) <= MAX_TRANSFERS
  {
    CountBelow(IsQueued, IsRegistered, s.transfers, i);
  }

  /** The cleanup task of `cancel` is accepted in every reachable state: `terminate` is never called. */
  lemma CleanupAccepted(states: seq<Executor>, steps: seq<Step>, k: nat, i: nat)
    requires Run(states, steps) && k < |states|
    requires i < |states[k].transfers| && states[k].transfers[i].work.Claimed?
    ensures Accepts(states[k], true)
  {
    RunKeepsInv(states, steps, k);
    QueueHasRoom(states[k], i);
  }

  /** A job is refused for the phase alone, never for a full queue. */
  lemma RefusedOnlyWhenNotRunning(states: seq<Executor>, steps: seq<Step>, k: nat, i: nat)
    requires Run(states, steps) && k < |states| && i < |states[k].transfers|
    requires !states[k].transfers[i].busy && !states[k].transfers[i].terminal
    ensures Accepts(states[k], false) <==> states[k].phase == Running
  {
    RunKeepsInv(states, steps, k);
    QueueHasRoom(states[k], i);
  }

  /**
   The pool never stops under a registered transfer, a cancelled one has a task that will
   release it, and what is not registered holds no file.
   */
  lemma RegisteredIsServed(states: seq<Executor>, steps: seq<Step>, k: nat, i: nat)
    requires Run(states, steps) && k < |states| && i < |states[k].transfers|
    ensures states[k].transfers[i].registered ==> !states[k].poolStopped && states[k].phase in {Running, Closing}
    ensures states[k].transfers[i].registered && states[k].transfers[i].cancelled ==>
      states[k].transfers[i].work != NoWork
    ensures !states[k].transfers[i].registered ==> !states[k].transfers[i].file
  {
    RunKeepsInv(states, steps, k);
    if states[k].transfers[i].registered && Count(IsRegistered, states[k].transfers) == 0 {
      CountZero(IsRegistered, states[k].transfers, i);
    }
  }

  /** A result is posted only for a transfer that is registered before and after, and not cancelled. */
  lemma NoPostAfterRelease(states: seq<Executor>, steps: seq<Step>, k: nat, i: nat)
    requires Run(states, steps) && k < |steps| && i < |states[k].transfers|
    ensures i < |states[k + 1].transfers|
    ensures states[k + 1].transfers[i].posts != states[k].transfers[i].posts ==>
      states[k].transfers[i].registered && states[k + 1].transfers[i].registered && !states[k].transfers[i].cancelled
  {
    RunKeepsInv(states, steps, k);
    assert Next(states[k], steps[k], states[k + 1]);
    if Local(steps[k]) {
      LocalStep(states[k], steps[k], states[k + 1]);
    }
  }

  /** A result is still to come: of a job under way, or of its end. */
  function Pending(t: Transfer): (n: nat) {
    match t.work
    case Queued(job) => if job == Cleanup then 0 else 1
    case Working(job) => if job == Cleanup then 0 else 1
    case Worked(_, _) => 1
    case Ending => if t.reporting then 1 else 0
    case _ => 0
  }

  /** How many jobs of transfer `i` were launched between two points of a run. */
  function Launches(steps: seq<Step>, i: nat, j: nat, k: nat): (n: nat)
    requires j <= k <= |steps|
  {
    if j == k then 0
    else Launches(steps, i, j, k - 1) + if steps[k - 1].Launch? && steps[k - 1].i == i then 1 else 0
  }

  lemma ResultStep(s: Executor, step: Step, next: Executor, i: nat)
    requires Inv(s) && Next(s, step, next) && i < |s.transfers|
    ensures i < |next.transfers| && (s.transfers[i].cancelled ==> next.transfers[i].cancelled)
    ensures !next.transfers[i].cancelled ==>
      next.transfers[i].posts + Pending(next.transfers[i]) ==
      s.transfers[i].posts + Pending(s.transfers[i]) + if step.Launch? && step.i == i then 1 else 0
  {
    assert Ok(s.transfers[i]);
  }

  /** As long as a transfer is not cancelled, every job posts exactly one result. */
  lemma {:induction false} OneResultPerJob(states: seq<Executor>, steps: seq<Step>, i: nat, j: nat, k: nat)
    requires Run(states, steps) && j <= k <= |steps| && i < |states[j].transfers|
    ensures i < |states[k].transfers| && (states[j].transfers[i].cancelled ==> states[k].transfers[i].cancelled)
    ensures !states[k].transfers[i].cancelled ==>
      states[k].transfers[i].posts + Pending(states[k].transfers[i]) ==
      states[j].transfers[i].posts + Pending(states[j].transfers[i]) + Launches(steps, i, j, k)
  {
    if j < k {
      OneResultPerJob(states, steps, i, j, k - 1);
      RunKeepsInv(states, steps, k - 1);
      ResultStep(states[k - 1], steps[k - 1], states[k], i);
    }
  }

  /** What makes a transfer end: a cancellation, a job that failed, or the final job. */
  predicate Ends(step: Step, i: nat) {
    || step == Cancel(i) || step == Hook(i) || step == Launch(i, Finish)
    || (step.Body? && step.i == i && step.failed)
  }

  /** Nothing has ended it yet: it is idle, or at a job that is neither final nor has failed. */
  predicate Going(t: Transfer) {
    && t.registered && !t.cancelled && !t.terminal
    && match t.work
       case NoWork => true
       case Queued(job) => job != Finish
       case Working(job) => job != Finish
       case Worked(job, failed) => job != Finish && !failed
       case _ => false
  }

  lemma GoesOn(s: Executor, step: Step, next: Executor, i: nat)
    requires Inv(s) && Next(s, step, next) && i < |s.transfers| && Going(s.transfers[i]) && !Ends(step, i)
    ensures i < |next.transfers| && Going(next.transfers[i])
  {
    assert Ok(s.transfers[i]);
  }

  /** A transfer ends for one of these reasons only: written chunks leave it open. */
  lemma {:induction false} OpenUntilEnded(states: seq<Executor>, steps: seq<Step>, i: nat, j: nat, k: nat)
    requires Run(states, steps) && j <= k <= |steps| && i < |states[j].transfers| && Going(states[j].transfers[i])
    requires forall m :: j <= m < k ==> !Ends(steps[m], i)
    ensures i < |states[k].transfers| && Going(states[k].transfers[i])
  {
    if j < k {
      OpenUntilEnded(states, steps, i, j, k - 1);
      RunKeepsInv(states, steps, k - 1);
      GoesOn(states[k - 1], steps[k - 1], states[k], i);
    }
  }

  /** And each of them does end it: what has once failed, or is final, is terminal after its conclusion. */
  lemma EndsAtConclusion(s: Executor, i: nat, next: Executor)
    requires Inv(s) && Next(s, Conclude(i), next)
    ensures next.transfers[i].terminal <==>
      s.transfers[i].cancelled || s.transfers[i].work.failed || s.transfers[i].work.job == Finish
    ensures !next.transfers[i].terminal ==> !next.transfers[i].busy && next.transfers[i].work == NoWork
  {
    assert Ok(s.transfers[i]);
  }

  // ----- draining -----

  /** Distance to release: uncancelled transfers may still fall back to idle. */
  function Distance(t: Transfer): (n: nat) {
    if !t.registered then 0
    else
      (if t.cancelled then 0 else 10)
      + match t.work
        case NoWork => 0
        case Leaving => 1
        case Ending => 2
        case Worked(_, _) => 3
        case Working(_) => 4
        case Queued(_) => 5
        case Claimed => 6
  }

  function Measure(s: Executor): (n: nat) {
    Count(Distance, s.transfers)
  }

  /** Everything but repeating a cancellation and the two final steps of `stop`. */
  predicate Effective(s: Executor, step: Step) {
    match step
    case Cancel(i) => i < |s.transfers| && s.transfers[i].registered && !s.transfers[i].cancelled
    case Hook(i) => i < |s.transfers| && s.transfers[i].registered && !s.transfers[i].cancelled
    case StopPool => false
    case Stop => false
    case _ => true
  }

  lemma ClosingStep(s: Executor, step: Step, next: Executor)
    requires Inv(s) && (s.phase == Closing || s.phase == Stopped) && Next(s, step, next)
    ensures Measure(next) + (if Effective(s, step) then 1 else 0) <= Measure(s)
    ensures next.phase == Closing || next.phase == Stopped
  {
    if Local(step) {
      var i := Subject(step);
      LocalStep(s, step, next);
      CountUpdate(Distance, s.transfers, i, next.transfers[i]);
      if s.phase == Stopped {
        CountZero(IsRegistered, s.transfers, i);
      }
    }
  }

  function EffectiveSteps(states: seq<Executor>, steps: seq<Step>, k: nat): (n: nat)
    requires k <= |steps| < |states|
  {
    if k == 0 then 0
    else EffectiveSteps(states, steps, k - 1) + if Effective(states[k - 1], steps[k - 1]) then 1 else 0
  }

  /** After shutdown has begun there are at most `Measure` effective steps, whoever takes them. */
  lemma {:induction false} DrainIsBounded(states: seq<Executor>, steps: seq<Step>, k: nat)
    requires Run(states, steps) && states[0].phase == Closing && k <= |steps|
    ensures Measure(states[k]) + EffectiveSteps(states, steps, k) <= Measure(states[0])
    ensures states[k].phase == Closing || states[k].phase == Stopped
  {
    if k > 0 {
      DrainIsBounded(states, steps, k - 1);
      RunKeepsInv(states, steps, k - 1);
      ClosingStep(states[k - 1], steps[k - 1], states[k]);
    }
  }

  lemma {:induction false} CountFinds(w: Transfer -> nat, s: seq<Transfer>) returns (i: nat)
    requires Count(w, s) > 0
    ensures i < |s| && w(s[i]) > 0
  {
    i := |s| - 1;
    if w(s[i]) == 0 {
      i := CountFinds(w, s[..i]);
    }
  }

  /** As long as anything is registered some effective step is possible: draining cannot stall. */
  lemma DrainNeverStalls(s: Executor) returns (step: Step, next: Executor)
    requires Inv(s) && s.phase == Closing && Count(IsRegistered, s.transfers) > 0
    ensures Next(s, step, next) && Effective(s, step)
  {
    if Count(IsRunning, s.transfers) > 0 {
      var i := CountFinds(IsRunning, s.transfers);
      step, next := WorkerStep(s, i);
    } else if Count(IsQueued, s.transfers) > 0 {
      var i := CountFinds(IsQueued, s.transfers);
      step, next := Begin(i), With(s, i, s.transfers[i].(work := Working(s.transfers[i].work.job)));
    } else {
      var i := CountFinds(IsRegistered, s.transfers);
      CountZero(IsRunning, s.transfers, i);
      CountZero(IsQueued, s.transfers, i);
      if s.transfers[i].cancelled {
        step, next := PostCleanup(i), With(s, i, s.transfers[i].(work := Queued(Cleanup)));
      } else {
        step, next := Hook(i), With(s, i, Cancelled(s.transfers[i])).(hooks := s.hooks - {i});
      }
    }
  }

  /** The measure is spent exactly when nothing is registered any more, and `stop` goes on. */
  lemma DrainedAtZero(s: Executor)
    requires Inv(s)
    ensures Measure(s) == 0 <==> Count(IsRegistered, s.transfers) == 0
  {
    if Measure(s) == 0 && Count(IsRegistered, s.transfers) > 0 {
      var i := CountFinds(IsRegistered, s.transfers);
      CountZero(Distance, s.transfers, i);
      assert false;
    }
    if Measure(s) > 0 && Count(IsRegistered, s.transfers) == 0 {
      var i := CountFinds(Distance, s.transfers);
      CountZero(IsRegistered, s.transfers, i);
      assert false;
    }
  }

  /** Shutdown can begin whenever it has not, and ends once nothing is registered. */
  lemma ShutdownBegins(s: Executor) returns (next: Executor)
    requires Inv(s) && (s.phase == Created || s.phase == Running)
    ensures Next(s, BeginShutdown, next) && next.phase == Closing && next.transfers == s.transfers
  {
    next := s.(phase := Closing, hooks := set i | 0 <= i < |s.transfers| && s.transfers[i].registered);
  }

  lemma ShutdownEnds(s: Executor) returns (states: seq<Executor>, steps: seq<Step>)
    requires Inv(s) && s.phase == Closing && Count(IsRegistered, s.transfers) == 0
    ensures Run(states, steps) && states[0] == s && states[|steps|].phase == Stopped
  {
    var stopped := s.(poolStopped := true);
    states, steps := [s, stopped, stopped.(phase := Stopped)], [StopPool, Stop];
  }

  lemma {:induction false} CanDrain(s: Executor) returns (states: seq<Executor>, steps: seq<Step>)
    requires Inv(s) && s.phase == Closing
    ensures Run(states, steps) && states[0] == s && states[|steps|].phase == Stopped
    decreases Measure(s)
  {
    DrainedAtZero(s);
    if Count(IsRegistered, s.transfers) == 0 {
      states, steps := ShutdownEnds(s);
      return;
    }
    var step, next := DrainNeverStalls(s);
    NextKeepsInv(s, step, next);
    ClosingStep(s, step, next);
    if next.phase == Stopped {
      return [s, next], [step];
    }
    states, steps := CanDrain(next);
    states, steps := Before(s, step, states, steps);
  }

  lemma Before(s: Executor, step: Step, states: seq<Executor>, steps: seq<Step>)
    returns (more: seq<Executor>, longer: seq<Step>)
    requires Inv(s) && Run(states, steps) && Next(s, step, states[0])
    ensures Run(more, longer) && more[0] == s && more[|longer|] == states[|steps|]
  {
    more, longer := [s] + states, [step] + steps;
    forall i | 0 <= i < |longer| ensures Next(more[i], longer[i], more[i + 1]) {
      if i > 0 {
        assert Next(states[i - 1], steps[i - 1], states[i]);
      }
    }
  }

  /** From every state short of the end, whatever is going on, the executor can be shut down completely. */
  lemma CanShutDown(s: Executor) returns (states: seq<Executor>, steps: seq<Step>)
    requires Inv(s) && s.phase != Stopped
    ensures Run(states, steps) && states[0] == s && states[|steps|].phase == Stopped
  {
    if s.phase == Closing {
      states, steps := CanDrain(s);
    } else {
      var next := ShutdownBegins(s);
      NextKeepsInv(s, BeginShutdown, next);
      states, steps := CanDrain(next);
      states, steps := Before(s, BeginShutdown, states, steps);
    }
  }

  /** A task a worker holds can always go on. */
  lemma WorkerStep(s: Executor, i: nat) returns (step: Step, next: Executor)
    requires i < |s.transfers| && IsRunning(s.transfers[i]) > 0
    ensures Next(s, step, next) && Effective(s, step)
  {
    var t := s.transfers[i];
    match t.work
    case Working(Cleanup) => step, next := Body(i, false, false), With(s, i, CleaningUp(t));
    case Working(job) => step, next := Body(i, false, false), With(s, i, t.(work := Worked(job, false)));
    case Worked(_, _) => step, next := Conclude(i), With(s, i, Concluded(t));
    case Ending => step, next := Close(i), With(s, i, Closed(t));
    case Leaving => step, next := Release(i), With(s, i, Released(t));
  }
}
