/** The sync runner (blackvuesync/server/sync_runner.py) as a protocol: any number of threads
    that trigger a sync, the sync thread of each job, the stop handlers, and the publisher's
    retention timers, interleaved at every access to shared state. */
module Runner {
  import opened Common
  import opened Progress

  /** trigger_sync, between its accesses to `_sync_lock`, the stop flag and `_current_job_id`. */
  datatype TriggerPc =
    | Refused
    | Acquired
    | StopCleared
    | Named(job: JobId)
    | AnsweredStarted(job: JobId)
    | AnsweredBusy(job: JobId)

  /** _do_sync, between its accesses to the publisher. `Checking` is the point before it
      compares the published job with its own. */
  datatype Stage = Preparing | Working | Checking | Reopening | Reopened | Closing | Released

  /** `began`: sync() began the job; `ok`: sync() returned normally. */
  datatype RunPc = RunPc(stage: Stage, began: bool, ok: bool)

  datatype StopPc = SawRunning(job: JobId) | StopDone

  /** Who holds `_sync_lock`; a history variable, no step reads it. */
  datatype Owner = Nobody | ByTrigger(t: nat) | ByRun(job: JobId)

  datatype State = State(
    lockHeld: bool,
    currentJob: JobId,
    stop: Option<JobId>,            // the flag, with the job its setter had seen
    pub: SyncProgress,
    triggers: map<nat, TriggerPc>,
    runs: map<JobId, RunPc>,
    stoppers: map<nat, StopPc>,
    timers: set<JobId>,             // jobs for which a retention timer was ever started
    terminals: map<JobId, seq<JobState>>,  // history: what end_job published, per job
    early: set<JobId>,              // history: jobs reset by their timer while Checking
    owner: Owner)

  const INITIAL := State(false, NO_JOB, None, IDLE, map[], map[], map[], {}, map[], {}, Nobody)

  datatype Step =
    | TryLock(t: nat)
    | ReadBusy(t: nat)
    | ClearStop(t: nat)
    | NameJob(t: nat, id: JobId)
    | Spawn(t: nat)
    | FailEarly(job: JobId)
    | Begin(job: JobId)
    | Work(job: JobId, next: SyncProgress)
    | EndSync(job: JobId, ok: bool)
    | Check(job: JobId)
    | Reopen(job: JobId)
    | EndReopened(job: JobId)
    | Release(job: JobId)
    | FireTimer(job: JobId)
    | StopRead(h: nat)
    | StopSet(h: nat)

  predicate At(s: State, job: JobId, stage: Stage) { job in s.runs && s.runs[job].stage == stage }

  predicate TriggerAt(s: State, t: nat, pc: TriggerPc) { t in s.triggers && s.triggers[t] == pc }

  predicate Enabled(s: State, step: Step)
  {
    match step
    case TryLock(t) => t !in s.triggers
    case ReadBusy(t) => TriggerAt(s, t, Refused)
    case ClearStop(t) => TriggerAt(s, t, Acquired)
    case NameJob(t, id) => TriggerAt(s, t, StopCleared) && id != NO_JOB && id !in s.runs
    case Spawn(t) => t in s.triggers && s.triggers[t].Named?
    case FailEarly(j) => At(s, j, Preparing)
    case Begin(j) => At(s, j, Preparing)
    case Work(j, next) => At(s, j, Working) && next.jobId == s.pub.jobId && next.state == s.pub.state
    case EndSync(j, _) => At(s, j, Working)
    case Check(j) => At(s, j, Checking)
    case Reopen(j) => At(s, j, Reopening)
    case EndReopened(j) => At(s, j, Reopened)
    case Release(j) => At(s, j, Closing)
    case FireTimer(j) => j in s.timers
    case StopRead(h) => h !in s.stoppers
    case StopSet(h) => h in s.stoppers && s.stoppers[h].SawRunning?
  }

  function Terminals(s: State, job: JobId): seq<JobState>
  {
    if job in s.terminals then s.terminals[job] else []
  }

  function Moved(s: State, job: JobId, stage: Stage): State
    requires job in s.runs
  {
    s.(runs := s.runs[job := s.runs[job].(stage := stage)])
  }

  /** end_job: publishes the terminal state of the published job and arms its timer. */
  function Finished(s: State, ok: bool): State
  {
    var pub := JobEnded(s.pub, ok);
    s.(pub := pub, timers := s.timers + {pub.jobId},
       terminals := s.terminals[pub.jobId := Terminals(s, pub.jobId) + [pub.state]])
  }

  function Apply(s: State, step: Step): State
    requires Enabled(s, step)
  {
    match step
    case TryLock(t) =>
      if s.lockHeld then s.(triggers := s.triggers[t := Refused])
      else s.(triggers := s.triggers[t := Acquired], lockHeld := true, owner := ByTrigger(t))
    case ReadBusy(t) =>
      s.(triggers := s.triggers[t := AnsweredBusy(if s.currentJob != NO_JOB then s.currentJob else s.pub.jobId)])
    case ClearStop(t) => s.(triggers := s.triggers[t := StopCleared], stop := None)
    case NameJob(t, id) => s.(triggers := s.triggers[t := Named(id)], currentJob := id)
    case Spawn(t) =>
      var j := s.triggers[t].job;
      s.(triggers := s.triggers[t := AnsweredStarted(j)],
         runs := s.runs[j := RunPc(Preparing, false, false)], owner := ByRun(j))
    case FailEarly(j) => Moved(s, j, Checking)
    case Begin(j) => s.(pub := Begun(0, j), runs := s.runs[j := RunPc(Working, true, false)])
    case Work(j, next) => s.(pub := next)
    case EndSync(j, ok) => Finished(s.(runs := s.runs[j := RunPc(Checking, s.runs[j].began, ok)]), ok)
    case Check(j) => Moved(s, j, if s.pub.jobId == j then Closing else Reopening)
    case Reopen(j) => Moved(s, j, Reopened).(pub := Begun(0, j))
    case EndReopened(j) => Finished(Moved(s, j, Closing), false)
    case Release(j) => Moved(s, j, Released).(lockHeld := false, owner := Nobody)
    case FireTimer(j) =>
      var pub := TimerReset(s.pub, j);
      s.(pub := pub, early := if pub != s.pub && At(s, j, Checking) then s.early + {j} else s.early)
    case StopRead(h) =>
      s.(stoppers := s.stoppers[h := if s.pub.state.Running? then SawRunning(s.pub.jobId) else StopDone])
    case StopSet(h) => s.(stoppers := s.stoppers[h := StopDone], stop := Some(s.stoppers[h].job))
  }

  predicate Possible(s: State, steps: seq<Step>)
    decreases |steps|
  {
    steps == [] || (Enabled(s, steps[0]) && Possible(Apply(s, steps[0]), steps[1..]))
  }

  function Exec(s: State, steps: seq<Step>): State
    requires Possible(s, steps)
    decreases |steps|
  {
    if steps == [] then s else Exec(Apply(s, steps[0]), steps[1..])
  }

  // ---- the invariant ---------------------------------------------------------------------

  predicate Holds(pc: TriggerPc) { pc.Acquired? || pc.StopCleared? || pc.Named? }
  predicate Publishing(r: RunPc) { r.stage.Working? || r.stage.Reopened? }
  function Ending(ok: bool): JobState { if ok then Complete else Failed }

  ghost predicate Ownership(s: State)
  {
    && (s.lockHeld <==> s.owner != Nobody)
    && (forall t :: t in s.triggers ==> (Holds(s.triggers[t]) <==> s.owner == ByTrigger(t)))
    && (forall j :: j in s.runs ==> (s.runs[j].stage != Released <==> s.owner == ByRun(j)))
    && (s.owner.ByTrigger? ==> s.owner.t in s.triggers)
    && (s.owner.ByRun? ==> s.owner.job in s.runs)
  }

  ghost predicate Names(s: State)
  {
    && NO_JOB !in s.runs
    && (s.pub.jobId != NO_JOB ==> s.pub.jobId in s.runs)
    && s.timers <= s.runs.Keys
    && s.terminals.Keys <= s.runs.Keys
    && s.early <= s.runs.Keys
    && (forall t :: t in s.triggers && s.triggers[t].Named? ==>
          s.triggers[t].job !in s.runs && s.triggers[t].job != NO_JOB && s.currentJob == s.triggers[t].job)
    && (s.owner.ByRun? ==> s.currentJob == s.owner.job)
  }

  ghost predicate Published(s: State)
  {
    && (s.pub.state.Running? ==> s.pub.jobId in s.runs && Publishing(s.runs[s.pub.jobId]))
    && (forall j :: j in s.runs && Publishing(s.runs[j]) ==> s.pub.jobId == j && s.pub.state.Running?)
  }

  /** What a run has published so far, by stage. */
  function Expected(r: RunPc, early: bool): seq<JobState>
  {
    var ownEnd := if r.began then [Ending(r.ok)] else [];
    match r.stage
    case Preparing => []
    case Working => []
    case Checking => ownEnd
    case Reopening => ownEnd
    case Reopened => ownEnd
    case Closing => if r.began && !early then ownEnd else ownEnd + [Failed]
    case Released => if r.began && !early then ownEnd else ownEnd + [Failed]
  }

  ghost predicate History(s: State, j: JobId)
    requires j in s.runs
  {
    var r := s.runs[j];
    && Terminals(s, j) == Expected(r, j in s.early)
    && (j in s.early ==> r.began && !r.stage.Preparing? && !r.stage.Working?)
    && (r.stage.Preparing? ==> !r.began && s.pub.jobId != j && j !in s.timers)
    && (r.stage.Working? ==> r.began && j !in s.early)
    && (r.stage.Checking? ==> (s.pub.jobId == j <==> r.began && j !in s.early))
    && (r.stage.Reopening? ==> s.pub.jobId != j)
    && (r.stage.Reopening? || r.stage.Reopened? ==> !r.began || j in s.early)
    && (!r.began ==> !r.ok)
  }

  ghost predicate Inv(s: State)
  {
    Ownership(s) && Names(s) && Published(s) && (forall j :: j in s.runs ==> History(s, j))
  }

  predicate TriggerStep(step: Step)
  {
    step.TryLock? || step.ReadBusy? || step.ClearStop? || step.NameJob? || step.Spawn?
  }

  predicate RunStep(step: Step)
  {
    step.FailEarly? || step.Begin? || step.Work? || step.EndSync? || step.Check?
    || step.Reopen? || step.EndReopened? || step.Release?
  }

  /** A step of a run is a step of the lock holder, and of the published job if it publishes. */
  lemma RunStepOwner(s: State, step: Step)
    requires Inv(s) && Enabled(s, step) && RunStep(step)
    ensures s.owner == ByRun(step.job) && step.job in s.runs && s.runs[step.job].stage != Released
    ensures Publishing(s.runs[step.job]) ==> s.pub.jobId == step.job && s.pub.state.Running?
    ensures forall j :: j in s.runs && j != step.job ==> s.runs[j].stage == Released
  {
  }

  lemma TriggerStepKeepsOwnership(s: State, step: Step)
    requires Inv(s) && Enabled(s, step) && TriggerStep(step)
    ensures Ownership(Apply(s, step))
  {
  }

  lemma RunStepKeepsOwnership(s: State, step: Step)
    requires Inv(s) && Enabled(s, step) && RunStep(step)
    ensures Ownership(Apply(s, step))
  {
    RunStepOwner(s, step);
  }

  lemma OutsideStepKeepsOwnership(s: State, step: Step)
    requires Inv(s) && Enabled(s, step) && !TriggerStep(step) && !RunStep(step)
    ensures Ownership(Apply(s, step))
  {
  }

  lemma TriggerStepKeepsNames(s: State, step: Step)
    requires Inv(s) && Enabled(s, step) && TriggerStep(step)
    ensures Names(Apply(s, step))
  {
  }

  lemma RunStepKeepsNames(s: State, step: Step)
    requires Inv(s) && Enabled(s, step) && RunStep(step)
    ensures Names(Apply(s, step))
  {
    RunStepOwner(s, step);
  }

  lemma OutsideStepKeepsNames(s: State, step: Step)
    requires Inv(s) && Enabled(s, step) && !TriggerStep(step) && !RunStep(step)
    ensures Names(Apply(s, step))
  {
  }

  lemma TriggerStepKeepsPublished(s: State, step: Step)
    requires Inv(s) && Enabled(s, step) && TriggerStep(step)
    ensures Published(Apply(s, step))
  {
  }

  lemma RunStepKeepsPublished(s: State, step: Step)
    requires Inv(s) && Enabled(s, step) && RunStep(step)
    ensures Published(Apply(s, step))
  {
    RunStepOwner(s, step);
  }

  lemma OutsideStepKeepsPublished(s: State, step: Step)
    requires Inv(s) && Enabled(s, step) && !TriggerStep(step) && !RunStep(step)
    ensures Published(Apply(s, step))
  {
  }

  lemma FinishKeepsHistory(s: State, step: Step, j: JobId)
    requires Inv(s) && Enabled(s, step) && (step.EndSync? || step.EndReopened?) && j in s.runs
    ensures History(Apply(s, step), j)
  {
    assert History(s, j) && History(s, step.job);
    assert s.pub.jobId == step.job;
    assert s.runs[step.job].stage != Released && s.owner == ByRun(step.job);
  }

  lemma TimerKeepsHistory(s: State, step: Step, j: JobId)
    requires Inv(s) && Enabled(s, step) && step.FireTimer? && j in s.runs
    ensures History(Apply(s, step), j)
  {
    assert History(s, j);
  }

  lemma StartKeepsOwnHistory(s: State, step: Step)
    requires Inv(s) && Enabled(s, step) && (step.FailEarly? || step.Begin? || step.Work?)
    ensures step.job in Apply(s, step).runs && History(Apply(s, step), step.job)
  {
    assert History(s, step.job);
    assert Publishing(s.runs[step.job]) ==> s.pub.jobId == step.job;
  }

  lemma EndKeepsOwnHistory(s: State, step: Step)
    requires Inv(s) && Enabled(s, step) && (step.Check? || step.Reopen? || step.Release?)
    ensures step.job in Apply(s, step).runs && History(Apply(s, step), step.job)
  {
    assert History(s, step.job);
  }

  lemma RunMoveKeepsOtherHistory(s: State, step: Step, j: JobId)
    requires RunStep(step) && !step.EndSync? && !step.EndReopened?
    requires Inv(s) && Enabled(s, step) && j in s.runs && j != step.job
    ensures History(Apply(s, step), j)
  {
    RunStepOwner(s, step);
    assert History(s, j) && s.runs[j].stage == Released;
    assert Apply(s, step).runs[j] == s.runs[j];
  }

  lemma OtherKeepsHistory(s: State, step: Step, j: JobId)
    requires Inv(s) && Enabled(s, step) && j in Apply(s, step).runs
    requires TriggerStep(step) || step.StopRead? || step.StopSet?
    ensures History(Apply(s, step), j)
  {
    assert j in s.runs ==> History(s, j);
  }

  lemma StepKeepsInv(s: State, step: Step)
    requires Inv(s) && Enabled(s, step)
    ensures Inv(Apply(s, step))
  {
    if TriggerStep(step) {
      TriggerStepKeepsOwnership(s, step);
      TriggerStepKeepsNames(s, step);
      TriggerStepKeepsPublished(s, step);
    } else if RunStep(step) {
      RunStepKeepsOwnership(s, step);
      RunStepKeepsNames(s, step);
      RunStepKeepsPublished(s, step);
    } else {
      OutsideStepKeepsOwnership(s, step);
      OutsideStepKeepsNames(s, step);
      OutsideStepKeepsPublished(s, step);
    }
    forall j | j in Apply(s, step).runs ensures History(Apply(s, step), j) {
      if step.EndSync? || step.EndReopened? { FinishKeepsHistory(s, step, j); }
      else if step.FireTimer? { TimerKeepsHistory(s, step, j); }
      else if RunStep(step) && j != step.job { RunMoveKeepsOtherHistory(s, step, j); }
      else if step.FailEarly? || step.Begin? || step.Work? { StartKeepsOwnHistory(s, step); }
      else if RunStep(step) { EndKeepsOwnHistory(s, step); }
      else { OtherKeepsHistory(s, step, j); }
    }
  }

  // ---- every reachable state ---------------------------------------------------------------

  ghost predicate Reachable(s: State)
  {
    exists steps :: Possible(INITIAL, steps) && Exec(INITIAL, steps) == s
  }

  lemma {:induction false} ExecSnoc(s: State, steps: seq<Step>, last: Step)
    requires Possible(s, steps) && Enabled(Exec(s, steps), last)
    ensures Possible(s, steps + [last]) && Exec(s, steps + [last]) == Apply(Exec(s, steps), last)
    decreases |steps|
  {
    if steps == [] {
      assert [last][1..] == [];
    } else {
      assert (steps + [last])[1..] == steps[1..] + [last];
      ExecSnoc(Apply(s, steps[0]), steps[1..], last);
    }
  }

  lemma ReachableStep(s: State, step: Step)
    requires Reachable(s) && Enabled(s, step)
    ensures Reachable(Apply(s, step))
  {
    var steps :| Possible(INITIAL, steps) && Exec(INITIAL, steps) == s;
    ExecSnoc(INITIAL, steps, step);
  }

  lemma {:induction false} ExecKeepsInv(s: State, steps: seq<Step>)
    requires Inv(s) && Possible(s, steps)
    ensures Inv(Exec(s, steps))
    decreases |steps|
  {
    if steps != [] {
      StepKeepsInv(s, steps[0]);
      ExecKeepsInv(Apply(s, steps[0]), steps[1..]);
    }
  }

  lemma ReachableInv(s: State)
    requires Reachable(s)
    ensures Inv(s)
  {
    var steps :| Possible(INITIAL, steps) && Exec(INITIAL, steps) == s;
    ExecKeepsInv(INITIAL, steps);
  }

  predicate Active(s: State, job: JobId) { job in s.runs && s.runs[job].stage != Released }

  /** MAIN: at most one run is active, and only with the lock held; a published "running" is
      that of the one active run. */
  lemma OneRunUnderLock(s: State)
    requires Reachable(s)
    ensures forall j, k :: Active(s, j) && Active(s, k) ==> j == k
    ensures forall j :: Active(s, j) ==> s.lockHeld
    ensures s.pub.state.Running? ==> Active(s, s.pub.jobId) && s.lockHeld
  {
    ReachableInv(s);
  }

  /** MAIN: by the time a run gives the lock back it has published a terminal state under its
      own id, whatever the timers did. The last one says "complete" exactly when sync()
      succeeded and the job's own timer did not fire before the run looked at the snapshot;
      if it did, the finished job is published again as failed. */
  lemma EveryRunPublishesItsEnd(s: State, j: JobId)
    requires Reachable(s) && j in s.runs && (s.runs[j].stage.Closing? || s.runs[j].stage.Released?)
    ensures var log := Terminals(s, j);
      && |log| > 0
      && (log[|log| - 1] == Complete <==> s.runs[j].ok && j !in s.early)
      && (|log| == 2 && log[0] == Complete <==> s.runs[j].ok && j in s.early)
  {
    ReachableInv(s);
    assert History(s, j);
  }

  /** MAIN: a retention timer leaves what is shown of every job but its own, also of one that has
      released the lock, and of every job at work; it changes the snapshot iff that is its own
      job's and the job is not at work, and then to the idle one. */
  lemma TimerSparesOtherJobs(s: State, timerJob: JobId, k: JobId)
    requires Reachable(s) && timerJob in s.timers && k in s.runs
    ensures s.pub.jobId == k && (Publishing(s.runs[k]) || k != timerJob) ==> Apply(s, FireTimer(timerJob)).pub == s.pub
    ensures Publishing(s.runs[k]) ==> s.pub.jobId == k
    ensures Apply(s, FireTimer(timerJob)).pub != s.pub
      <==> s.pub.jobId == timerJob && timerJob in s.runs && !Publishing(s.runs[timerJob])
    ensures Apply(s, FireTimer(timerJob)).pub != s.pub ==> Apply(s, FireTimer(timerJob)).pub == IDLE
  {
    ReachableInv(s);
  }

  function OwnerStep(s: State, id: JobId): Step
    requires s.owner.ByTrigger? ==> s.owner.t in s.triggers
    requires s.owner.ByRun? ==> s.owner.job in s.runs
  {
    match s.owner
    case Nobody => FireTimer(id)
    case ByTrigger(t) =>
      (match s.triggers[t] case Acquired => ClearStop(t) case StopCleared => NameJob(t, id) case _ => Spawn(t))
    case ByRun(j) =>
      match s.runs[j].stage
      case Preparing => Begin(j)
      case Working => EndSync(j, false)
      case Checking => Check(j)
      case Reopening => Reopen(j)
      case Reopened => EndReopened(j)
      case _ => Release(j)
  }

  /** The lock is never stuck: while it is held, the thread that holds it has a next step. */
  lemma LockHolderCanMove(s: State, id: JobId)
    requires Reachable(s) && s.lockHeld && id != NO_JOB && id !in s.runs
    ensures Inv(s) && Enabled(s, OwnerStep(s, id))
  {
    ReachableInv(s);
  }

  /** How many steps of its own, apart from its work, the holder of the lock has at most before
      it gives the lock back. */
  function Remaining(s: State): nat
  {
    match s.owner
    case Nobody => 0
    case ByTrigger(t) =>
      if TriggerAt(s, t, Acquired) then 9 else if TriggerAt(s, t, StopCleared) then 8 else 7
    case ByRun(j) =>
      if At(s, j, Preparing) then 6 else if At(s, j, Working) then 5 else if At(s, j, Checking) then 4
      else if At(s, j, Reopening) then 3 else if At(s, j, Reopened) then 2 else 1
  }

  /** A step of the holder that takes it on, as anything but a piece of its work does. */
  predicate TakesOn(step: Step)
  {
    || step.ClearStop? || step.NameJob? || step.Spawn? || step.FailEarly? || step.Begin? || step.EndSync?
    || step.Check? || step.Reopen? || step.EndReopened? || step.Release?
  }

  lemma TriggerStepRemains(s: State, step: Step)
    requires Inv(s) && Enabled(s, step) && TriggerStep(step) && s.lockHeld
    ensures Remaining(Apply(s, step)) <= Remaining(s) - if TakesOn(step) then 1 else 0
  {
  }

  lemma RunStepRemains(s: State, step: Step)
    requires Enabled(s, step) && RunStep(step) && s.owner == ByRun(step.job)
    ensures Remaining(Apply(s, step)) <= Remaining(s) - if TakesOn(step) then 1 else 0
  {
  }

  lemma StepRemains(s: State, step: Step)
    requires Inv(s) && Enabled(s, step) && s.lockHeld
    ensures Remaining(Apply(s, step)) <= Remaining(s) - if TakesOn(step) then 1 else 0
  {
    if TriggerStep(step) { TriggerStepRemains(s, step); }
    else if RunStep(step) { RunStepOwner(s, step); RunStepRemains(s, step); }
  }

  predicate HeldThroughout(s: State, steps: seq<Step>)
    requires Possible(s, steps)
    decreases |steps|
  {
    s.lockHeld && (steps == [] || HeldThroughout(Apply(s, steps[0]), steps[1..]))
  }

  function TakingOn(steps: seq<Step>): nat
  {
    if |steps| == 0 then 0 else (if TakesOn(steps[0]) then 1 else 0) + TakingOn(steps[1..])
  }

  lemma {:induction false} HeldTakesFew(s: State, steps: seq<Step>)
    requires Inv(s) && Possible(s, steps) && HeldThroughout(s, steps)
    ensures TakingOn(steps) < Remaining(s)
    decreases |steps|
  {
    if steps != [] {
      StepKeepsInv(s, steps[0]);
      StepRemains(s, steps[0]);
      HeldTakesFew(Apply(s, steps[0]), steps[1..]);
    }
  }

  /** MAIN: while the lock is held without a break, at most eight steps take its holder on,
      whatever other threads and timers do in between; the work itself has no such bound. As the
      holder always has a next step, the lock is given back. */
  lemma LockIsReleased(s: State, steps: seq<Step>)
    requires Reachable(s) && Possible(s, steps) && HeldThroughout(s, steps)
    ensures TakingOn(steps) <= 8
  {
    ReachableInv(s);
    HeldTakesFew(s, steps);
  }

  // ---- a success that ends as a failure ------------------------------------------------------

  lemma JobNamed(s: State, t: nat, j: JobId) returns (s': State)
    requires Reachable(s) && !s.lockHeld && t !in s.triggers && j != NO_JOB && j !in s.runs
    ensures Reachable(s') && TriggerAt(s', t, Named(j)) && s'.triggers.Keys == s.triggers.Keys + {t}
    ensures s' == s.(triggers := s'.triggers, lockHeld := true, owner := ByTrigger(t), stop := None, currentJob := j)
  {
    var s1 := Apply(s, TryLock(t));
    ReachableStep(s, TryLock(t));
    var s2 := Apply(s1, ClearStop(t));
    ReachableStep(s1, ClearStop(t));
    s' := Apply(s2, NameJob(t, j));
    ReachableStep(s2, NameJob(t, j));
  }

  /** A job from its trigger to the moment it is published as running. */
  lemma JobRuns(s: State, t: nat, j: JobId) returns (s': State)
    requires Reachable(s) && !s.lockHeld && t !in s.triggers && j != NO_JOB && j !in s.runs
    ensures Reachable(s') && At(s', j, Working) && s'.runs.Keys == s.runs.Keys + {j}
    ensures forall k :: k in s.runs ==> s'.runs[k] == s.runs[k]
    ensures s'.stoppers == s.stoppers && s'.triggers.Keys == s.triggers.Keys + {t}
    ensures s'.pub == Begun(0, j) && s'.currentJob == j
  {
    var s3 := JobNamed(s, t, j);
    var s4 := Apply(s3, Spawn(t));
    ReachableStep(s3, Spawn(t));
    assert s4.triggers.Keys == s3.triggers.Keys && s4.runs.Keys == s.runs.Keys + {j};
    s' := Apply(s4, Begin(j));
    ReachableStep(s4, Begin(j));
  }

  lemma SyncEnds(s: State, j: JobId) returns (s': State)
    requires Reachable(s) && At(s, j, Working)
    ensures Reachable(s') && s'.runs == s.runs[j := RunPc(Checking, s.runs[j].began, true)]
    ensures s'.pub.jobId == j && j in s'.timers
    ensures s'.stoppers == s.stoppers && s'.triggers == s.triggers && s'.currentJob == s.currentJob
  {
    ReachableInv(s);
    assert s.pub.jobId == j;
    s' := Apply(s, EndSync(j, true));
    ReachableStep(s, EndSync(j, true));
  }

  lemma JobEnds(s: State, j: JobId) returns (s': State)
    requires Reachable(s) && At(s, j, Working)
    ensures Reachable(s') && s'.runs.Keys == s.runs.Keys && At(s', j, Released) && s'.runs[j].ok && !s'.lockHeld
    ensures s'.stoppers == s.stoppers && s'.triggers == s.triggers && s'.currentJob == s.currentJob
  {
    var s1 := SyncEnds(s, j);
    var s2 := Apply(s1, Check(j));
    ReachableStep(s1, Check(j));
    s' := Apply(s2, Release(j));
    ReachableStep(s2, Release(j));
  }

  lemma InitialReachable()
    ensures Reachable(INITIAL)
  {
    assert Possible(INITIAL, []) && Exec(INITIAL, []) == INITIAL;
  }

  lemma ResetThenClose(s: State, j: JobId) returns (s': State)
    requires Reachable(s) && At(s, j, Checking) && s.pub.jobId == j && j in s.timers && s.runs[j].ok
    ensures Reachable(s') && At(s', j, Closing) && s'.runs[j].ok && j in s'.early
  {
    ReachableInv(s);
    var s1 := Apply(s, FireTimer(j));
    ReachableStep(s, FireTimer(j));
    assert At(s1, j, Checking) && s1.pub.jobId != j && j in s1.early && s1.runs[j].ok by {
      assert !s.pub.state.Running?;
    }
    var s2 := Apply(s1, Check(j));
    ReachableStep(s1, Check(j));
    var s3 := Apply(s2, Reopen(j));
    ReachableStep(s2, Reopen(j));
    s' := Apply(s3, EndReopened(j));
    ReachableStep(s3, EndReopened(j));
  }

  /** A timer that fires during a long clean-up makes the run publish its success as a failure. */
  lemma SuccessCanBeRepublishedAsFailure()
    ensures exists s, j :: (
      Reachable(s) && At(s, j, Closing) && s.runs[j].ok
      && |Terminals(s, j)| == 2 && Terminals(s, j)[0] == Complete && Terminals(s, j)[1] == Failed)
  {
    InitialReachable();
    var s := JobRuns(INITIAL, 0, "a");
    s := SyncEnds(s, "a");
    s := ResetThenClose(s, "a");
    EveryRunPublishesItsEnd(s, "a");
    ReachableInv(s);
    assert History(s, "a");
  }
}
