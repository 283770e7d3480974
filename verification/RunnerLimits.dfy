/** Two promises of the runner that hold only in part, each with the exact condition: a stop
    reaches no job but the one its handler saw (server/routes/api_sync.py:141-149), and
    `_current_job_id` is the job that holds the lock (server/sync_runner.py:27-29). */
module RunnerLimits {
  import opened Common
  import opened Progress
  import opened Runner

  // ---- whom a stop can reach -----------------------------------------------------------------

  predicate NoStopSet(steps: seq<Step>) { forall i :: 0 <= i < |steps| ==> !steps[i].StopSet? }

  /** The flag that was set for job j is up while another job works. */
  ghost predicate Hits(s: State, j: JobId)
  {
    s.stop == Some(j) && exists k :: At(s, k, Working) && k != j
  }

  /** With no further stop request, the flag set for j may yet be up while another job works. */
  ghost predicate CanHit(s: State, j: JobId)
  {
    exists steps :: NoStopSet(steps) && Possible(s, steps) && Hits(Exec(s, steps), j)
  }

  /** A flag set for j now is taken down before another job works: nobody holds the lock, or
      a trigger that has the flag still to clear, or j itself, or a job past its work. */
  predicate TakenDownInTime(s: State, j: JobId)
  {
    match s.owner
    case Nobody => true
    case ByTrigger(t) => TriggerAt(s, t, Acquired)
    case ByRun(k) => k == j || !(At(s, k, Preparing) || At(s, k, Working))
  }

  ghost predicate InTime(s: State, j: JobId) { s.stop == Some(j) ==> TakenDownInTime(s, j) }

  lemma TriggerStepKeepsInTime(s: State, step: Step, j: JobId)
    requires Inv(s) && Enabled(s, step) && TriggerStep(step) && InTime(s, j)
    ensures InTime(Apply(s, step), j)
  {
  }

  lemma RunStepKeepsInTime(s: State, step: Step, j: JobId)
    requires Inv(s) && Enabled(s, step) && RunStep(step) && InTime(s, j)
    ensures InTime(Apply(s, step), j)
  {
    RunStepOwner(s, step);
  }

  lemma {:induction false} InTimeNeverHits(s: State, steps: seq<Step>, j: JobId)
    requires Inv(s) && InTime(s, j) && NoStopSet(steps) && Possible(s, steps)
    ensures !Hits(Exec(s, steps), j)
    decreases |steps|
  {
    if steps != [] {
      var step := steps[0];
      if TriggerStep(step) { TriggerStepKeepsInTime(s, step, j); }
      else if RunStep(step) { RunStepKeepsInTime(s, step, j); }
      StepKeepsInv(s, step);
      InTimeNeverHits(Apply(s, step), steps[1..], j);
    }
  }

  lemma {:induction false} LongerThanAll(ids: set<string>) returns (n: nat)
    ensures forall x :: x in ids ==> |x| < n
    decreases |ids|
  {
    if ids == {} {
      n := 0;
    } else {
      var x :| x in ids;
      var m := LongerThanAll(ids - {x});
      n := if |x| < m then m else |x| + 1;
      forall y | y in ids ensures |y| < n { assert y == x || y in ids - {x}; }
    }
  }

  /** There is always another job id, as uuid4 is taken to give. */
  lemma NewJobId(ids: set<JobId>) returns (id: JobId)
    ensures id !in ids && id != NO_JOB
  {
    var n := LongerThanAll(ids + {NO_JOB});
    id := seq(n, _ => 'a');
    assert NO_JOB in ids + {NO_JOB};
  }

  lemma StepThenHit(s: State, step: Step, j: JobId)
    requires Enabled(s, step) && !step.StopSet? && CanHit(Apply(s, step), j)
    ensures CanHit(s, j)
  {
    var steps :| NoStopSet(steps) && Possible(Apply(s, step), steps) && Hits(Exec(Apply(s, step), steps), j);
    assert ([step] + steps)[1..] == steps;
    assert Possible(s, [step] + steps) && Exec(s, [step] + steps) == Exec(Apply(s, step), steps);
  }

  lemma {:induction false} RunIsHit(s: State, k: JobId, j: JobId)
    requires s.stop == Some(j) && k != j && (At(s, k, Preparing) || At(s, k, Working))
    ensures CanHit(s, j)
    decreases At(s, k, Preparing)
  {
    if At(s, k, Working) {
      assert Possible(s, []) && Hits(Exec(s, []), j);
    } else {
      assert At(Apply(s, Begin(k)), k, Working);
      RunIsHit(Apply(s, Begin(k)), k, j);
      StepThenHit(s, Begin(k), j);
    }
  }

  lemma NamedIsHit(s: State, t: nat, k: JobId, j: JobId)
    requires s.stop == Some(j) && TriggerAt(s, t, Named(k)) && k != j
    ensures CanHit(s, j)
  {
    RunIsHit(Apply(s, Spawn(t)), k, j);
    StepThenHit(s, Spawn(t), j);
  }

  lemma LateFlagHits(s: State, j: JobId)
    requires Inv(s) && s.stop == Some(j) && j in s.runs && !TakenDownInTime(s, j)
    ensures CanHit(s, j)
  {
    match s.owner
    case ByRun(k) => RunIsHit(s, k, j);
    case ByTrigger(t) =>
      if s.triggers[t].Named? {
        NamedIsHit(s, t, s.triggers[t].job, j);
      } else {
        var id := NewJobId(s.runs.Keys);
        NamedIsHit(Apply(s, NameJob(t, id)), t, id, j);
        StepThenHit(s, NameJob(t, id), j);
      }
  }

  /** A stop handler between its two steps has seen a job that was started. */
  ghost predicate SeenRan(s: State)
  {
    forall h :: h in s.stoppers && s.stoppers[h].SawRunning? ==> s.stoppers[h].job in s.runs
  }

  lemma {:induction false} ExecKeepsSeenRan(s: State, steps: seq<Step>)
    requires Inv(s) && SeenRan(s) && Possible(s, steps)
    ensures SeenRan(Exec(s, steps))
    decreases |steps|
  {
    if steps != [] {
      StepKeepsInv(s, steps[0]);
      ExecKeepsSeenRan(Apply(s, steps[0]), steps[1..]);
    }
  }

  lemma ReachableSeenRan(s: State)
    requires Reachable(s)
    ensures Inv(s) && SeenRan(s)
  {
    ReachableInv(s);
    var steps :| Possible(INITIAL, steps) && Exec(INITIAL, steps) == s;
    ExecKeepsSeenRan(INITIAL, steps);
  }

  /** MAIN: exactly when the stop handler's claim holds. It saw job j running and now sets the
      flag: with no further stop request another job can be hit iff the lock is held by a
      trigger that has cleared the flag already, or by another job that has its work still to
      do. In every other case the next trigger clears the flag before its job starts. */
  lemma StopHitsAnotherIff(s: State, h: nat, j: JobId)
    requires Reachable(s) && h in s.stoppers && s.stoppers[h] == SawRunning(j)
    ensures CanHit(Apply(s, StopSet(h)), j) <==> !TakenDownInTime(s, j)
  {
    ReachableSeenRan(s);
    var s1 := Apply(s, StopSet(h));
    StepKeepsInv(s, StopSet(h));
    assert TakenDownInTime(s1, j) == TakenDownInTime(s, j);
    if TakenDownInTime(s, j) {
      forall steps | NoStopSet(steps) && Possible(s1, steps) ensures !Hits(Exec(s1, steps), j) {
        InTimeNeverHits(s1, steps, j);
      }
    } else {
      LateFlagHits(s1, j);
    }
  }

  lemma SeenThenEnds() returns (s: State)
    ensures Reachable(s) && 0 in s.stoppers && s.stoppers[0] == SawRunning("a")
    ensures At(s, "a", Released) && s.runs["a"].ok && !s.lockHeld
    ensures s.runs.Keys == {"a"} && s.triggers.Keys == {0}
  {
    InitialReachable();
    var s1 := JobRuns(INITIAL, 0, "a");
    ReachableStep(s1, StopRead(0));
    s := JobEnds(Apply(s1, StopRead(0)), "a");
  }

  /** Both windows are reached after the job the handler saw has succeeded: the next trigger
      has cleared the flag but not named its job, and the next job works. */
  lemma StopCanHitALaterJob()
    ensures exists s, t: nat :: (
      Reachable(s) && 0 in s.stoppers && s.stoppers[0] == SawRunning("a") && At(s, "a", Released)
      && s.runs["a"].ok && TriggerAt(s, t, StopCleared) && CanHit(Apply(s, StopSet(0)), "a"))
    ensures exists s, k :: (
      Reachable(s) && 0 in s.stoppers && s.stoppers[0] == SawRunning("a") && At(s, "a", Released)
      && s.runs["a"].ok && At(s, k, Working) && CanHit(Apply(s, StopSet(0)), "a"))
  {
    var s := SeenThenEnds();
    ReachableStep(s, TryLock(1));
    var s1 := Apply(s, TryLock(1));
    ReachableStep(s1, ClearStop(1));
    var s2 := Apply(s1, ClearStop(1));
    assert TriggerAt(s2, 1, StopCleared) && s2.owner == ByTrigger(1);
    StopHitsAnotherIff(s2, 0, "a");
    var s3 := JobRuns(s, 1, "b");
    RunIsHit(Apply(s3, StopSet(0)), "b", "a");
    assert At(s3, "b", Working);
  }

  // ---- what a refused trigger is told --------------------------------------------------------

  /** The job that holds the lock, or is about to be started by the trigger that holds it. */
  predicate Holding(s: State, j: JobId)
  {
    Active(s, j) || (s.owner.ByTrigger? && TriggerAt(s, s.owner.t, Named(j)))
  }

  /** Whoever holds the lock has named its job. */
  predicate HolderNamed(s: State)
  {
    s.owner.ByRun? || (s.owner.ByTrigger? && s.owner.t in s.triggers && s.triggers[s.owner.t].Named?)
  }

  ghost predicate CurrentKnown(s: State)
  {
    || s.currentJob == NO_JOB
    || s.currentJob in s.runs
    || (s.owner.ByTrigger? && TriggerAt(s, s.owner.t, Named(s.currentJob)))
  }

  lemma StepKeepsCurrentKnown(s: State, step: Step)
    requires Inv(s) && CurrentKnown(s) && Enabled(s, step)
    ensures CurrentKnown(Apply(s, step))
  {
    if RunStep(step) { RunStepOwner(s, step); }
  }

  lemma {:induction false} ExecKeepsCurrentKnown(s: State, steps: seq<Step>)
    requires Inv(s) && CurrentKnown(s) && Possible(s, steps)
    ensures CurrentKnown(Exec(s, steps))
    decreases |steps|
  {
    if steps != [] {
      StepKeepsInv(s, steps[0]);
      StepKeepsCurrentKnown(s, steps[0]);
      ExecKeepsCurrentKnown(Apply(s, steps[0]), steps[1..]);
    }
  }

  lemma ReachableCurrentKnown(s: State)
    requires Reachable(s)
    ensures Inv(s) && CurrentKnown(s)
  {
    ReachableInv(s);
    var steps :| Possible(INITIAL, steps) && Exec(INITIAL, steps) == s;
    ExecKeepsCurrentKnown(INITIAL, steps);
  }

  function BusyAnswer(s: State): JobId { if s.currentJob != NO_JOB then s.currentJob else s.pub.jobId }

  lemma NamedHolderIsAnswered(s: State, j: JobId)
    requires Inv(s) && Holding(s, j)
    ensures HolderNamed(s) && BusyAnswer(s) == j
  {
  }

  lemma UnnamedHolderIsNot(s: State)
    requires Inv(s) && CurrentKnown(s) && !HolderNamed(s)
    ensures BusyAnswer(s) == NO_JOB || At(s, BusyAnswer(s), Released)
  {
  }

  /** MAIN: exactly when a refused trigger is told the job that holds the lock: iff the holder
      has named it. If not, or if the lock was released meanwhile, the answer is no job or one
      that has ended. */
  lemma BusyAnswerIff(s: State, t: nat) returns (x: JobId)
    requires Reachable(s) && TriggerAt(s, t, Refused)
    ensures Apply(s, ReadBusy(t)).triggers[t] == AnsweredBusy(x)
    ensures Holding(s, x) <==> HolderNamed(s)
    ensures forall j :: Holding(s, j) ==> j == x
    ensures !HolderNamed(s) ==> x == NO_JOB || At(s, x, Released)
  {
    ReachableCurrentKnown(s);
    x := BusyAnswer(s);
    forall j | Holding(s, j) ensures HolderNamed(s) && j == x { NamedHolderIsAnswered(s, j); }
    if HolderNamed(s) {
      assert Holding(s, if s.owner.ByRun? then s.owner.job else s.triggers[s.owner.t].job);
    } else {
      UnnamedHolderIsNot(s);
    }
  }

  /** Before the holder has named its job, a refused trigger can be told the one before. */
  lemma BusyAnswerCanBeStale()
    ensures exists s, t: nat, j :: (
      Reachable(s) && TriggerAt(s, t, Refused) && s.lockHeld && At(s, j, Released)
      && Apply(s, ReadBusy(t)).triggers[t] == AnsweredBusy(j))
  {
    InitialReachable();
    var s := JobRuns(INITIAL, 0, "a");
    s := JobEnds(s, "a");
    ReachableStep(s, TryLock(1));
    s := Apply(s, TryLock(1));
    ReachableStep(s, TryLock(2));
    s := Apply(s, TryLock(2));
    assert TriggerAt(s, 2, Refused) && At(s, "a", Released);
    assert Apply(s, ReadBusy(2)).triggers[2] == AnsweredBusy("a");
  }

  // ---- what a started trigger is told ----------------------------------------------------------

  predicate IsStarted(triggers: map<nat, TriggerPc>, t: nat, j: JobId)
  {
    t in triggers && triggers[t] == AnsweredStarted(j)
  }

  /** Started triggers and runs go together one to one: each is told the id of its own run. */
  ghost predicate StartsMatch(triggers: map<nat, TriggerPc>, runs: set<JobId>)
  {
    && (forall t, j :: IsStarted(triggers, t, j) ==> j in runs)
    && (forall j :: j in runs ==> exists t :: IsStarted(triggers, t, j))
    && (forall t, u, j :: IsStarted(triggers, t, j) && IsStarted(triggers, u, j) ==> t == u)
  }

  lemma StartMatches(triggers: map<nat, TriggerPc>, runs: set<JobId>, t: nat, own: JobId)
    requires StartsMatch(triggers, runs) && own !in runs && t in triggers && !triggers[t].AnsweredStarted?
    ensures StartsMatch(triggers[t := AnsweredStarted(own)], runs + {own})
  {
    var after := triggers[t := AnsweredStarted(own)];
    forall u, j ensures IsStarted(after, u, j) <==> IsStarted(triggers, u, j) || (u == t && j == own) {
    }
    assert IsStarted(after, t, own);
    forall j | j in runs ensures exists u :: IsStarted(after, u, j) {
      var u :| IsStarted(triggers, u, j);
      assert IsStarted(after, u, j);
    }
  }

  lemma NoStartMatches(triggers: map<nat, TriggerPc>, runs: set<JobId>, t: nat, pc: TriggerPc)
    requires StartsMatch(triggers, runs) && !pc.AnsweredStarted?
    requires t in triggers ==> !triggers[t].AnsweredStarted?
    ensures StartsMatch(triggers[t := pc], runs)
  {
    var after := triggers[t := pc];
    forall u, j ensures IsStarted(after, u, j) <==> IsStarted(triggers, u, j) {
    }
    forall j | j in runs ensures exists u :: IsStarted(after, u, j) {
      var u :| IsStarted(triggers, u, j);
      assert IsStarted(after, u, j);
    }
  }

  lemma RunsStay(s: State, step: Step)
    requires Enabled(s, step) && !TriggerStep(step)
    ensures Apply(s, step).triggers == s.triggers && Apply(s, step).runs.Keys == s.runs.Keys
  {
  }

  lemma StepKeepsMatch(s: State, step: Step)
    requires Inv(s) && Enabled(s, step) && StartsMatch(s.triggers, s.runs.Keys)
    ensures StartsMatch(Apply(s, step).triggers, Apply(s, step).runs.Keys)
  {
    if step.Spawn? {
      StartMatches(s.triggers, s.runs.Keys, step.t, s.triggers[step.t].job);
      assert Apply(s, step).runs.Keys == s.runs.Keys + {s.triggers[step.t].job};
    } else if TriggerStep(step) {
      NoStartMatches(s.triggers, s.runs.Keys, step.t, Apply(s, step).triggers[step.t]);
    } else {
      RunsStay(s, step);
    }
  }

  lemma {:induction false} ExecKeepsMatch(s: State, steps: seq<Step>)
    requires Inv(s) && StartsMatch(s.triggers, s.runs.Keys) && Possible(s, steps)
    ensures StartsMatch(Exec(s, steps).triggers, Exec(s, steps).runs.Keys)
    decreases |steps|
  {
    if steps != [] {
      StepKeepsInv(s, steps[0]);
      StepKeepsMatch(s, steps[0]);
      ExecKeepsMatch(Apply(s, steps[0]), steps[1..]);
    }
  }

  /** MAIN: in every reachable state the triggers that were told "started" and the runs go together
      one to one: each was told the id of the run that it started, and no other was. */
  lemma StartedIsTold(s: State)
    requires Reachable(s)
    ensures StartsMatch(s.triggers, s.runs.Keys)
  {
    ReachableInv(s);
    var steps :| Possible(INITIAL, steps) && Exec(INITIAL, steps) == s;
    ExecKeepsMatch(INITIAL, steps);
  }
}
