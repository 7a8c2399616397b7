/**
 What the replay at startup makes of deployments: those a crash interrupted, and those the API server accepted
 before the replay's scan.
 */
module StartupReplay {
  import opened Model
  import opened JobLifecycle

  /** Ids from before a crash are never again created, nor taken for early ones. */
  lemma {:induction false} OldIdsStayOld(s: State, steps: seq<Step>, known: set<Id>)
    requires Bounded(s) && IsRun(s, steps) && known <= s.used && (s.creating + s.early) !! known
    ensures known <= After(s, steps).used && (After(s, steps).creating + After(s, steps).early) !! known
    decreases |steps|
  {
    if steps != [] {
      var s' := Apply(s, steps[0]);
      BoundedByStep(s, steps[0]);
      assert known <= s'.used && (s'.creating + s'.early) !! known by {
        if steps[0].Work? {
          WorkHasEffect(s, steps[0].ok);
        }
      }
      OldIdsStayOld(s', steps[1..], known);
    }
  }

  lemma CrashLeavesOwned(before: seq<Step>, after: seq<Step>)
    requires IsRun(INITIAL, before + [Crash] + after)
    ensures
      var crashed := After(INITIAL, before + [Crash]);
      && IsRun(INITIAL, before) && crashed == Apply(After(INITIAL, before), Crash)
      && Owned(crashed) && IsRun(crashed, after)
      && After(INITIAL, before + [Crash] + after) == After(crashed, after)
      && After(INITIAL, before).store.Keys <= crashed.used
  {
    RunsSplit(INITIAL, before + [Crash], after);
    RunsSplit(INITIAL, before, [Crash]);
    var alive := After(INITIAL, before);
    BoundedAlongRuns(INITIAL, before);
    StepThen(alive, Crash, []);
    assert [Crash] + [] == [Crash];
    BoundedByCrash(alive);
  }

  /**
   A deployment in progress when the process crashes, at any step: whatever safe run follows, once a replay is over
   it is settled or stands exactly once in the queue or the worker's hands.
   */
  lemma ReplayQueuesExactlyOnce(before: seq<Step>, after: seq<Step>, id: Id)
    requires IsRun(INITIAL, before + [Crash] + after)
    requires InProgress(After(INITIAL, before), id) && IsSafeRun(After(INITIAL, before + [Crash]), after)
    ensures
      var s := After(INITIAL, before + [Crash] + after);
      s.server == Serving && InProgress(s, id) ==> Queued(s.queue, id) + (if Holds(s.worker, id) then 1 else 0) == 1
  {
    CrashLeavesOwned(before, after);
    var crashed := After(INITIAL, before + [Crash]);
    OldIdsStayOld(crashed, after, {id});
    OwnedAlongRuns(crashed, after);
    var s := After(crashed, after);
    assert id !in s.creating && id !in s.early;
    assert IsOwned(s, id) && Owners(s, id) <= OwnerBound(s, id);
  }

  /** Between a crash and the scan nobody has a hand on the deployment, nor will the worker retire it. */
  ghost predicate Untouched(s: State, id: Id) {
    && s.server == Restarted && InProgress(s, id) && id in s.used && Owners(s, id) == 0
    && (s.worker.Busy? ==> id !in PreviousOf(s.worker.at))
  }

  /** The process runs on, and no handler settles or deletes the deployment. */
  ghost predicate LeavesAlone(step: Step, id: Id) {
    && !step.Crash? && step != Delete(id) && !(step.Stop? && step.id == id)
    && !(step.Save? && step.id == id && !InProgressStatus(SavedStatus(step.copy, step.running)))
  }

  lemma UntouchedByWork(s: State, ok: bool, id: Id)
    requires Untouched(s, id) && s.worker.Busy? && s.worker.job.deployment != id
    ensures
      var s' := WorkStep(s, ok);
      && s'.server == Restarted && InProgress(s', id) && id in s'.used
      && (s'.worker.Busy? ==> id !in PreviousOf(s'.worker.at))
  {
  }

  lemma UntouchedByStep(s: State, step: Step, id: Id)
    requires Bounded(s) && Untouched(s, id) && Enabled(s, step) && LeavesAlone(step, id) && !step.Scan?
    ensures Untouched(Apply(s, step), id)
  {
    BoundedByStep(s, step);
    assert Owners(Apply(s, step), id) == 0;
    assert !Holds(s.worker, id) && id !in s.creating;
    if step.Work? {
      UntouchedByWork(s, step.ok, id);
    }
  }

  lemma {:induction false} UntouchedUntilScan(s: State, gap: seq<Step>, id: Id)
    requires Bounded(s) && IsRun(s, gap) && forall step <- gap :: LeavesAlone(step, id)
    requires s.server != Restarted || Untouched(s, id)
    ensures After(s, gap).server != Restarted || Untouched(After(s, gap), id)
    decreases |gap|
  {
    if gap != [] {
      assert gap[0] in gap && forall step <- gap[1..] :: step in gap;
      BoundedByStep(s, gap[0]);
      if s.server == Restarted && !gap[0].Scan? {
        UntouchedByStep(s, gap[0], id);
      } else if gap[0].Work? {
        WorkHasEffect(s, gap[0].ok);
      }
      UntouchedUntilScan(Apply(s, gap[0]), gap[1..], id);
    }
  }

  /** The scan lists every deployment the crash interrupted, unless a handler settled or deleted it meanwhile. */
  lemma ScanFindsInterrupted(before: seq<Step>, gap: seq<Step>, interrupted: seq<Id>, id: Id)
    requires IsRun(INITIAL, before + [Crash] + gap + [Scan(interrupted)])
    requires InProgress(After(INITIAL, before), id) && forall step <- gap :: LeavesAlone(step, id)
    ensures id in interrupted
  {
    RunsSplit(INITIAL, before + [Crash] + gap, [Scan(interrupted)]);
    CrashLeavesOwned(before, gap);
    var crashed := After(INITIAL, before + [Crash]);
    assert Owners(crashed, id) <= OwnerBound(crashed, id);
    UntouchedUntilScan(crashed, gap, id);
    assert Enabled(After(crashed, gap), [Scan(interrupted)][0]);
  }

  // ----- deployments accepted before the scan

  ghost predicate NoCrash(steps: seq<Step>) {
    forall step <- steps :: step != Crash
  }

  lemma {:induction false} OwnersNeverGrow(s: State, steps: seq<Step>, id: Id)
    requires Bounded(s) && IsRun(s, steps) && id in s.used
    requires s.server != Restarted && NoCrash(steps)
    ensures Owners(After(s, steps), id) <= Owners(s, id)
    decreases |steps|
  {
    if steps != [] {
      assert steps[0] in steps && forall step <- steps[1..] :: step in steps;
      BoundedByStep(s, steps[0]);
      if steps[0].Work? {
        WorkHasEffect(s, steps[0].ok);
      }
      OwnersNeverGrow(Apply(s, steps[0]), steps[1..], id);
    }
  }

  /**
   A deployment accepted between a restart and the replay scan has one owner at most before the scan, and two
   after it exactly when it was in progress then; from there on its owners only become fewer.
   */
  lemma EarlyDeploymentOwners(s: State, interrupted: seq<Id>, after: seq<Step>, id: Id)
    requires Owned(s) && Enabled(s, Scan(interrupted)) && id in s.early
    requires IsRun(Apply(s, Scan(interrupted)), after) && NoCrash(after)
    ensures Owners(s, id) <= 1 && (InProgress(s, id) ==> Owners(s, id) == 1)
    ensures Owners(Apply(s, Scan(interrupted)), id) == 2 <==> InProgress(s, id)
    ensures Owners(After(Apply(s, Scan(interrupted)), after), id) <= if InProgress(s, id) then 2 else 1
  {
    assert IsOwned(s, id);
    BoundedByScan(s, interrupted);
    OwnersNeverGrow(Apply(s, Scan(interrupted)), after, id);
  }

  /** The replay may give up the deployments before one of its list without touching anything else of it. */
  lemma {:induction false} GiveUpsTo(s: State, id: Id) returns (steps: seq<Step>)
    requires s.server.Replaying? && id in s.server.interrupted
    ensures IsRun(s, steps) && forall step <- steps :: step == GiveUp
    ensures
      var s' := After(s, steps);
      && s'.server.Replaying? && s'.server.interrupted != [] && s'.server.interrupted[0] == id
      && s'.queue == s.queue && (id in s'.store <==> id in s.store)
      && (id in s.store ==> s'.store[id] == s.store[id])
    decreases if s.server.Replaying? then |s.server.interrupted| else 0
  {
    if s.server.interrupted[0] == id {
      steps := [];
    } else {
      assert s.server.interrupted == [s.server.interrupted[0]] + s.server.interrupted[1..];
      var rest := GiveUpsTo(Apply(s, GiveUp), id);
      StepThen(s, GiveUp, rest);
      steps := [GiveUp] + rest;
    }
  }

  /** From here the deployment can come to stand twice in the queue before the next crash. */
  ghost predicate CanBeQueuedTwice(s: State, id: Id) {
    exists steps: seq<Step> :: IsRun(s, steps) && NoCrash(steps) && Queued(After(s, steps).queue, id) == 2
  }

  lemma ListedAndQueued(s: State, job: Job) returns (steps: seq<Step>)
    requires s.server.Replaying? && job.deployment in s.server.interrupted
    requires Queued(s.queue, job.deployment) == 1
    ensures IsRun(s, steps) && NoCrash(steps) && Queued(After(s, steps).queue, job.deployment) == 2
  {
    var givenUp := GiveUpsTo(s, job.deployment);
    var ready := After(s, givenUp);
    steps := givenUp + [Requeue(job)];
    RunsSplit(s, givenUp, [Requeue(job)]);
    StepThen(ready, Requeue(job), []);
    assert [Requeue(job)] + [] == [Requeue(job)];
    QueuedSnoc(ready.queue, job, job.deployment);
  }

  /** ... also when its handler has not sent the job yet. */
  lemma ListedAndCreating(s: State, job: Job) returns (steps: seq<Step>)
    requires s.server.Replaying? && job.deployment in s.server.interrupted
    requires Queued(s.queue, job.deployment) == 0 && job.deployment in s.creating
    ensures IsRun(s, steps) && NoCrash(steps) && Queued(After(s, steps).queue, job.deployment) == 2
  {
    QueuedSnoc(s.queue, job, job.deployment);
    var rest := ListedAndQueued(Apply(s, Enqueue(job)), job);
    StepThen(s, Enqueue(job), rest);
    steps := [Enqueue(job)] + rest;
  }

  /** Few enough hands, one of them the worker's: no second place in the queue. */
  ghost predicate NeverTwice(s: State, id: Id) {
    Owners(s, id) <= 1 || (Owners(s, id) <= 2 && Holds(s.worker, id))
  }

  lemma NeverTwiceByStep(s: State, step: Step, id: Id)
    requires Bounded(s) && NeverTwice(s, id) && Enabled(s, step) && id in s.used
    requires s.server != Restarted && step != Crash
    ensures NeverTwice(Apply(s, step), id)
  {
    BoundedByStep(s, step);
    if step.Work? {
      WorkHasEffect(s, step.ok);
      OwnersAfterWork(s, Apply(s, step));
    }
  }

  lemma {:induction false} NeverTwiceAlongRuns(s: State, steps: seq<Step>, id: Id)
    requires Bounded(s) && NeverTwice(s, id) && IsRun(s, steps) && id in s.used
    requires s.server != Restarted && NoCrash(steps)
    ensures Queued(After(s, steps).queue, id) <= 1
    decreases |steps|
  {
    if steps != [] {
      assert steps[0] in steps && forall step <- steps[1..] :: step in steps;
      BoundedByStep(s, steps[0]);
      NeverTwiceByStep(s, steps[0], id);
      if steps[0].Work? {
        WorkHasEffect(s, steps[0].ok);
      }
      NeverTwiceAlongRuns(Apply(s, steps[0]), steps[1..], id);
    }
  }

  /**
   A deployment accepted before the scan can stand twice in the queue after it exactly when it is in progress at the
   scan and the worker does not hold it yet.
   */
  lemma EarlyCanBeQueuedTwiceExactly(s: State, interrupted: seq<Id>, id: Id)
    requires Owned(s) && Enabled(s, Scan(interrupted)) && id in s.early
    ensures CanBeQueuedTwice(Apply(s, Scan(interrupted)), id) <==> InProgress(s, id) && !Holds(s.worker, id)
  {
    var scanned := Apply(s, Scan(interrupted));
    assert IsOwned(s, id) && Owners(s, id) <= OwnerBound(s, id);
    BoundedByScan(s, interrupted);
    if InProgress(s, id) && !Holds(s.worker, id) {
      var job, steps := Job(id, s.store[id].app, false, false), [];
      if id in s.creating {
        steps := ListedAndCreating(scanned, job);
      } else {
        steps := ListedAndQueued(scanned, job);
      }
      assert IsRun(scanned, steps);
    } else {
      forall steps: seq<Step> | IsRun(scanned, steps) && NoCrash(steps)
        ensures Queued(After(scanned, steps).queue, id) != 2
      {
        NeverTwiceAlongRuns(scanned, steps, id);
      }
    }
  }

  lemma EarlyDeployment(job: Job)
    ensures
      var start, id := [Crash, Create(job.deployment, job.app), Enqueue(job)], job.deployment;
      && IsSafeRun(INITIAL, start)
      && After(INITIAL, start) == State(map[id := Record(job.app, Pending)], {}, {id}, {}, [job], Idle, Restarted, {id})
  {
    var create := Create(job.deployment, job.app);
    var s1 := Apply(INITIAL, Crash);
    var s2 := Apply(s1, create);
    StepThen(s2, Enqueue(job), []);
    StepThen(s1, create, [Enqueue(job)]);
    StepThen(INITIAL, Crash, [create] + [Enqueue(job)]);
    assert [Enqueue(job)] + [] == [Enqueue(job)];
    assert [Crash] + ([create] + [Enqueue(job)]) == [Crash, create, Enqueue(job)];
    assert s2.queue + [job] == [job];
  }

  /** So it happens from the start: crash, restart, a handler's deployment, and then the scan. */
  lemma CreationBeforeScanQueuesTwice(job: Job) returns (steps: seq<Step>)
    ensures
      var run := [Crash, Create(job.deployment, job.app), Enqueue(job)] + ([Scan([job.deployment])] + steps);
      IsRun(INITIAL, run) && Queued(After(INITIAL, run).queue, job.deployment) == 2
  {
    var start, scan := [Crash, Create(job.deployment, job.app), Enqueue(job)], Scan([job.deployment]);
    EarlyDeployment(job);
    var s := After(INITIAL, start);
    QueuedSnoc([], job, job.deployment);
    assert [] + [job] == [job];
    steps := ListedAndQueued(Apply(s, scan), job);
    StepThen(s, scan, steps);
    RunsSplit(INITIAL, start, [scan] + steps);
  }
}
