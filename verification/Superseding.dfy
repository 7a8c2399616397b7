/** Superseding a deployment while its job is under way: when the stop holds, and what overwrites it. */
module Superseding {
  import opened Model
  import opened JobLifecycle
  import StartupReplay

  /** The worker's next access to its own deployment only reads it, or there is none left. */
  predicate ReadsNext(worker: Worker)
    requires worker.Busy?
  {
    match worker.at
    case Prepare => !worker.job.rollback && !worker.job.hasSource
    case WriteCloning => false
    case WriteBuilding => false
    case WriteStarting => false
    case ReadPrevious => false
    case Rollout(_) => false
    case WriteRunning(_) => false
    case WriteFailure(_) => false
    case _ => true
  }

  /** The step neither deletes the deployment nor saves a copy of it that is not stopped. */
  ghost predicate RespectsStop(step: Step, id: Id) {
    && step != Delete(id)
    && (step.Save? && step.id == id ==> SavedStatus(step.copy, step.running) == Stopped)
  }

  ghost predicate AllRespectStop(steps: seq<Step>, id: Id) {
    forall step <- steps :: RespectsStop(step, id)
  }

  /** Of the saves of a stopped deployment, exactly those of a stopped copy leave it stopped. */
  lemma SaveKeepsStopExactly(s: State, step: Step, id: Id)
    requires IsStopped(s, id) && step.Save? && Enabled(s, step)
    ensures IsStopped(Apply(s, step), id) <==> RespectsStop(step, id)
  {
  }

  /** A stop that holds: no handler will withdraw the deployment, no replay fail it, and its worker reads it next. */
  ghost predicate Doomed(s: State, id: Id) {
    && IsStopped(s, id) && id in s.used && id !in s.creating && Listed(s.server, id) == 0
    && (Holds(s.worker, id) ==> ReadsNext(s.worker))
  }

  lemma DoomedByWork(s: State, ok: bool, id: Id)
    requires Doomed(s, id) && s.worker.Busy?
    ensures
      var s' := WorkStep(s, ok);
      IsStopped(s', id) && (Holds(s'.worker, id) ==> ReadsNext(s'.worker))
  {
  }

  predicate IsReplay(step: Step) {
    step.Scan? || step.Requeue? || step.GiveUp? || step.EndReplay?
  }

  lemma DoomedByReplay(s: State, step: Step, id: Id)
    requires Doomed(s, id) && IsReplay(step) && Enabled(s, step)
    ensures Doomed(Apply(s, step), id)
  {
    if step.Requeue? || step.GiveUp? {
      ListedHead(s.server.interrupted, id);
    } else if step.Scan? {
      assert id !in step.interrupted;
    }
  }

  lemma DoomedByStep(s: State, step: Step, id: Id)
    requires Doomed(s, id) && Enabled(s, step) && RespectsStop(step, id)
    ensures Doomed(Apply(s, step), id)
  {
    if step.Work? {
      DoomedByWork(s, step.ok, id);
    } else if IsReplay(step) {
      DoomedByReplay(s, step, id);
    }
  }

  lemma {:induction false} DoomedAlongRuns(s: State, steps: seq<Step>, id: Id)
    requires Doomed(s, id) && IsRun(s, steps) && AllRespectStop(steps, id)
    ensures Doomed(After(s, steps), id)
    decreases |steps|
  {
    if steps != [] {
      assert steps[0] in steps && forall step <- steps[1..] :: step in steps;
      DoomedByStep(s, steps[0], id);
      DoomedAlongRuns(Apply(s, steps[0]), steps[1..], id);
    }
  }

  /**
   Whatever happens next, short of deleting the deployment or saving another copy of it, it stays stopped and its
   job writes nothing to it.
   */
  ghost predicate StopHolds(s: State, id: Id) {
    forall steps: seq<Step> :: IsRun(s, steps) && AllRespectStop(steps, id) ==>
      var s' := After(s, steps);
      IsStopped(s', id) && (Holds(s'.worker, id) ==> ReadsNext(s'.worker))
  }

  /** The worker's successful steps up to its next write to its own deployment. */
  function StepsToWrite(at: Location): nat {
    match at
    case Prepare => 2
    case ReadPrevious => 3
    case Rollout(_) => 2
    case _ => 1
  }

  lemma {:induction false} NextWriteOverwrites(s: State)
    requires s.worker.Busy? && !ReadsNext(s.worker)
    ensures
      var steps := WorkOn(StepsToWrite(s.worker.at));
      && IsRun(s, steps) && AllRespectStop(steps, s.worker.job.deployment)
      && !IsStopped(After(s, steps), s.worker.job.deployment)
    decreases StepsToWrite(s.worker.at)
  {
    var n := StepsToWrite(s.worker.at);
    var s' := Apply(s, Work(true));
    StepThen(s, Work(true), WorkOn(n - 1));
    if n > 1 {
      assert StepsToWrite(s'.worker.at) == n - 1;
      NextWriteOverwrites(s');
    }
  }

  /** A replay that still lists the deployment can fail it over the stop, and its handler can withdraw it. */
  lemma OtherOwnersOverwrite(s: State, id: Id) returns (steps: seq<Step>)
    requires IsStopped(s, id) && (id in s.creating || Listed(s.server, id) > 0)
    ensures IsRun(s, steps) && AllRespectStop(steps, id) && !IsStopped(After(s, steps), id)
  {
    if id in s.creating {
      steps := [Withdraw(id)];
      StepThen(s, Withdraw(id), []);
      assert [Withdraw(id)] + [] == [Withdraw(id)];
    } else {
      assert id in s.server.interrupted;
      var givenUp := StartupReplay.GiveUpsTo(s, id);
      var ready := After(s, givenUp);
      steps := givenUp + [GiveUp];
      RunsSplit(s, givenUp, [GiveUp]);
      StepThen(ready, GiveUp, []);
      assert [GiveUp] + [] == [GiveUp];
    }
  }

  /**
   Superseding the deployment the worker holds: the stop holds exactly when it lands where the worker reads
   the deployment before writing it, and neither its handler nor the replay has a hand on it as well.
   Otherwise the copy read at pickup is written back over it, or the second owner removes or fails it.
   */
  lemma StopHoldsExactly(s: State)
    requires s.worker.Busy? && IsStopped(s, s.worker.job.deployment) && s.worker.job.deployment in s.used
    ensures
      var id := s.worker.job.deployment;
      StopHolds(s, id) <==> ReadsNext(s.worker) && id !in s.creating && Listed(s.server, id) == 0
  {
    var id := s.worker.job.deployment;
    if !ReadsNext(s.worker) {
      NextWriteOverwrites(s);
      assert AllRespectStop(WorkOn(StepsToWrite(s.worker.at)), id);
    } else if id in s.creating || Listed(s.server, id) > 0 {
      var steps := OtherOwnersOverwrite(s, id);
      assert !IsStopped(After(s, steps), id);
    } else {
      forall steps: seq<Step> | IsRun(s, steps) && AllRespectStop(steps, id)
        ensures
          var s' := After(s, steps);
          IsStopped(s', id) && (Holds(s'.worker, id) ==> ReadsNext(s'.worker))
      {
        DoomedAlongRuns(s, steps, id);
      }
    }
  }

  /** For a deployment that was not accepted before a replay scan the worker is the only owner. */
  lemma StopHoldsExactlyBeforeAReading(s: State)
    requires Bounded(s) && s.worker.Busy? && IsStopped(s, s.worker.job.deployment)
    requires s.worker.job.deployment !in s.early
    ensures StopHolds(s, s.worker.job.deployment) <==> ReadsNext(s.worker)
  {
    assert Owners(s, s.worker.job.deployment) <= OwnerBound(s, s.worker.job.deployment);
    StopHoldsExactly(s);
  }
}
