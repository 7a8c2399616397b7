/** Which status each access to the store leaves, and how a job ends that succeeds or fails. */
module JobOutcomes {
  import opened Model
  import opened JobLifecycle

  // ----- who writes which status

  /** The worker's access succeeds and stands at this place, for its own deployment. */
  ghost predicate WorkerAt(s: State, step: Step, id: Id) {
    step == Work(true) && Holds(s.worker, id)
  }

  /** The step saves this deployment with this status, whatever it was before. */
  ghost predicate Writes(s: State, step: Step, id: Id, status: Status) {
    || (step.Save? && step.id == id && status == if step.running then Running else step.copy.status)
    || match status
       case Pending => step.Create? && step.id == id
       case Cloning => WorkerAt(s, step, id) && s.worker.at.WriteCloning?
       case Building => WorkerAt(s, step, id) && s.worker.at.WriteBuilding?
       case Pushing => false
       case Starting => WorkerAt(s, step, id) && s.worker.at.WriteStarting?
       case Running => WorkerAt(s, step, id) && s.worker.at.WriteRunning?
       case Failed =>
         || (step.Work? && Holds(s.worker, id) && s.worker.at.WriteFailure?)
         || (step.GiveUp? && s.server.Replaying? && s.server.interrupted != [] && s.server.interrupted[0] == id
             && id in s.store)
       case Stopped => step.Stop? && step.id == id
  }

  /** The worker's access may mark this previously running deployment as stopped. */
  ghost predicate MayRetire(s: State, step: Step, id: Id) {
    step == Work(true) && s.worker.Busy? && s.worker.at.Retire? && id in s.worker.at.previous
  }

  /** Every write leaves just the status it stands for. */
  lemma WritesLeaveTheirStatus(s: State, step: Step, id: Id, status: Status)
    requires Enabled(s, step) && Writes(s, step, id, status)
    ensures id in Apply(s, step).store && Apply(s, step).store[id].status == status
  {
  }

  /** And no other step changes a status: only a successful rollout, or a saved copy, makes a deployment running. */
  lemma OnlyWritesChangeStatus(s: State, step: Step, id: Id, status: Status)
    requires Enabled(s, step) && id in Apply(s, step).store && Apply(s, step).store[id].status == status
    ensures || (id in s.store && s.store[id].status == status)
            || Writes(s, step, id, status)
            || (status == Stopped && MayRetire(s, step, id))
  {
  }

  /** Only a handler that deletes or withdraws it takes a deployment out of the store. */
  lemma OnlyHandlersDelete(s: State, step: Step, id: Id)
    requires Enabled(s, step) && id in s.store
    ensures id !in Apply(s, step).store <==> step == Delete(id) || step == Withdraw(id)
  {
  }

  // ----- a job that fails

  lemma Thrice(s: State, a: Step, b: Step, c: Step)
    requires Enabled(s, a) && Enabled(Apply(s, a), b) && Enabled(Apply(Apply(s, a), b), c)
    ensures IsRun(s, [a, b, c]) && After(s, [a, b, c]) == Apply(Apply(Apply(s, a), b), c)
  {
    var s1 := Apply(s, a);
    var s2 := Apply(s1, b);
    StepThen(s2, c, []);
    StepThen(s1, b, [c]);
    StepThen(s, a, [b, c]);
    assert [c] + [] == [c] && [b] + [c] == [b, c] && [a] + [b, c] == [a, b, c];
  }

  /** Wherever an access of `process_job` fails, the worker on its own marks a deployment failed, if it is to go on. */
  lemma FailureEndsFailed(s: State)
    requires s.worker.Busy? && !s.worker.at.ReadFailure? && !s.worker.at.WriteFailure?
    requires s.worker.job.deployment in s.store && s.store[s.worker.job.deployment].status != Stopped
    ensures
      var id, steps := s.worker.job.deployment, [Work(false), Work(true), Work(true)];
      && IsRun(s, steps)
      && After(s, steps) == s.(worker := Idle, store := s.store[id := Record(s.store[id].app, Failed)])
  {
    Thrice(s, Work(false), Work(true), Work(true));
  }

  /** A failure of a stopped or deleted deployment leaves the store alone. */
  lemma FailureOfStoppedIsQuiet(s: State)
    requires s.worker.Busy? && !s.worker.at.ReadFailure? && !s.worker.at.WriteFailure?
    requires s.worker.job.deployment in s.store ==> s.store[s.worker.job.deployment].status == Stopped
    ensures IsRun(s, [Work(false), Work(true)]) && After(s, [Work(false), Work(true)]) == s.(worker := Idle)
  {
    var failed := Apply(s, Work(false));
    StepThen(failed, Work(true), []);
    StepThen(s, Work(false), [Work(true)]);
    assert [Work(true)] + [] == [Work(true)] && [Work(false)] + [Work(true)] == [Work(false), Work(true)];
  }

  /** A job is only worked on under the app of its deployment; otherwise it ends as a failed one. */
  lemma LoadChecksTheApp(s: State)
    requires s.worker.Busy? && s.worker.at.Load?
    ensures
      var id, next := s.worker.job.deployment, WorkStep(s, true);
      && next.store == s.store && next.worker.Busy? && next.worker.job == s.worker.job
      && next.worker.at == if id in s.store && s.store[id].app == s.worker.job.app then CheckExecution else ReadFailure
  {
  }

  /** The steps that may put a deployment under another app: jobs of a different app, and saved copies. */
  lemma AppsStay(s: State, step: Step, id: Id)
    requires Enabled(s, step) && id in s.store && id in Apply(s, step).store
    requires step.Save? && step.id == id ==> step.copy.app == s.store[id].app
    requires step.Work? && Holds(s.worker, id) ==>
               if s.worker.at.WriteFailure? then s.worker.at.app == s.store[id].app
               else s.worker.job.app == s.store[id].app
    requires step.Create? ==> step.id != id
    ensures Apply(s, step).store[id].app == s.store[id].app
  {
  }

  /** At each of its checks, and before a failure mark, a job ends exactly when its deployment is stopped or gone. */
  lemma ChecksEndTheJobExactly(s: State)
    requires s.worker.Busy?
    requires s.worker.at in {CheckExecution, CheckCheckout, CheckBuild, CheckRollout, ReadFailure}
    ensures
      var id, next := s.worker.job.deployment, WorkStep(s, true);
      && next == s.(worker := next.worker)
      && (next.worker == Idle <==> id !in s.store || s.store[id].status == Stopped)
  {
  }

  // ----- a job that succeeds

  lemma WorkNext(s: State, n: nat)
    requires s.worker.Busy?
    ensures IsRun(s, WorkOn(n + 1)) <==> IsRun(WorkStep(s, true), WorkOn(n))
    ensures After(s, WorkOn(n + 1)) == After(WorkStep(s, true), WorkOn(n))
  {
    StepThen(s, Work(true), WorkOn(n));
  }

  /** Accesses of a job from here up to the end of its preparation, before it looks for what ran until now. */
  function Preparing(job: Job, at: Location): nat {
    match at
    case Load => if job.rollback then 5 else if job.hasSource then 11 else 9
    case CheckExecution => if job.rollback then 4 else if job.hasSource then 10 else 8
    case Prepare => if job.rollback then 3 else if job.hasSource then 9 else 7
    case WriteCloning => 8
    case Clone => 7
    case CheckCheckout => 6
    case WriteBuilding => 5
    case Build => 4
    case CheckBuild => 3
    case WriteStarting => 2
    case CheckRollout => 1
    case _ => 0
  }

  /** The job is being prepared and nobody has stopped its deployment. */
  ghost predicate IsPreparing(s: State) {
    && s.worker.Busy? && Preparing(s.worker.job, s.worker.at) > 0
    && var id := s.worker.job.deployment;
       && id in s.store && s.store[id].app == s.worker.job.app && s.store[id].status != Stopped
       && (s.worker.at.CheckRollout? ==> s.store[id].status == Starting)
  }

  lemma PreparationStep(s: State)
    requires IsPreparing(s)
    ensures
      var job, next := s.worker.job, WorkStep(s, true);
      && next.worker.Busy? && next.worker.job == job
      && next == s.(worker := next.worker, store := next.store)
      && Preparing(job, next.worker.at) == Preparing(job, s.worker.at) - 1
      && job.deployment in next.store && next.store == s.store[job.deployment := next.store[job.deployment]]
      && if Preparing(job, s.worker.at) > 1 then IsPreparing(next)
         else next.worker.at == ReadPrevious && next.store[job.deployment] == Record(job.app, Starting)
  {
  }

  /** Undisturbed, the accesses of a job take it through its phases, each once, and leave its deployment starting. */
  lemma {:induction false} PreparationRuns(s: State)
    requires IsPreparing(s)
    ensures
      var job, steps := s.worker.job, WorkOn(Preparing(s.worker.job, s.worker.at));
      && IsRun(s, steps)
      && After(s, steps) == s.(worker := Busy(job, ReadPrevious),
                               store := s.store[job.deployment := Record(job.app, Starting)])
    decreases Preparing(s.worker.job, s.worker.at)
  {
    var job, n := s.worker.job, Preparing(s.worker.job, s.worker.at);
    var next := WorkStep(s, true);
    PreparationStep(s);
    WorkNext(s, n - 1);
    if n > 1 {
      PreparationRuns(next);
    }
    assert next.store[job.deployment := Record(job.app, Starting)]
           == s.store[job.deployment := Record(job.app, Starting)];
  }

  /** The deployments of the app that run, besides the one worked on. */
  function RunningBeside(store: map<Id, Record>, job: Job): set<Id> {
    set d <- store | d != job.deployment && store[d] == Record(job.app, Running)
  }

  /** The store with these deployments stopped. */
  function WithStopped(store: map<Id, Record>, stopped: set<Id>): map<Id, Record> {
    map d <- store :: if d in stopped then Record(store[d].app, Stopped) else store[d]
  }

  lemma RetireOne(s: State) returns (p: Id)
    requires s.worker.Busy? && s.worker.at.Retire? && {} != s.worker.at.previous <= s.store.Keys
    ensures p in s.worker.at.previous
    ensures WorkStep(s, true) ==
            s.(worker := Busy(s.worker.job, Retire(s.worker.at.previous - {p})),
               store := s.store[p := Record(s.store[p].app, Stopped)])
  {
    var rest := WorkStep(s, true).worker.at.previous;
    p :| p in s.worker.at.previous && rest == s.worker.at.previous - {p}
         && WorkStep(s, true).store == s.store[p := Record(s.store[p].app, Stopped)];
  }

  lemma WithOneStopped(store: map<Id, Record>, previous: set<Id>, p: Id)
    requires p in store && p in previous
    ensures WithStopped(store[p := Record(store[p].app, Stopped)], previous - {p}) == WithStopped(store, previous)
  {
  }

  lemma {:induction false} RetirementRuns(s: State)
    requires s.worker.Busy? && s.worker.at.Retire? && s.worker.at.previous <= s.store.Keys
    ensures
      var previous := s.worker.at.previous;
      && IsRun(s, WorkOn(|previous| + 1))
      && After(s, WorkOn(|previous| + 1)) == s.(worker := Idle, store := WithStopped(s.store, previous))
    decreases |s.worker.at.previous|
  {
    var previous := s.worker.at.previous;
    WorkNext(s, |previous|);
    if previous == {} {
      assert WithStopped(s.store, {}) == s.store;
    } else {
      var p := RetireOne(s);
      RetirementRuns(WorkStep(s, true));
      WithOneStopped(s.store, previous, p);
    }
  }

  /**
   Undisturbed, a prepared job ends with its deployment as the only one of the app that runs: those that ran are
   stopped, and nothing else in the store has changed.
   */
  lemma SuccessLeavesOnlyItRunning(s: State)
    requires s.worker.Busy? && s.worker.at.ReadPrevious? && s.worker.job.deployment in s.store
    ensures
      var job, previous := s.worker.job, RunningBeside(s.store, s.worker.job);
      var steps := WorkOn(|previous| + 4);
      && IsRun(s, steps)
      && After(s, steps) == s.(worker := Idle,
           store := WithStopped(s.store, previous)[job.deployment := Record(job.app, Running)])
      && RunningBeside(After(s, steps).store, job) == {}
  {
    var job, previous := s.worker.job, RunningBeside(s.store, s.worker.job);
    var s1 := WorkStep(s, true);
    assert s1.worker.at.previous == previous;
    var s2 := WorkStep(s1, true);
    var s3 := WorkStep(s2, true);
    RetirementRuns(s3);
    WorkNext(s2, |previous| + 1);
    WorkNext(s1, |previous| + 2);
    WorkNext(s, |previous| + 3);
    assert WithStopped(s3.store, previous)
           == WithStopped(s.store, previous)[job.deployment := Record(job.app, Running)];
  }
}
