/**
 The life of deployments across the worker, the API handlers, crashes and the startup replay. One access
 to the store or the queue is one step, so a run interleaves the worker with any number of handlers.
 */
module JobLifecycle {
  import opened Model
  import opened Sequences

  datatype Record = Record(app: Id, status: Status)

  datatype Job = Job(deployment: Id, app: Id, rollback: bool, hasSource: bool)

  /** What the worker does next with its job. `previous` holds the deployments read as running. */
  datatype Location =
    | Load | CheckExecution | Prepare
    | WriteCloning | Clone | CheckCheckout
    | WriteBuilding | Build | CheckBuild
    | WriteStarting | CheckRollout
    | ReadPrevious | Rollout(previous: set<Id>) | WriteRunning(previous: set<Id>) | Retire(previous: set<Id>)
    | ReadFailure | WriteFailure(app: Id)

  datatype Worker = Idle | Busy(job: Job, at: Location)

  datatype Server = Serving | Restarted | Replaying(interrupted: seq<Id>)

  /**
   `creating` holds the deployments saved by a handler that has not queued the job yet, `early` those created
   since the last restart but before its replay scan, `copies` what handlers that act on a service have read,
   `used` every id so far.
   */
  datatype State = State(store: map<Id, Record>, creating: set<Id>, early: set<Id>, copies: set<(Id, Record)>,
                         queue: seq<Job>, worker: Worker, server: Server, used: set<Id>)

  const INITIAL := State(map[], {}, {}, {}, [], Idle, Serving, {})

  datatype Step =
    | Create(id: Id, app: Id)       // a handler saves a pending deployment
    | Enqueue(job: Job)             // ... and sends its job
    | Withdraw(id: Id)              // ... or deletes it because sending failed
    | Stop(id: Id, app: Id)         // a handler saves the copy it listed before as stopped
    | Delete(id: Id)
    | Copy(id: Id)                  // a handler that stops, starts, scales or deletes a service reads a deployment
    | Save(id: Id, copy: Record, running: bool)  // ... and later saves it, as it read it or as running
    | Receive
    | Work(ok: bool)                // the worker's next access, which may fail
    | Crash
    | Scan(interrupted: seq<Id>)    // startup replay lists the interrupted deployments
    | Requeue(job: Job)             // ... queues the first one again
    | GiveUp                        // ... or marks it failed
    | EndReplay

  predicate InProgressStatus(status: Status) {
    status in {Pending, Cloning, Building, Pushing, Starting}
  }

  predicate InProgress(s: State, id: Id) {
    id in s.store && InProgressStatus(s.store[id].status)
  }

  predicate IsStopped(s: State, id: Id) {
    id in s.store && s.store[id].status == Stopped
  }

  ghost predicate Enabled(s: State, step: Step) {
    match step
    case Create(id, _) => id !in s.used
    case Enqueue(job) => job.deployment in s.creating
    case Withdraw(id) => id in s.creating
    case Stop(id, app) => id in s.used && (id in s.store ==> app == s.store[id].app)
    case Delete(id) => id in s.used
    case Copy(id) => id in s.store
    case Save(id, copy, _) => (id, copy) in s.copies
    case Receive => s.worker == Idle && s.queue != []
    case Work(_) => s.worker.Busy?
    case Crash => true
    case Scan(interrupted) =>
      && s.server == Restarted && NoRepeats(interrupted)
      && (forall id <- interrupted :: InProgress(s, id))
      && (forall id <- s.store :: InProgress(s, id) ==> id in interrupted)
    case Requeue(job) => s.server.Replaying? && s.server.interrupted != [] && job.deployment == s.server.interrupted[0]
    case GiveUp => s.server.Replaying? && s.server.interrupted != []
    case EndReplay => s.server == Replaying([])
  }

  function SetStatus(s: State, id: Id, app: Id, status: Status): State {
    s.(store := s.store[id := Record(app, status)])
  }

  function SavedStatus(copy: Record, running: bool): Status {
    if running then Running else copy.status
  }

  ghost function Apply(s: State, step: Step): State
    requires Enabled(s, step)
  {
    match step
    case Create(id, app) =>
      SetStatus(s, id, app, Pending).(creating := s.creating + {id}, used := s.used + {id},
        early := if s.server == Restarted then s.early + {id} else s.early)
    case Enqueue(job) => s.(creating := s.creating - {job.deployment}, queue := s.queue + [job])
    case Withdraw(id) => s.(creating := s.creating - {id}, store := s.store - {id})
    case Stop(id, app) => SetStatus(s, id, app, Stopped)
    case Delete(id) => s.(store := s.store - {id})
    case Copy(id) => s.(copies := s.copies + {(id, s.store[id])})
    case Save(id, copy, running) => SetStatus(s, id, copy.app, SavedStatus(copy, running))
    case Receive => s.(queue := s.queue[1..], worker := Busy(s.queue[0], Load))
    case Work(ok) => WorkStep(s, ok)
    case Crash => s.(creating := {}, early := {}, copies := {}, queue := [], worker := Idle, server := Restarted)
    case Scan(interrupted) => s.(server := Replaying(interrupted))
    case Requeue(job) => s.(server := Replaying(s.server.interrupted[1..]), queue := s.queue + [job])
    case GiveUp =>
      var id := s.server.interrupted[0];
      var marked := if id in s.store then SetStatus(s, id, s.store[id].app, Failed) else s;
      marked.(server := Replaying(s.server.interrupted[1..]))
    case EndReplay => s.(server := Serving)
  }

  function Goto(s: State, at: Location): State
    requires s.worker.Busy?
  {
    s.(worker := s.worker.(at := at))
  }

  /** Writes the copy read at pickup back with a new status, whatever the store holds by now. */
  function UpdateStatus(s: State, status: Status, at: Location): State
    requires s.worker.Busy?
  {
    Goto(SetStatus(s, s.worker.job.deployment, s.worker.job.app, status), at)
  }

  /** Goes on unless the deployment is stopped or gone; then the job ends. */
  function Continue(s: State, at: Location): State
    requires s.worker.Busy?
  {
    var id := s.worker.job.deployment;
    if id !in s.store || s.store[id].status == Stopped then s.(worker := Idle) else Goto(s, at)
  }

  /** The worker's next access. Failing anywhere in `process_job` leads to the failure mark. */
  ghost function WorkStep(s: State, ok: bool): State
    requires s.worker.Busy?
  {
    if !ok && !s.worker.at.ReadFailure? && !s.worker.at.WriteFailure? then Goto(s, ReadFailure) else Advance(s)
  }

  ghost function Advance(s: State): State
    requires s.worker.Busy?
  {
    var Busy(job, at) := s.worker;
    var id := job.deployment;
    match at
    case Load => Goto(s, if id in s.store && s.store[id].app == job.app then CheckExecution else ReadFailure)
    case CheckExecution => Continue(s, Prepare)
    case Prepare =>
      Goto(s, if job.rollback then WriteStarting else if job.hasSource then WriteCloning else CheckCheckout)
    case WriteCloning => UpdateStatus(s, Cloning, Clone)
    case Clone => Goto(s, CheckCheckout)
    case CheckCheckout => Continue(s, WriteBuilding)
    case WriteBuilding => UpdateStatus(s, Building, Build)
    case Build => Goto(s, CheckBuild)
    case CheckBuild => Continue(s, WriteStarting)
    case WriteStarting => UpdateStatus(s, Starting, CheckRollout)
    case CheckRollout => Continue(s, ReadPrevious)
    case ReadPrevious =>
      Goto(s, Rollout(set d <- s.store | d != id && s.store[d] == Record(job.app, Running)))
    case Rollout(previous) => Goto(s, WriteRunning(previous))
    case WriteRunning(previous) => UpdateStatus(s, Running, Retire(previous))
    case Retire(previous) => RetireStep(s, previous)
    case ReadFailure => if id in s.store then Continue(s, WriteFailure(s.store[id].app)) else s.(worker := Idle)
    case WriteFailure(app) => SetStatus(s, id, app, Failed).(worker := Idle)
  }

  /** Marks one of the previously running deployments stopped; none left, the job is done. */
  ghost function RetireStep(s: State, previous: set<Id>): State
    requires s.worker.Busy?
  {
    if previous == {} then s.(worker := Idle)
    else
      var p :| p in previous;
      Goto(SetStatus(s, p, if p in s.store then s.store[p].app else s.worker.job.app, Stopped), Retire(previous - {p}))
  }

  ghost predicate IsRun(s: State, steps: seq<Step>)
    decreases |steps|
  {
    steps == [] || (Enabled(s, steps[0]) && IsRun(Apply(s, steps[0]), steps[1..]))
  }

  ghost function After(s: State, steps: seq<Step>): State
    decreases |steps|
  {
    if steps == [] || !Enabled(s, steps[0]) then s else After(Apply(s, steps[0]), steps[1..])
  }

  // ----- ownership

  function Queued(queue: seq<Job>, id: Id): nat {
    if queue == [] then 0
    else Queued(queue[..|queue| - 1], id) + if queue[|queue| - 1].deployment == id then 1 else 0
  }

  function Listed(server: Server, id: Id): nat {
    if server.Replaying? then multiset(server.interrupted)[id] else 0
  }

  predicate Holds(worker: Worker, id: Id) {
    worker.Busy? && worker.job.deployment == id
  }

  /** In how many hands a deployment is. */
  function Owners(s: State, id: Id): nat {
    (if id in s.creating then 1 else 0) + Queued(s.queue, id) + (if Holds(s.worker, id) then 1 else 0)
    + Listed(s.server, id)
  }

  /** A worker that only retires older deployments will not look at its own again. */
  predicate OnlyRetires(worker: Worker, id: Id) {
    Holds(worker, id) && worker.at.Retire?
  }

  /** Some owner is left that will still read or write the deployment. */
  predicate Attended(s: State, id: Id) {
    Owners(s, id) > if OnlyRetires(s.worker, id) then 1 else 0
  }

  /**
   How many owners a deployment may have: one, but two after the scan when it was created before it, and
   none between a restart and the scan when it is from before the restart.
   */
  function OwnerBound(s: State, id: Id): nat {
    if id !in s.used then 0
    else if s.server != Restarted then (if id in s.early then 2 else 1)
    else if id in s.early then 1 else 0
  }

  /** Nobody has too many owners, and nothing is known of deployments that never were. */
  ghost predicate Bounded(s: State) {
    && (forall id :: Owners(s, id) <= OwnerBound(s, id))
    && s.store.Keys <= s.used && s.early <= s.used && (forall c <- s.copies :: c.0 in s.used)
    && (s.worker.Busy? ==> PreviousOf(s.worker.at) <= s.used)
  }

  /** The replay scan after a restart is still to come and will find the deployment. */
  predicate AwaitsScan(s: State, id: Id) {
    s.server == Restarted && id !in s.early
  }

  /** Ownership of one deployment. */
  predicate IsOwned(s: State, id: Id) {
    InProgress(s, id) ==> AwaitsScan(s, id) || Attended(s, id)
  }

  /** Only deployments that await the scan are in progress unattended. */
  ghost predicate Owned(s: State) {
    Bounded(s) && forall id :: IsOwned(s, id)
  }

  /** The deployments read as running, once they are read. */
  function PreviousOf(at: Location): set<Id> {
    match at
    case Rollout(previous) => previous
    case WriteRunning(previous) => previous
    case Retire(previous) => previous
    case _ => {}
  }

  /** Ownership is handed on or given up; only the scan adds owners to a known deployment. */
  ghost predicate OwnersHandedOn(s: State, s': State) {
    forall id :: id in s.used ==> Owners(s', id) <= Owners(s, id)
  }

  lemma {:induction false} QueuedHead(queue: seq<Job>, id: Id)
    requires queue != []
    ensures Queued(queue, id) == Queued(queue[1..], id) + if queue[0].deployment == id then 1 else 0
  {
    if |queue| > 1 {
      var init := queue[..|queue| - 1];
      QueuedHead(init, id);
      assert queue[1..][..|queue[1..]| - 1] == init[1..];
    }
  }

  lemma QueuedSnoc(queue: seq<Job>, job: Job, id: Id)
    ensures Queued(queue + [job], id) == Queued(queue, id) + if job.deployment == id then 1 else 0
  {
    assert (queue + [job])[..|queue|] == queue;
  }

  lemma ListedHead(ids: seq<Id>, id: Id)
    requires ids != []
    ensures multiset(ids)[id] == multiset(ids[1..])[id] + if ids[0] == id then 1 else 0
  {
    assert ids == [ids[0]] + ids[1..];
  }

  /** All a worker step does to ownership: it keeps its job, or ends it settled unless it only retired others. */
  ghost predicate WorkEffect(s: State, s': State)
    requires s.worker.Busy?
  {
    var id := s.worker.job.deployment;
    && s'.creating == s.creating && s'.queue == s.queue && s'.server == s.server
    && s'.used == s.used && s'.early == s.early && s'.copies == s.copies
    && (s'.worker == Idle || (s'.worker.Busy? && s'.worker.job == s.worker.job))
    && (s'.worker == Idle || OnlyRetires(s'.worker, id) ==>
          InProgress(s', id) ==> OnlyRetires(s.worker, id) && InProgress(s, id))
    && (forall other :: other != id && InProgress(s', other) ==> InProgress(s, other))
    && s'.store.Keys <= s.used
    && (s'.worker.Busy? ==> PreviousOf(s'.worker.at) <= s.used)
  }

  lemma WorkHasEffect(s: State, ok: bool)
    requires Bounded(s) && s.worker.Busy?
    ensures WorkEffect(s, WorkStep(s, ok))
  {
    assert Owners(s, s.worker.job.deployment) > 0;
  }

  lemma OwnersAfterWork(s: State, s': State)
    requires Bounded(s) && s.worker.Busy? && WorkEffect(s, s')
    ensures Bounded(s') && OwnersHandedOn(s, s')
    ensures forall id :: Owners(s', id) == Owners(s, id) - if Holds(s.worker, id) && s'.worker.Idle? then 1 else 0
  {
    forall id
      ensures Owners(s', id) == Owners(s, id) - if Holds(s.worker, id) && s'.worker.Idle? then 1 else 0
    {
      assert Holds(s.worker, id) ==> Owners(s, id) >= 1;
    }
  }

  lemma OwnedByWork(s: State, s': State)
    requires Owned(s) && s.worker.Busy? && WorkEffect(s, s')
    ensures Owned(s')
  {
    OwnersAfterWork(s, s');
    forall id ensures IsOwned(s', id) {
      assert IsOwned(s, id);
    }
  }

  lemma SameHands(s: State, s': State)
    requires s'.creating == s.creating && s'.queue == s.queue && s'.worker == s.worker && s'.server == s.server
    ensures forall id :: Owners(s', id) == Owners(s, id)
  {
  }

  predicate HandlerCreates(step: Step) {
    step.Create? || step.Enqueue? || step.Withdraw?
  }

  predicate HandlerWrites(step: Step) {
    step.Stop? || step.Delete? || step.Copy? || step.Save?
  }

  lemma OwnersAfterCreation(s: State, step: Step)
    requires Bounded(s) && Enabled(s, step) && HandlerCreates(step)
    ensures forall id :: Owners(Apply(s, step), id) == Owners(s, id) +
              if step.Create? && id == step.id then 1 else if step.Withdraw? && id == step.id then -1 else 0
  {
    forall id
      ensures Owners(Apply(s, step), id) == Owners(s, id) +
              if step.Create? && id == step.id then 1 else if step.Withdraw? && id == step.id then -1 else 0
    {
      if step.Create? {
        assert Owners(s, step.id) == 0;
      } else if step.Enqueue? {
        QueuedSnoc(s.queue, step.job, id);
      }
    }
  }

  lemma BoundedByCreation(s: State, step: Step)
    requires Bounded(s) && Enabled(s, step) && HandlerCreates(step)
    ensures Bounded(Apply(s, step)) && OwnersHandedOn(s, Apply(s, step))
    ensures Owned(s) ==> Owned(Apply(s, step))
  {
    var s' := Apply(s, step);
    OwnersAfterCreation(s, step);
    assert step.Create? ==> Owners(s, step.id) == 0;
    assert step.Enqueue? ==> Owners(s, step.job.deployment) >= 1;
    assert step.Withdraw? ==> Owners(s, step.id) >= 1;
    if Owned(s) {
      forall id ensures IsOwned(s', id) {
        assert IsOwned(s, id);
      }
    }
  }

  lemma BoundedByWrite(s: State, step: Step)
    requires Bounded(s) && Enabled(s, step) && HandlerWrites(step)
    ensures Bounded(Apply(s, step)) && OwnersHandedOn(s, Apply(s, step))
    ensures Owned(s) && !step.Save? ==> Owned(Apply(s, step))
  {
    var s' := Apply(s, step);
    SameHands(s, s');
    if Owned(s) && !step.Save? {
      forall id ensures IsOwned(s', id) {
        assert IsOwned(s, id);
      }
    }
  }

  lemma BoundedByScan(s: State, interrupted: seq<Id>)
    requires Bounded(s) && Enabled(s, Scan(interrupted))
    ensures Bounded(Apply(s, Scan(interrupted)))
    ensures forall id :: Owners(Apply(s, Scan(interrupted)), id) == Owners(s, id) + if InProgress(s, id) then 1 else 0
    ensures Owned(s) ==> Owned(Apply(s, Scan(interrupted)))
  {
    forall id
      ensures Owners(Apply(s, Scan(interrupted)), id) == Owners(s, id) + if InProgress(s, id) then 1 else 0
    {
      AtMostOnce(interrupted, id);
    }
    if Owned(s) {
      forall id ensures IsOwned(Apply(s, Scan(interrupted)), id) {
        assert IsOwned(s, id);
      }
    }
  }

  lemma OwnersAfterReplay(s: State, step: Step)
    requires Enabled(s, step) && (step.Requeue? || step.GiveUp? || step.EndReplay?)
    ensures forall id :: Owners(Apply(s, step), id) ==
              Owners(s, id) - if step.GiveUp? && id == s.server.interrupted[0] then 1 else 0
  {
    forall id
      ensures Owners(Apply(s, step), id) ==
              Owners(s, id) - if step.GiveUp? && id == s.server.interrupted[0] then 1 else 0
    {
      if step.Requeue? {
        QueuedSnoc(s.queue, step.job, id);
        ListedHead(s.server.interrupted, id);
      } else if step.GiveUp? {
        ListedHead(s.server.interrupted, id);
      }
    }
  }

  lemma BoundedByReplay(s: State, step: Step)
    requires Bounded(s) && Enabled(s, step) && (step.Requeue? || step.GiveUp? || step.EndReplay?)
    ensures Bounded(Apply(s, step)) && OwnersHandedOn(s, Apply(s, step))
    ensures Owned(s) ==> Owned(Apply(s, step))
  {
    var s' := Apply(s, step);
    OwnersAfterReplay(s, step);
    if Owned(s) {
      forall id ensures IsOwned(s', id) {
        assert IsOwned(s, id);
      }
    }
  }

  lemma BoundedByReceive(s: State)
    requires Bounded(s) && Enabled(s, Receive)
    ensures Bounded(Apply(s, Receive)) && OwnersHandedOn(s, Apply(s, Receive))
    ensures Owned(s) ==> Owned(Apply(s, Receive))
  {
    forall other ensures Owners(Apply(s, Receive), other) == Owners(s, other) {
      QueuedHead(s.queue, other);
    }
    if Owned(s) {
      forall id ensures IsOwned(Apply(s, Receive), id) {
        assert IsOwned(s, id);
      }
    }
  }

  lemma BoundedByCrash(s: State)
    requires Bounded(s)
    ensures Owned(Apply(s, Crash)) && OwnersHandedOn(s, Apply(s, Crash))
  {
    forall other ensures Owners(Apply(s, Crash), other) == 0 {}
  }

  /** The bounds hold on, whatever is saved; ownership does unless a copy is saved. */
  lemma BoundedByStep(s: State, step: Step)
    requires Bounded(s) && Enabled(s, step)
    ensures Bounded(Apply(s, step))
    ensures !step.Scan? ==> OwnersHandedOn(s, Apply(s, step))
    ensures Owned(s) && !step.Save? ==> Owned(Apply(s, step))
  {
    if step.Work? {
      WorkHasEffect(s, step.ok);
      OwnersAfterWork(s, Apply(s, step));
      if Owned(s) {
        OwnedByWork(s, Apply(s, step));
      }
    } else if HandlerCreates(step) {
      BoundedByCreation(s, step);
    } else if HandlerWrites(step) {
      BoundedByWrite(s, step);
    } else if step.Receive? {
      BoundedByReceive(s);
    } else if step.Crash? {
      BoundedByCrash(s);
    } else if step.Scan? {
      BoundedByScan(s, step.interrupted);
    } else {
      BoundedByReplay(s, step);
    }
  }

  // ----- saving a copy read before

  /** The saved status is settled, the scan is still to come, or an owner is left that reads or writes it again. */
  predicate IsSafeSave(s: State, step: Step)
    requires step.Save?
  {
    || !InProgressStatus(SavedStatus(step.copy, step.running))
    || AwaitsScan(s, step.id)
    || Attended(s, step.id)
  }

  /** Exactly those saves keep ownership. */
  lemma SaveKeepsOwnedExactly(s: State, step: Step)
    requires Owned(s) && step.Save? && Enabled(s, step)
    ensures Owned(Apply(s, step)) <==> IsSafeSave(s, step)
  {
    var s' := Apply(s, step);
    BoundedByWrite(s, step);
    SameHands(s, s');
    if IsSafeSave(s, step) {
      forall id ensures IsOwned(s', id) {
        assert IsOwned(s, id);
      }
    } else {
      assert !IsOwned(s', step.id);
    }
  }

  // ----- whole runs

  ghost predicate SavesAreSafe(s: State, steps: seq<Step>)
    requires IsRun(s, steps)
    decreases |steps|
  {
    steps == []
    || ((steps[0].Save? ==> IsSafeSave(s, steps[0])) && SavesAreSafe(Apply(s, steps[0]), steps[1..]))
  }

  ghost predicate OwnedThroughout(s: State, steps: seq<Step>)
    requires IsRun(s, steps)
    decreases |steps|
  {
    Owned(s) && (steps == [] || OwnedThroughout(Apply(s, steps[0]), steps[1..]))
  }

  /** A run in which handlers save no unattended deployment as in progress. */
  ghost predicate IsSafeRun(s: State, steps: seq<Step>) {
    IsRun(s, steps) && SavesAreSafe(s, steps)
  }

  lemma {:induction false} BoundedAlongRuns(s: State, steps: seq<Step>)
    requires Bounded(s) && IsRun(s, steps)
    ensures Bounded(After(s, steps)) && s.used <= After(s, steps).used
    decreases |steps|
  {
    if steps != [] {
      BoundedByStep(s, steps[0]);
      if steps[0].Work? {
        WorkHasEffect(s, steps[0].ok);
      }
      BoundedAlongRuns(Apply(s, steps[0]), steps[1..]);
    }
  }

  lemma {:induction false} OwnedAlongRuns(s: State, steps: seq<Step>)
    requires Owned(s) && IsSafeRun(s, steps)
    ensures OwnedThroughout(s, steps) && Owned(After(s, steps))
    decreases |steps|
  {
    if steps != [] {
      BoundedByStep(s, steps[0]);
      if steps[0].Save? {
        SaveKeepsOwnedExactly(s, steps[0]);
      }
      OwnedAlongRuns(Apply(s, steps[0]), steps[1..]);
    }
  }

  /** Ownership holds in every state of a run exactly when its saves are safe. */
  lemma {:induction false} OwnedThroughoutExactly(s: State, steps: seq<Step>)
    requires Owned(s) && IsRun(s, steps)
    ensures OwnedThroughout(s, steps) <==> SavesAreSafe(s, steps)
    decreases |steps|
  {
    if steps != [] {
      BoundedByStep(s, steps[0]);
      if steps[0].Save? {
        SaveKeepsOwnedExactly(s, steps[0]);
      }
      if Owned(Apply(s, steps[0])) {
        OwnedThroughoutExactly(Apply(s, steps[0]), steps[1..]);
      } else {
        assert !OwnedThroughout(Apply(s, steps[0]), steps[1..]);
      }
    }
  }

  lemma StepThen(s: State, step: Step, rest: seq<Step>)
    ensures IsRun(s, [step] + rest) <==> Enabled(s, step) && IsRun(Apply(s, step), rest)
    ensures Enabled(s, step) ==> After(s, [step] + rest) == After(Apply(s, step), rest)
    ensures Enabled(s, step) && !step.Save? ==> (IsSafeRun(s, [step] + rest) <==> IsSafeRun(Apply(s, step), rest))
  {
    assert ([step] + rest)[1..] == rest;
  }

  lemma {:induction false} RunsSplit(s: State, first: seq<Step>, second: seq<Step>)
    ensures IsRun(s, first + second) <==> IsRun(s, first) && IsRun(After(s, first), second)
    ensures IsRun(s, first + second) ==> After(s, first + second) == After(After(s, first), second)
    ensures IsSafeRun(s, first + second) <==> IsSafeRun(s, first) && IsSafeRun(After(s, first), second)
    decreases |first|
  {
    if first == [] {
      assert first + second == second;
    } else {
      assert (first + second)[0] == first[0] && (first + second)[1..] == first[1..] + second;
      if Enabled(s, first[0]) {
        RunsSplit(Apply(s, first[0]), first[1..], second);
      }
    }
  }

  // ----- what follows at the end of a job and of all work

  /**
   Crashes and deployments accepted before a replay scan included: once nothing is queued, worked on, being
   created or replayed, no deployment is in progress.
   */
  lemma DrainedMeansSettled(steps: seq<Step>)
    requires IsSafeRun(INITIAL, steps)
    ensures
      var s := After(INITIAL, steps);
      s.queue == [] && s.worker.Idle? && s.creating == {} && s.server == Serving ==> forall id :: !InProgress(s, id)
  {
    OwnedAlongRuns(INITIAL, steps);
    var s := After(INITIAL, steps);
    if s.queue == [] && s.worker.Idle? && s.creating == {} && s.server == Serving {
      forall id ensures !InProgress(s, id) {
        assert IsOwned(s, id) && Owners(s, id) == 0;
      }
    }
  }

  lemma SettledStatuses(status: Status)
    ensures !InProgressStatus(status) <==> status in {Running, Failed, Stopped}
  {
    match status case Pending => case Cloning => case Building => case Pushing => case Starting => case _ =>
  }

  /**
   A job that ends leaves its deployment running, failed, stopped or deleted, unless that was accepted before a
   replay scan and its second owner is left.
   */
  lemma JobEndsSettled(steps: seq<Step>, ok: bool)
    requires IsSafeRun(INITIAL, steps + [Work(ok)])
    ensures
      var s, s' := After(INITIAL, steps), After(INITIAL, steps + [Work(ok)]);
      s.worker.Busy? && s'.worker.Idle? ==>
        var id := s.worker.job.deployment;
        || id !in s'.store || s'.store[id].status in {Running, Failed, Stopped}
        || (id in s'.early && Attended(s', id))
  {
    RunsSplit(INITIAL, steps, [Work(ok)]);
    var s := After(INITIAL, steps);
    OwnedAlongRuns(INITIAL, steps);
    StepThen(s, Work(ok), []);
    assert [Work(ok)] + [] == [Work(ok)];
    var s' := Apply(s, Work(ok));
    BoundedByStep(s, Work(ok));
    if s.worker.Busy? && s'.worker.Idle? && s.worker.job.deployment in s'.store {
      var id := s.worker.job.deployment;
      WorkHasEffect(s, ok);
      OwnersAfterWork(s, s');
      SettledStatuses(s'.store[id].status);
      assert IsOwned(s', id) && Owners(s', id) == Owners(s, id) - 1 && Owners(s, id) <= OwnerBound(s, id);
    }
  }

  function WorkOn(n: nat): (steps: seq<Step>) {
    if n == 0 then [] else [Work(true)] + WorkOn(n - 1)
  }

  /** A single deployment on its way through a rollback. */
  function Alone(job: Job, status: Status, copies: set<(Id, Record)>, worker: Worker): State {
    State(map[job.deployment := Record(job.app, status)], {}, {}, copies, [], worker, Serving, {job.deployment})
  }

  lemma WorkFirst(s: State, next: State, n: nat)
    requires s.worker.Busy? && WorkStep(s, true) == next && IsSafeRun(next, WorkOn(n))
    ensures IsSafeRun(s, WorkOn(n + 1)) && After(s, WorkOn(n + 1)) == After(next, WorkOn(n))
  {
    StepThen(s, Work(true), WorkOn(n));
  }

  lemma RollbackStarts(job: Job)
    requires job.rollback
    ensures
      var s, checked := Alone(job, Starting, {}, Busy(job, CheckRollout)), WorkOn(2);
      IsSafeRun(s, checked) && After(s, checked) == Alone(job, Starting, {}, Busy(job, Rollout({})))
  {
    var s1 := Alone(job, Starting, {}, Busy(job, ReadPrevious));
    var s2 := Alone(job, Starting, {}, Busy(job, Rollout({})));
    assert WorkStep(s1, true).worker.at.previous == {};
    WorkFirst(s1, s2, 0);
    WorkFirst(Alone(job, Starting, {}, Busy(job, CheckRollout)), s1, 1);
  }

  lemma RollbackReachesRollout(job: Job)
    requires job.rollback
    ensures
      var s := Alone(job, Pending, {}, Busy(job, Load));
      IsSafeRun(s, WorkOn(6)) && After(s, WorkOn(6)) == Alone(job, Starting, {}, Busy(job, Rollout({})))
  {
    var s1 := Alone(job, Pending, {}, Busy(job, CheckExecution));
    var s2 := Alone(job, Pending, {}, Busy(job, Prepare));
    var s3 := Alone(job, Pending, {}, Busy(job, WriteStarting));
    var s4 := Alone(job, Starting, {}, Busy(job, CheckRollout));
    RollbackStarts(job);
    assert s3.store[job.deployment := Record(job.app, Starting)] == s4.store;
    WorkFirst(s3, s4, 2);
    WorkFirst(s2, s3, 3);
    WorkFirst(s1, s2, 4);
    WorkFirst(Alone(job, Pending, {}, Busy(job, Load)), s1, 5);
  }

  lemma RolloutFinishes(job: Job, copies: set<(Id, Record)>)
    ensures
      var s := Alone(job, Starting, copies, Busy(job, Rollout({})));
      IsSafeRun(s, WorkOn(3)) && After(s, WorkOn(3)) == Alone(job, Running, copies, Idle)
  {
    var s1 := Alone(job, Starting, copies, Busy(job, WriteRunning({})));
    var s2 := Alone(job, Running, copies, Busy(job, Retire({})));
    var s3 := Alone(job, Running, copies, Idle);
    assert s1.store[job.deployment := Record(job.app, Running)] == s2.store;
    WorkFirst(s2, s3, 0);
    WorkFirst(s1, s2, 1);
    WorkFirst(Alone(job, Starting, copies, Busy(job, Rollout({}))), s1, 2);
  }

  /**
   A save that is not safe, from the start: a handler reads the deployment during its rollout and saves that copy
   after the job. The deployment is then in progress for good, in nobody's hands.
   */
  lemma StaleSaveStrands(job: Job) returns (steps: seq<Step>)
    requires job.rollback
    ensures IsRun(INITIAL, steps) && !SavesAreSafe(INITIAL, steps)
    ensures
      var s := After(INITIAL, steps);
      && s.queue == [] && s.worker.Idle? && s.creating == {} && s.server == Serving
      && InProgress(s, job.deployment) && Owners(s, job.deployment) == 0
  {
    var id, copy := job.deployment, Record(job.app, Starting);
    var start := [Create(id, job.app)] + ([Enqueue(job)] + [Receive]);
    var picked := Alone(job, Pending, {}, Busy(job, Load));
    PickedUp(job);
    RollbackReachesRollout(job);
    RunsSplit(INITIAL, start, WorkOn(6));
    var rolling := Alone(job, Starting, {}, Busy(job, Rollout({})));
    var copied := Alone(job, Starting, {(id, copy)}, Busy(job, Rollout({})));
    var done := Alone(job, Running, {(id, copy)}, Idle);
    RolloutFinishes(job, {(id, copy)});
    assert copied == Apply(rolling, Copy(id));
    StepThen(rolling, Copy(id), WorkOn(3));
    RunsSplit(INITIAL, start + WorkOn(6), [Copy(id)] + WorkOn(3));
    var before := start + WorkOn(6) + ([Copy(id)] + WorkOn(3));
    assert After(INITIAL, before) == done;
    var save := Save(id, copy, false);
    StepThen(done, save, []);
    assert [save] + [] == [save];
    RunsSplit(INITIAL, before, [save]);
    steps := before + [save];
    assert !IsSafeSave(done, save);
    assert !SavesAreSafe(done, [save]);
  }

  lemma PickedUp(job: Job)
    ensures
      var start := [Create(job.deployment, job.app)] + ([Enqueue(job)] + [Receive]);
      IsSafeRun(INITIAL, start) && After(INITIAL, start) == Alone(job, Pending, {}, Busy(job, Load))
  {
    var create := Create(job.deployment, job.app);
    var s1 := Apply(INITIAL, create);
    var s2 := Apply(s1, Enqueue(job));
    StepThen(s2, Receive, []);
    assert [Receive] + [] == [Receive];
    StepThen(s1, Enqueue(job), [Receive]);
    StepThen(INITIAL, create, [Enqueue(job)] + [Receive]);
    assert s2.queue == [job];
  }

  // ----- every job ends and the queue drains

  function Rank(s: State): nat
    requires s.worker.Busy?
  {
    match s.worker.at
    case WriteFailure(_) => 0
    case ReadFailure => 1
    case Retire(_) => 2
    case WriteRunning(_) => 3
    case Rollout(_) => 4
    case ReadPrevious => 5
    case CheckRollout => 6
    case WriteStarting => 7
    case CheckBuild => 8
    case Build => 9
    case WriteBuilding => 10
    case CheckCheckout => 11
    case Clone => 12
    case WriteCloning => 13
    case Prepare => 14
    case CheckExecution => 15
    case Load => 16
  }

  function ToRetire(s: State): nat
    requires s.worker.Busy?
  {
    if s.worker.at.Retire? then |s.worker.at.previous| else 0
  }

  /** Each access of the worker, failing or not, brings its job nearer to its end. */
  lemma WorkProgresses(s: State, ok: bool)
    requires s.worker.Busy?
    ensures
      var s' := WorkStep(s, ok);
      s'.worker.Idle? || Rank(s') < Rank(s) || (Rank(s') == Rank(s) && ToRetire(s') < ToRetire(s))
  {
    if s.worker.at.Retire? && s.worker.at.previous != {} {
      var previous' := WorkStep(s, true).worker.at.previous;
      assert previous' < s.worker.at.previous;
      SmallerSubset(previous', s.worker.at.previous);
    }
  }

  ghost predicate WorkerOnly(steps: seq<Step>) {
    forall step <- steps :: step == Receive || step == Work(true)
  }

  /** From any reachable state outside a restart, the worker on its own empties the queue. */
  lemma {:induction false} QueueDrains(s: State) returns (steps: seq<Step>)
    requires Owned(s)
    ensures IsSafeRun(s, steps) && WorkerOnly(steps)
    ensures
      var s' := After(s, steps);
      && s'.queue == [] && s'.worker.Idle? && s'.creating == s.creating && s'.server == s.server
      && (s.server == Serving ==> forall id :: InProgress(s', id) ==> id in s.creating)
    decreases |s.queue| + (if s.worker.Busy? then 1 else 0),
              if s.worker.Busy? then Rank(s) else 17, if s.worker.Busy? then ToRetire(s) else 0
  {
    if s.worker.Idle? && s.queue == [] {
      steps := [];
    } else {
      var step := if s.worker.Busy? then Work(true) else Receive;
      var next := Apply(s, step);
      BoundedByStep(s, step);
      if step == Work(true) {
        WorkProgresses(s, true);
        WorkHasEffect(s, true);
      }
      var rest := QueueDrains(next);
      StepThen(s, step, rest);
      steps := [step] + rest;
    }
    OwnedAlongRuns(s, steps);
    var s' := After(s, steps);
    forall id | s.server == Serving && InProgress(s', id) ensures id in s.creating {
      assert IsOwned(s', id);
    }
  }
}
