/** Runs of deployment jobs of an app, one after the other, with services added in between. */
module DeploymentRuns {
  import opened Wrappers
  import opened Model
  import opened Sequences
  import opened ContainerNames
  import opened RolloutPlan
  import opened DeploymentJobs
  import JobRecords

  /** A job and the services that handlers added since the one before. */
  datatype Turn = Turn(added: set<Id>, job: Job)

  function ServiceIds(spec: seq<Service>): set<Id> {
    set s <- spec :: s.id
  }

  /** The services in the store after a turn. */
  function ServicesAfter(services: set<Id>, turn: Turn, ok: bool): set<Id> {
    if ok && turn.job.rollback then ServiceIds(turn.job.services) else services + turn.added
  }

  // ----- the containers that a success leaves without a record

  /** A planned container of a service that the store does not know any more. */
  ghost predicate IsLeaked(app: string, job: Job, services: set<Id>, n: ContainerId) {
    exists service: Service, replica: nat ::
      && service in job.services && !service.cronJob && replica < service.replicas && service.id !in services
      && n == ContainerId(ContainerName(app, service.name, replica, ShortId(job.deployment.uuid)))
  }

  function Unrecorded(w: World, services: set<Id>): set<ContainerId> {
    set n <- w | w[n].service !in services
  }

  /** After a success exactly the leaked containers belong to services without a row. */
  lemma UnrecordedIsLeaked(plan: Plan, job: Job, deployments: Deployments, services: set<Id>, w: World, n: ContainerId)
    requires Finished(plan, job, deployments, services, w)
    ensures n in Unrecorded(w, services) <==> IsLeaked(plan.app, job, services, n)
  {
    if n in Unrecorded(w, services) {
      var service, replica :| Planned(plan, service, replica)
        && n == NewName(plan, service, replica) && w[n] == NewContainer(service, replica);
      JobRecords.PlannedOfSpec(plan, job, service, replica);
    }
    if IsLeaked(plan.app, job, services, n) {
      var service: Service, replica: nat :|
        && service in job.services && !service.cronJob && replica < service.replicas && service.id !in services
        && n == ContainerId(ContainerName(plan.app, service.name, replica, ShortId(job.deployment.uuid)));
      JobRecords.PlannedOfSpec(plan, job, service, replica);
      assert n == NewName(plan, service, replica);
    }
  }

  lemma ExistingIsStored(plan: Plan, services: set<Id>, w: World, n: ContainerId)
    requires OnlyPlanned(plan, w) && n in w && w[n].service in services
    ensures RecordsSlot(StoredRecords(plan, services), SlotOf(w[n]), n)
  {
    var service, replica :| Planned(plan, service, replica)
      && n == NewName(plan, service, replica) && w[n] == NewContainer(service, replica);
    StoredExactly(plan, services, (service.id, replica), n);
  }

  lemma StoredIsExisting(plan: Plan, services: set<Id>, w: World, n: ContainerId)
    requires OnlyPlanned(plan, w) && n in RecordedIds(StoredRecords(plan, services))
    ensures n in w && w[n].service in services
  {
    var records := StoredRecords(plan, services);
    var sd :| sd in records && sd.containerId == Some(n);
    assert RecordsSlot(records, SlotOfRecord(sd), n);
    StoredExactly(plan, services, SlotOfRecord(sd), n);
  }

  /** Apart from those, the records account for everything that lives, and for nothing else. */
  lemma RestIsRecorded(plan: Plan, job: Job, deployments: Deployments, services: set<Id>, w: World)
    requires Finished(plan, job, deployments, services, w)
    ensures
      var rest := w - Unrecorded(w, services);
      rest.Keys == RecordedIds(deployments[job.deployment].records) && Settled(plan.app, deployments, rest)
  {
    var rest, records := w - Unrecorded(w, services), StoredRecords(plan, services);
    forall n <- rest ensures n in RecordedIds(records) && RecordsSlot(records, SlotOf(rest[n]), n) {
      ExistingIsStored(plan, services, w, n);
      var sd :| sd in records && SlotOfRecord(sd) == SlotOf(rest[n]) && sd.containerId == Some(n);
    }
    forall n <- RecordedIds(records) ensures n in rest {
      StoredIsExisting(plan, services, w, n);
    }
    StoredIsWellRecorded(plan, job.deployment, services);
  }

  // ----- strays between jobs

  /** Every stray container was printed for a deployment whose job has ended. */
  ghost predicate StraysKnown(app: string, past: set<DeploymentId>, strays: World) {
    forall n <- strays :: exists d <- past, service: string, replica: nat ::
      n == ContainerId(ContainerName(app, service, replica, ShortId(d.uuid)))
  }

  ghost predicate ShortIdIsNew(past: set<DeploymentId>, id: DeploymentId) {
    forall d <- past :: ShortId(d.uuid) != ShortId(id.uuid)
  }

  lemma StraysStayApart(app: string, past: set<DeploymentId>, deployments: Deployments, id: DeploymentId, strays: World)
    requires StraysKnown(app, past, strays) && ShortIdIsNew(past, id) && RecordsApart(deployments, strays)
    ensures StraysApart(app, deployments, id, strays)
  {
    forall service: string, replica: nat
      ensures ContainerId(ContainerName(app, service, replica, ShortId(id.uuid))) !in strays
    {
      var n := ContainerId(ContainerName(app, service, replica, ShortId(id.uuid)));
      if n in strays {
        var d, service': string, replica': nat :| d in past
          && n == ContainerId(ContainerName(app, service', replica', ShortId(d.uuid)));
        PrintingInjective(app, service, replica, ShortId(id.uuid), service', replica', ShortId(d.uuid));
      }
    }
  }

  lemma MoreStraysKnown(app: string, past: set<DeploymentId>, job: Job, services: set<Id>,
                        strays: World, strays': World)
    requires StraysKnown(app, past, strays)
    requires forall n <- strays' :: n in strays || IsLeaked(app, job, services, n)
    ensures StraysKnown(app, past + {job.deployment}, strays')
  {
    forall n <- strays'
      ensures exists d <- past + {job.deployment}, service: string, replica: nat ::
                n == ContainerId(ContainerName(app, service, replica, ShortId(d.uuid)))
    {
      if n in strays {
        var d, service: string, replica: nat :| d in past
          && n == ContainerId(ContainerName(app, service, replica, ShortId(d.uuid)));
        assert d in past + {job.deployment};
      } else {
        var service: Service, replica: nat :| service in job.services
          && n == ContainerId(ContainerName(app, service.name, replica, ShortId(job.deployment.uuid)));
        assert job.deployment in past + {job.deployment};
      }
    }
  }

  // ----- host ports

  /** `owner` names the one service each host port belongs to. */
  ghost predicate SpecPortsOwned(owner: map<nat, Id>, spec: seq<Service>) {
    forall s, p :: s in spec && p in s.hostPorts ==> p in owner && owner[p] == s.id
  }

  ghost predicate LivePortsOwned(owner: map<nat, Id>, w: World) {
    forall n, p :: n in w && p in w[n].ports ==> p in owner && owner[p] == w[n].service && w[n].replica == 0
  }

  lemma OwnedPortsAgree(owner: map<nat, Id>, w: World, spec: seq<Service>)
    requires PortsExclusive(w) && LivePortsOwned(owner, w) && SpecPortsOwned(owner, spec) && DistinctIds(spec)
    ensures PortsAgree(w, spec)
  {
    forall n <- w | w[n].ports != {} ensures w[n].replica == 0 {
      var p :| p in w[n].ports;
      assert owner[p] == w[n].service;
    }
    forall n <- w, s <- spec ensures w[n].ports !! s.hostPorts || w[n].service == s.id {
      if p :| p in w[n].ports && p in s.hostPorts {
        assert owner[p] == s.id;
      }
    }
    forall s <- spec, t <- spec ensures s.hostPorts !! t.hostPorts || s == t {
      if p :| p in s.hostPorts && p in t.hostPorts {
        var i :| 0 <= i < |spec| && spec[i] == s;
        var j :| 0 <= j < |spec| && spec[j] == t;
        assert s.id == owner[p] == t.id;
      }
    }
  }

  lemma PortsStayOwned(owner: map<nat, Id>, job: Job, before: World, w: World)
    requires LivePortsOwned(owner, before) && SpecPortsOwned(owner, job.services)
    requires forall n <- w :: (n in before && w[n] == before[n])
               || exists s <- job.services :: w[n] == NewContainer(s, w[n].replica)
    ensures LivePortsOwned(owner, w)
  {
    forall n, p | n in w && p in w[n].ports
      ensures p in owner && owner[p] == w[n].service && w[n].replica == 0
    {
      if !(n in before && w[n] == before[n]) {
        var s :| s in job.services && w[n] == NewContainer(s, w[n].replica);
        assert p in s.hostPorts;
      }
    }
  }

  lemma GuaranteesKeepPorts(owner: map<nat, Id>, job: Job, before: World, trace0: seq<World>, trace: seq<World>,
                            w: World, ok: bool)
    requires PortsExclusive(before) && LivePortsOwned(owner, before) && SpecPortsOwned(owner, job.services)
    requires DistinctIds(job.services) && JobGuarantees(job, before, trace, |trace0|, w, ok)
    requires trace0 != [] && trace0 <= trace && trace0[|trace0| - 1] == before && trace[|trace| - 1] == w
    ensures ExclusiveFrom(trace, |trace0|) && PortsExclusive(w) && LivePortsOwned(owner, w)
  {
    OwnedPortsAgree(owner, before, job.services);
    PortsStayOwned(owner, job, before, w);
    assert |trace| > |trace0| || trace == trace0;
  }

  // ----- what holds of each job of a run

  /**
   How a turn ended: whether its job succeeded, its states `trace[from..to]`, and what it left: the accounted
   containers `trace[to]`, the strays, and the store.
   */
  datatype Outcome = Outcome(ok: bool, from: nat, to: nat, deployments: Deployments, services: set<Id>, strays: World)

  /** The accounts after a job: what the records of the one running deployment account for, and what has leaked. */
  ghost predicate AccountsHold(app: string, job: Job, w: World, rest: World, strays: World, out: Outcome) {
    && Settled(app, out.deployments, rest)
    && (out.ok ==> IsRunning(out.deployments, job.deployment)
                   && rest.Keys == RecordedIds(out.deployments[job.deployment].records))
    && (forall n :: n in rest <==> n in w && !(out.ok && IsLeaked(app, job, out.services, n)))
    && (forall n :: n in out.strays <==> n in strays || (out.ok && IsLeaked(app, job, out.services, n)))
  }

  ghost predicate Held(app: string, turn: Turn, services: set<Id>, strays: World, trace: seq<World>, out: Outcome) {
    && 0 < out.from <= out.to < |trace|
    && JobGuarantees(turn.job, trace[out.from - 1], trace[..out.to], out.from, trace[out.to - 1], out.ok)
    && AccountsHold(app, turn.job, trace[out.to - 1], trace[out.to], strays, out)
    && out.services == ServicesAfter(services, turn, out.ok)
  }

  lemma SameGuarantees(job: Job, before: World, done: seq<World>, from: nat, w: World, ok: bool,
                       before': World, done': seq<World>, w': World)
    requires JobGuarantees(job, before, done, from, w, ok) && before' == before && done' == done && w' == w
    ensures JobGuarantees(job, before', done', from, w', ok)
  {
  }

  lemma TurnHeld(app: string, turn: Turn, services: set<Id>, strays: World, trace0: seq<World>, done: seq<World>,
                 trace: seq<World>, before: World, w: World, rest: World, out: Outcome)
    requires trace0 != [] && trace0 <= done && trace0[|trace0| - 1] == before && done[|done| - 1] == w
    requires trace == done + [rest] && out.from == |trace0| && out.to == |done|
    requires JobGuarantees(turn.job, before, done, |trace0|, w, out.ok)
    requires AccountsHold(app, turn.job, w, rest, strays, out)
    requires out.services == ServicesAfter(services, turn, out.ok)
    ensures Held(app, turn, services, strays, trace, out)
  {
    assert trace[..out.to] == done && trace[out.from - 1] == before;
    assert trace[out.to - 1] == w && trace[out.to] == rest;
    SameGuarantees(turn.job, before, done, |trace0|, w, out.ok,
                   trace[out.from - 1], trace[..out.to], trace[out.to - 1]);
  }

  /** Where a run starts. */
  datatype Start = Start(services: set<Id>, strays: World)

  function ServicesBefore(start: Start, outcomes: seq<Outcome>): set<Id> {
    if outcomes == [] then start.services else outcomes[|outcomes| - 1].services
  }

  function StraysBefore(start: Start, outcomes: seq<Outcome>): World {
    if outcomes == [] then start.strays else outcomes[|outcomes| - 1].strays
  }

  /** Turn `i` held, from where the one before ended. */
  ghost predicate HeldAt(app: string, start: Start, turns: seq<Turn>, trace: seq<World>, outcomes: seq<Outcome>, i: nat)
    requires i < |outcomes| <= |turns|
  {
    && Held(app, turns[i], ServicesBefore(start, outcomes[..i]), StraysBefore(start, outcomes[..i]), trace, outcomes[i])
    && (i > 0 ==> outcomes[i].from == outcomes[i - 1].to + 1)
  }

  /** All turns of the outcomes held. */
  ghost predicate AllHeld(app: string, start: Start, turns: seq<Turn>, trace: seq<World>, outcomes: seq<Outcome>) {
    && |outcomes| <= |turns|
    && (outcomes != [] ==>
          && AllHeld(app, start, turns, trace, outcomes[..|outcomes| - 1])
          && HeldAt(app, start, turns, trace, outcomes, |outcomes| - 1))
  }

  lemma HeldAtLonger(app: string, start: Start, turns: seq<Turn>, trace: seq<World>, outcomes: seq<Outcome>, n: nat,
                     i: nat)
    requires i < n <= |outcomes| <= |turns| && HeldAt(app, start, turns, trace, outcomes[..n], i)
    ensures HeldAt(app, start, turns, trace, outcomes, i)
  {
    assert outcomes[..n][..i] == outcomes[..i];
  }

  lemma LastOfAllHeld(app: string, start: Start, turns: seq<Turn>, trace: seq<World>, outcomes: seq<Outcome>)
    requires AllHeld(app, start, turns, trace, outcomes) && outcomes != []
    ensures AllHeld(app, start, turns, trace, outcomes[..|outcomes| - 1])
    ensures HeldAt(app, start, turns, trace, outcomes, |outcomes| - 1)
  {
  }

  lemma {:induction false} EachHeldBefore(app: string, start: Start, turns: seq<Turn>, trace: seq<World>,
                                          outcomes: seq<Outcome>, n: nat, i: nat)
    requires i < n <= |outcomes| <= |turns| && AllHeld(app, start, turns, trace, outcomes[..n])
    ensures HeldAt(app, start, turns, trace, outcomes, i)
    decreases n
  {
    LastOfAllHeld(app, start, turns, trace, outcomes[..n]);
    if i < n - 1 {
      assert outcomes[..n][..n - 1] == outcomes[..n - 1];
      EachHeldBefore(app, start, turns, trace, outcomes, n - 1, i);
    } else {
      HeldAtLonger(app, start, turns, trace, outcomes, n, i);
    }
  }

  /** Every turn of a run held, from where the one before ended. */
  lemma EachHeld(app: string, start: Start, turns: seq<Turn>, trace: seq<World>, outcomes: seq<Outcome>, i: nat)
    requires AllHeld(app, start, turns, trace, outcomes) && i < |outcomes|
    ensures HeldAt(app, start, turns, trace, outcomes, i)
  {
    TakeAll(outcomes);
    EachHeldBefore(app, start, turns, trace, outcomes, |outcomes|, i);
  }

  lemma HeldLater(app: string, turn: Turn, services: set<Id>, strays: World, trace0: seq<World>, trace: seq<World>,
                  out: Outcome)
    requires Held(app, turn, services, strays, trace0, out) && trace0 <= trace
    ensures Held(app, turn, services, strays, trace, out)
  {
    assert trace[..out.to] == trace0[..out.to];
    assert trace[out.from - 1] == trace0[out.from - 1] && trace[out.to - 1] == trace0[out.to - 1];
  }

  lemma {:induction false} AllHeldLater(app: string, start: Start, turns: seq<Turn>, trace0: seq<World>,
                                        trace: seq<World>, outcomes: seq<Outcome>)
    requires AllHeld(app, start, turns, trace0, outcomes) && trace0 <= trace
    ensures AllHeld(app, start, turns, trace, outcomes)
  {
    if outcomes != [] {
      var n := |outcomes| - 1;
      AllHeldLater(app, start, turns, trace0, trace, outcomes[..n]);
      HeldLater(app, turns[n], ServicesBefore(start, outcomes[..n]), StraysBefore(start, outcomes[..n]),
                trace0, trace, outcomes[n]);
    }
  }

  /** The run ends where its last turn does. */
  ghost predicate EndsAt(start: Start, outcomes: seq<Outcome>, trace: seq<World>, services: set<Id>, strays: World) {
    && ServicesBefore(start, outcomes) == services && StraysBefore(start, outcomes) == strays
    && (outcomes != [] ==> outcomes[|outcomes| - 1].to + 1 == |trace|)
  }

  lemma HeldLast(app: string, start: Start, turns: seq<Turn>, trace0: seq<World>, trace: seq<World>,
                 outcomes: seq<Outcome>, services: set<Id>, strays: World, out: Outcome)
    requires |outcomes| < |turns| && EndsAt(start, outcomes, trace0, services, strays)
    requires Held(app, turns[|outcomes|], services, strays, trace, out) && out.from == |trace0|
    ensures HeldAt(app, start, turns, trace, outcomes + [out], |outcomes|)
  {
    assert (outcomes + [out])[..|outcomes|] == outcomes;
  }

  lemma HeldNext(app: string, start: Start, turns: seq<Turn>, trace0: seq<World>, trace: seq<World>,
                 outcomes: seq<Outcome>, services: set<Id>, strays: World, out: Outcome)
    requires |outcomes| < |turns| && AllHeld(app, start, turns, trace0, outcomes) && trace0 <= trace
    requires EndsAt(start, outcomes, trace0, services, strays)
    requires Held(app, turns[|outcomes|], services, strays, trace, out)
    requires out.from == |trace0| && out.to + 1 == |trace|
    ensures AllHeld(app, start, turns, trace, outcomes + [out])
    ensures EndsAt(start, outcomes + [out], trace, out.services, out.strays)
  {
    var all := outcomes + [out];
    AllHeldLater(app, start, turns, trace0, trace, outcomes);
    HeldLast(app, start, turns, trace0, trace, outcomes, services, strays, out);
    assert all[..|all| - 1] == outcomes && |all| - 1 == |outcomes|;
  }

  // ----- the jobs still to run

  /** Their deployments are new, with short ids of their own. */
  ghost predicate FreshTurns(deployments: Deployments, past: set<DeploymentId>, turns: seq<Turn>) {
    && (forall t <- turns :: FreshDeployment(deployments, t.job.deployment) && DistinctIds(t.job.services)
                             && ShortIdIsNew(past, t.job.deployment))
    && (forall i, j :: 0 <= i < j < |turns| ==>
          ShortId(turns[i].job.deployment.uuid) != ShortId(turns[j].job.deployment.uuid))
  }

  lemma TurnsStayFresh(before: Deployments, after: Deployments, past: set<DeploymentId>, turns: seq<Turn>, ok: bool)
    requires turns != [] && FreshTurns(before, past, turns)
    requires !ok ==> SameRunning(before, after)
    requires ok ==> forall d :: IsRunning(after, d) ==> d == turns[0].job.deployment
    ensures FreshTurns(after, past + {turns[0].job.deployment}, turns[1..])
  {
    forall t <- turns[1..]
      ensures FreshDeployment(after, t.job.deployment) && DistinctIds(t.job.services)
      ensures ShortIdIsNew(past + {turns[0].job.deployment}, t.job.deployment)
    {
      var k :| 0 <= k < |turns[1..]| && turns[1..][k] == t;
      assert turns[k + 1] == t && t in turns;
    }
  }

  ghost predicate IsPart(rest: World, w: World) {
    forall n <- rest :: n in w && rest[n] == w[n]
  }

  /** State `to` has only containers of the state before it. */
  ghost predicate OnlyFewer(trace: seq<World>, to: nat) {
    0 < to < |trace| && IsPart(trace[to], trace[to - 1])
  }

  lemma FewerKeepPorts(owner: map<nat, Id>, w: World, rest: World)
    requires PortsExclusive(w) && LivePortsOwned(owner, w) && IsPart(rest, w)
    ensures PortsExclusive(rest) && LivePortsOwned(owner, rest)
  {
  }

  lemma ExclusiveWithLast(trace0: seq<World>, done: seq<World>, trace: seq<World>)
    requires ExclusiveFrom(done, |trace0|) && done < trace && |trace| == |done| + 1 && PortsExclusive(trace[|done|])
    ensures ExclusiveFrom(trace, |trace0|)
  {
    assert forall i :: |trace0| <= i < |done| ==> trace[i] == done[i];
  }

  /** What a turn means for host ports, when each belongs to one service. */
  lemma HeldKeepsPorts(app: string, owner: map<nat, Id>, turn: Turn, services: set<Id>, strays: World,
                       trace0: seq<World>, trace: seq<World>, out: Outcome)
    requires trace0 != [] && trace0 <= trace && out.from == |trace0| && out.to + 1 == |trace|
    requires Held(app, turn, services, strays, trace, out) && DistinctIds(turn.job.services)
    requires OnlyFewer(trace, out.to)
    requires SpecPortsOwned(owner, turn.job.services)
    requires PortsExclusive(trace0[|trace0| - 1]) && LivePortsOwned(owner, trace0[|trace0| - 1])
    ensures ExclusiveFrom(trace, |trace0|) && LivePortsOwned(owner, trace[out.to])
  {
    var done := trace[..out.to];
    GuaranteesKeepPorts(owner, turn.job, trace0[|trace0| - 1], trace0, done, trace[out.to - 1], out.ok);
    FewerKeepPorts(owner, trace[out.to - 1], trace[out.to]);
    ExclusiveWithLast(trace0, done, trace);
  }

  // ----- the worker's loop

  lemma SettledStays(app: string, before: Deployments, after: Deployments, strays: World)
    requires SameRunning(before, after) && RecordsApart(before, strays)
    ensures RecordsApart(after, strays)
  {
  }

  lemma FinishedRecordsApart(plan: Plan, job: Job, deployments: Deployments, services: set<Id>, w: World,
                             strays: World, strays': World)
    requires Finished(plan, job, deployments, services, w)
    requires forall service: string, replica: nat ::
               ContainerId(ContainerName(plan.app, service, replica, ShortId(job.deployment.uuid))) !in strays
    requires strays'.Keys <= strays.Keys + Unrecorded(w, services)
    ensures RecordsApart(deployments, strays')
  {
    forall d, slot, name | IsRunning(deployments, d) && RecordsSlot(deployments[d].records, slot, name)
      ensures name !in strays'
    {
      StoredExactly(plan, services, slot, name);
      var sd :| sd in deployments[d].records && SlotOfRecord(sd) == slot && sd.containerId == Some(name);
      StoredIsExisting(plan, services, w, name);
    }
  }

  /** After a success the accounts hold once the containers without a record are taken out of them. */
  lemma StockTaken(plan: Plan, job: Job, w: World, rest: World, strays: World, out: Outcome)
    requires out.ok && Finished(plan, job, out.deployments, out.services, w)
    requires forall service: string, replica: nat ::
               ContainerId(ContainerName(plan.app, service, replica, ShortId(job.deployment.uuid))) !in strays
    requires rest == w - Unrecorded(w, out.services)
    requires out.strays.Keys == strays.Keys + Unrecorded(w, out.services)
    ensures AccountsHold(plan.app, job, w, rest, strays, out) && RecordsApart(out.deployments, out.strays)
  {
    RestIsRecorded(plan, job, out.deployments, out.services, w);
    forall n ensures n in Unrecorded(w, out.services) <==> IsLeaked(plan.app, job, out.services, n) {
      UnrecordedIsLeaked(plan, job, out.deployments, out.services, w, n);
    }
    FinishedRecordsApart(plan, job, out.deployments, out.services, w, strays, out.strays);
  }

  /** Nor do they change when a job fails. */
  lemma StockKept(app: string, job: Job, w: World, strays: World, out: Outcome)
    requires !out.ok && Settled(app, out.deployments, w) && out.strays == strays
    ensures AccountsHold(app, job, w, w, strays, out)
  {
  }

  lemma StockIsKnown(app: string, past: set<DeploymentId>, job: Job, w: World, rest: World, strays: World, out: Outcome)
    requires StraysKnown(app, past, strays) && AccountsHold(app, job, w, rest, strays, out)
    ensures StraysKnown(app, past + {job.deployment}, out.strays)
  {
    MoreStraysKnown(app, past, job, out.services, strays, out.strays);
  }

  class WorkerLoop {
    const worker: DeploymentWorker
    ghost var past: set<DeploymentId>  // whose jobs have ended

    constructor (worker: DeploymentWorker)
      requires worker.Valid() && worker.docker.strays == map[]
      ensures Valid() && this.worker == worker && past == {}
    {
      this.worker, past := worker, {};
    }

    /** The records account for all containers but the strays, which no job will touch again. */
    ghost predicate Valid()
      reads this, worker, worker.docker
    {
      && worker.Valid() && StraysKnown(worker.app, past, worker.docker.strays)
      && RecordsApart(worker.deployments, worker.docker.strays)
    }

    ghost predicate ReadyFor(turns: seq<Turn>, owner: map<nat, Id>)
      reads this, worker, worker.docker
    {
      && Valid() && FreshTurns(worker.deployments, past, turns)
      && PortsExclusive(worker.docker.containers) && LivePortsOwned(owner, worker.docker.containers)
      && forall t <- turns :: SpecPortsOwned(owner, t.job.services)
    }

    /** Takes the containers of services that are gone out of the account of a job that succeeded. */
    method TakeStock(job: Job, ok: bool, ghost plan: Plan, ghost strays: World, ghost from: nat)
      returns (ghost out: Outcome)
      requires worker.docker.Valid() && worker.docker.strays == strays && worker.docker.trace != []
      requires !ok ==> worker.Valid() && RecordsApart(worker.deployments, strays)
      requires ok ==> plan.app == worker.app
                      && Finished(plan, job, worker.deployments, worker.services, worker.docker.containers)
      requires StraysKnown(worker.app, past, strays)
      requires forall service: string, replica: nat ::
                 ContainerId(ContainerName(worker.app, service, replica, ShortId(job.deployment.uuid))) !in strays
      modifies this, worker.docker
      ensures Valid() && past == old(past) + {job.deployment}
      ensures worker.docker.trace == old(worker.docker.trace) + [worker.docker.containers]
      ensures IsPart(worker.docker.containers, old(worker.docker.containers))
      ensures out.ok == ok && out.deployments == worker.deployments && out.services == worker.services
      ensures out.strays == worker.docker.strays && out.from == from && out.to == |old(worker.docker.trace)|
      ensures AccountsHold(worker.app, job, old(worker.docker.containers), worker.docker.containers, strays, out)
    {
      ghost var w := worker.docker.containers;
      var gone := if ok then Unrecorded(worker.docker.containers, worker.services) else {};
      ghost var to := |worker.docker.trace|;
      worker.docker.Abandon(gone);
      out := Outcome(ok, from, to, worker.deployments, worker.services, worker.docker.strays);
      if ok {
        StockTaken(plan, job, w, worker.docker.containers, strays, out);
      } else {
        StockKept(worker.app, job, w, strays, out);
      }
      StockIsKnown(worker.app, past, job, w, worker.docker.containers, strays, out);
      past := past + {job.deployment};
    }

    /** Handlers add services, then the worker takes a job. */
    method ProcessTurn(turn: Turn) returns (ok: bool, ghost plan: Plan)
      requires Valid() && FreshDeployment(worker.deployments, turn.job.deployment) && DistinctIds(turn.job.services)
      requires StraysApart(worker.app, worker.deployments, turn.job.deployment, worker.docker.strays)
      modifies worker, worker.docker
      ensures worker.docker.Valid() && worker.docker.strays == old(worker.docker.strays)
      ensures old(worker.docker.trace) <= worker.docker.trace
      ensures JobGuarantees(turn.job, old(worker.docker.containers), worker.docker.trace, |old(worker.docker.trace)|,
                            worker.docker.containers, ok)
      ensures worker.services == ServicesAfter(old(worker.services), turn, ok)
      ensures !ok ==> worker.Valid() && SameRunning(old(worker.deployments), worker.deployments)
      ensures !ok ==> RecordsApart(worker.deployments, worker.docker.strays)
      ensures ok ==> plan.app == worker.app
                     && Finished(plan, turn.job, worker.deployments, worker.services, worker.docker.containers)
      ensures ok ==> forall d :: IsRunning(worker.deployments, d) ==> d == turn.job.deployment
    {
      worker.AddServices(turn.added);
      ok, plan := worker.ProcessJob(turn.job);
      if !ok {
        SettledStays(worker.app, old(worker.deployments), worker.deployments, worker.docker.strays);
      }
    }

    /** One turn of the worker's loop. */
    method TakeTurn(turn: Turn) returns (ghost out: Outcome)
      requires Valid() && FreshDeployment(worker.deployments, turn.job.deployment) && DistinctIds(turn.job.services)
      requires ShortIdIsNew(past, turn.job.deployment)
      modifies this, worker, worker.docker
      ensures Valid() && past == old(past) + {turn.job.deployment}
      ensures old(worker.docker.trace) <= worker.docker.trace
      ensures out.from == |old(worker.docker.trace)| && out.to + 1 == |worker.docker.trace|
      ensures out.services == worker.services && out.strays == worker.docker.strays
      ensures Held(worker.app, turn, old(worker.services), old(worker.docker.strays), worker.docker.trace, out)
      ensures OnlyFewer(worker.docker.trace, out.to)
      ensures !out.ok ==> SameRunning(old(worker.deployments), worker.deployments)
      ensures out.ok ==> forall d :: IsRunning(worker.deployments, d) ==> d == turn.job.deployment
    {
      ghost var strays, trace0, services := worker.docker.strays, worker.docker.trace, worker.services;
      ghost var before := worker.docker.containers;
      StraysStayApart(worker.app, past, worker.deployments, turn.job.deployment, strays);
      var ok: bool;
      ghost var plan: Plan;
      ok, plan := ProcessTurn(turn);
      ghost var done, w := worker.docker.trace, worker.docker.containers;
      out := TakeStock(turn.job, ok, plan, strays, |trace0|);
      TurnHeld(worker.app, turn, services, strays, trace0, done, worker.docker.trace,
               before, w, worker.docker.containers, out);
    }

    method RunTurn(turns: seq<Turn>, ghost owner: map<nat, Id>) returns (ghost out: Outcome)
      requires turns != [] && ReadyFor(turns, owner)
      modifies this, worker, worker.docker
      ensures ReadyFor(turns[1..], owner)
      ensures old(worker.docker.trace) <= worker.docker.trace
      ensures ExclusiveFrom(worker.docker.trace, |old(worker.docker.trace)|)
      ensures out.from == |old(worker.docker.trace)| && out.to + 1 == |worker.docker.trace|
      ensures out.services == worker.services && out.strays == worker.docker.strays
      ensures Held(worker.app, turns[0], old(worker.services), old(worker.docker.strays), worker.docker.trace, out)
    {
      var turn := turns[0];
      assert turn in turns;
      ghost var trace0, services, strays := worker.docker.trace, worker.services, worker.docker.strays;
      ghost var before, past0 := worker.deployments, past;
      out := TakeTurn(turn);
      HeldKeepsPorts(worker.app, owner, turn, services, strays, trace0, worker.docker.trace, out);
      TurnsStayFresh(before, worker.deployments, past0, turns, out.ok);
      assert forall t <- turns[1..] :: t in turns;
    }

    /**
     Runs every queued job, whatever fails on the way and whatever services are added, rolled back or missing: at most
     one deployment runs, and what lives is what its records account for and the strays, which grow exactly by what
     each success leaves of services without a row.
     */
    method Run(turns: seq<Turn>, ghost owner: map<nat, Id>) returns (ghost outcomes: seq<Outcome>)
      requires ReadyFor(turns, owner)
      modifies this, worker, worker.docker
      ensures Valid() && old(worker.docker.trace) <= worker.docker.trace
      ensures ExclusiveFrom(worker.docker.trace, |old(worker.docker.trace)|)
      ensures |outcomes| == |turns|
      ensures
        var start := Start(old(worker.services), old(worker.docker.strays));
        && AllHeld(worker.app, start, turns, worker.docker.trace, outcomes)
        && EndsAt(start, outcomes, worker.docker.trace, worker.services, worker.docker.strays)
    {
      ghost var start := Start(worker.services, worker.docker.strays);
      outcomes := [];
      assert turns[0..] == turns;
      for i := 0 to |turns|
        invariant |outcomes| == i && ReadyFor(turns[i..], owner)
        invariant old(worker.docker.trace) <= worker.docker.trace
        invariant ExclusiveFrom(worker.docker.trace, |old(worker.docker.trace)|)
        invariant AllHeld(worker.app, start, turns, worker.docker.trace, outcomes)
        invariant EndsAt(start, outcomes, worker.docker.trace, worker.services, worker.docker.strays)
      {
        ghost var trace0, services, strays := worker.docker.trace, worker.services, worker.docker.strays;
        ghost var out := RunTurn(turns[i..], owner);
        assert turns[i..][0] == turns[i] && turns[i..][1..] == turns[i + 1..];
        HeldNext(worker.app, start, turns, trace0, worker.docker.trace, outcomes, services, strays, out);
        outcomes := outcomes + [out];
      }
    }
  }
}
