/** Whole jobs of an app: which deployment runs, and which containers it accounts for. */
module DeploymentJobs {
  import opened Wrappers
  import opened Model
  import opened Sequences
  import opened ContainerNames
  import opened RolloutPlan
  import opened Rollout
  import Graphs
  import TopologicalSort

  datatype DeploymentId = DeploymentId(uuid: Uuid)

  datatype Deployment = Deployment(status: Status, records: seq<ServiceDeployment>)

  type Deployments = map<DeploymentId, Deployment>

  /** `services` is the spec to run: the queued snapshot, or the source's for a rollback. */
  datatype Job = Job(deployment: DeploymentId, services: seq<Service>, images: set<Id>, rollback: bool,
                     strategy: RolloutStrategy)

  predicate IsRunning(deployments: Deployments, id: DeploymentId) {
    id in deployments && deployments[id].status == Running
  }

  function RecordsOf(deployments: Deployments, id: DeploymentId): seq<ServiceDeployment> {
    if id in deployments then deployments[id].records else []
  }

  ghost function RecordsOfAll(deployments: Deployments, ids: seq<DeploymentId>): seq<ServiceDeployment> {
    FlatMap(d => RecordsOf(deployments, d), ids)
  }

  function SlotOfRecord(sd: ServiceDeployment): Slot {
    (sd.serviceId, sd.replica)
  }

  ghost predicate RecordsSlot(records: seq<ServiceDeployment>, slot: Slot, name: ContainerId) {
    exists sd <- records :: SlotOfRecord(sd) == slot && sd.containerId == Some(name)
  }

  function RecordedIds(records: seq<ServiceDeployment>): set<ContainerId> {
    set sd <- records | sd.containerId.Some? :: sd.containerId.value
  }

  /** Recorded containers carry the deployment's own names, one name per slot and one slot per name. */
  ghost predicate WellRecorded(app: string, id: DeploymentId, records: seq<ServiceDeployment>) {
    && (forall slot, name :: RecordsSlot(records, slot, name) ==>
          exists service: string :: name == ContainerId(ContainerName(app, service, slot.1, ShortId(id.uuid))))
    && (forall slot, slot', name, name' :: RecordsSlot(records, slot, name) && RecordsSlot(records, slot', name') ==>
          (slot == slot' <==> name == name'))
  }

  ghost predicate AtMostOneRunning(deployments: Deployments) {
    forall d, e :: IsRunning(deployments, d) && IsRunning(deployments, e) ==> d == e
  }

  /** Every live container is recorded, for its own slot, by a running deployment. */
  ghost predicate LiveRecorded(deployments: Deployments, w: World) {
    forall n <- w :: exists d <- deployments ::
      IsRunning(deployments, d) && RecordsSlot(deployments[d].records, SlotOf(w[n]), n)
  }

  /** What holds between the jobs of an app. */
  ghost predicate Settled(app: string, deployments: Deployments, w: World) {
    && AtMostOneRunning(deployments)
    && (forall d :: IsRunning(deployments, d) ==> WellRecorded(app, d, deployments[d].records))
    && LiveRecorded(deployments, w)
  }

  // ----- the old containers

  /** The record at `i` is the first one of its slot that names a container. */
  ghost predicate IsFirstOfSlot(records: seq<ServiceDeployment>, i: nat) {
    && i < |records| && records[i].containerId.Some?
    && forall j :: 0 <= j < i && records[j].containerId.Some? ==> SlotOfRecord(records[j]) != SlotOfRecord(records[i])
  }

  /** The first container recorded for each slot, and all recorded containers. */
  method CollectOldContainers(records: seq<ServiceDeployment>)
    returns (first: map<Slot, ContainerId>, all: set<ContainerId>)
    ensures forall i :: 0 <= i < |records| && IsFirstOfSlot(records, i) ==>
              SlotOfRecord(records[i]) in first && first[SlotOfRecord(records[i])] == records[i].containerId.value
    ensures forall slot <- first :: RecordsSlot(records, slot, first[slot])
    ensures forall slot, name :: RecordsSlot(records, slot, name) ==> slot in first
    ensures all == RecordedIds(records)
  {
    first, all := map[], {};
    for i := 0 to |records|
      invariant forall slot <- first :: exists j ::
                  && 0 <= j < i
                  && SlotOfRecord(records[j]) == slot && records[j].containerId == Some(first[slot])
      invariant forall sd <- records[..i] :: sd.containerId.Some? ==> SlotOfRecord(sd) in first
      invariant forall j :: 0 <= j < i && IsFirstOfSlot(records, j) ==>
                  SlotOfRecord(records[j]) in first && first[SlotOfRecord(records[j])] == records[j].containerId.value
      invariant all == RecordedIds(records[..i])
    {
      var sd := records[i];
      TakeNext(records, i);
      if sd.containerId.Some? {
        all := all + {sd.containerId.value};
        if SlotOfRecord(sd) !in first {
          first := first[SlotOfRecord(sd) := sd.containerId.value];
        }
      }
    }
    TakeAll(records);
  }

  lemma SettledFits(app: string, deployments: Deployments, plan: Plan, records: seq<ServiceDeployment>)
    requires Settled(app, deployments, plan.before) && plan.app == app
    requires DistinctIds(plan.services) && DistinctNames(plan.services)
    requires forall d :: IsRunning(deployments, d) ==>
               deployments[d].records == records && ShortId(d.uuid) != ShortId(plan.deployment)
    requires (forall d :: !IsRunning(deployments, d)) ==> records == []
    requires forall slot <- plan.recorded :: RecordsSlot(records, slot, plan.recorded[slot])
    requires forall slot, name :: RecordsSlot(records, slot, name) ==> slot in plan.recorded
    ensures Fits(plan)
  {
    forall n <- plan.before
      ensures SlotOf(plan.before[n]) in plan.recorded && plan.recorded[SlotOf(plan.before[n])] == n
    {
      var d :| d in deployments && IsRunning(deployments, d)
               && RecordsSlot(deployments[d].records, SlotOf(plan.before[n]), n);
      assert WellRecorded(app, d, records);
    }
    forall slot <- plan.recorded | plan.recorded[slot] in plan.before
      ensures SlotOf(plan.before[plan.recorded[slot]]) == slot
    {
      var n := plan.recorded[slot];
      var d :| d in deployments && IsRunning(deployments, d)
               && RecordsSlot(deployments[d].records, SlotOf(plan.before[n]), n);
      assert WellRecorded(app, d, records);
    }
    forall slot <- plan.recorded, service, replica | Planned(plan, service, replica)
      ensures plan.recorded[slot] != NewName(plan, service, replica)
    {
      if d :| IsRunning(deployments, d) {
        assert WellRecorded(app, d, records);
        var printed: string :| plan.recorded[slot] == ContainerId(ContainerName(app, printed, slot.1, ShortId(d.uuid)));
        if ContainerName(app, printed, slot.1, ShortId(d.uuid))
           == ContainerName(app, service.name, replica, ShortId(plan.deployment))
        {
          PrintingInjective(app, printed, slot.1, ShortId(d.uuid), service.name, replica, ShortId(plan.deployment));
        }
      }
    }
  }

  // ----- the new records

  lemma {:induction false} ReplicaRecordsExactly(plan: Plan, service: Service, n: nat, slot: Slot, name: ContainerId)
    ensures RecordsSlot(ReplicaRecords(plan, service, n), slot, name) <==>
            slot.0 == service.id && slot.1 < n && name == NewName(plan, service, slot.1)
  {
    if n > 0 {
      ReplicaRecordsExactly(plan, service, n - 1, slot, name);
      var init := ReplicaRecords(plan, service, n - 1);
      var sd := ServiceDeployment(service.id, n - 1, Running, Some(NewName(plan, service, n - 1)));
      RecordsSlotSplits(init, [sd], slot, name);
      assert sd in [sd];
    }
  }

  lemma RecordsSlotSplits(a: seq<ServiceDeployment>, b: seq<ServiceDeployment>, slot: Slot, name: ContainerId)
    ensures RecordsSlot(a + b, slot, name) <==> RecordsSlot(a, slot, name) || RecordsSlot(b, slot, name)
  {
    if sd :| sd in a && SlotOfRecord(sd) == slot && sd.containerId == Some(name) {
      assert sd in a + b;
    }
    if sd :| sd in b && SlotOfRecord(sd) == slot && sd.containerId == Some(name) {
      assert sd in a + b;
    }
  }

  lemma ServiceRecordsExactly(plan: Plan, service: Service, slot: Slot, name: ContainerId)
    requires service in plan.services
    ensures RecordsSlot(ServiceRecords(plan, service), slot, name) <==>
            Planned(plan, service, slot.1) && slot.0 == service.id && name == NewName(plan, service, slot.1)
  {
    ReplicaRecordsExactly(plan, service, service.replicas, slot, name);
  }

  /** One of the first `n` services plans the slot under that name. */
  ghost predicate PlansSlot(plan: Plan, n: nat, slot: Slot, name: ContainerId)
    requires n <= |plan.services|
  {
    exists i :: 0 <= i < n && Planned(plan, plan.services[i], slot.1) && slot.0 == plan.services[i].id
                && name == NewName(plan, plan.services[i], slot.1)
  }

  /** Exactly the planned replicas are recorded, each under the name printed for it. */
  lemma {:induction false} RecordsExactly(plan: Plan, n: nat, slot: Slot, name: ContainerId)
    requires n <= |plan.services|
    ensures RecordsSlot(Records(plan, n), slot, name) <==> PlansSlot(plan, n, slot, name)
  {
    if n > 0 {
      var service := plan.services[n - 1];
      RecordsExactly(plan, n - 1, slot, name);
      RecordsSlotSplits(Records(plan, n - 1), ServiceRecords(plan, service), slot, name);
      ServiceRecordsExactly(plan, service, slot, name);
    }
  }

  /** Drops the records of services that no longer exist. */
  function KeepExisting(records: seq<ServiceDeployment>, services: set<Id>): seq<ServiceDeployment> {
    if records == [] then []
    else
      var last := records[|records| - 1];
      KeepExisting(records[..|records| - 1], services) + if last.serviceId in services then [last] else []
  }

  lemma {:induction false} KeepExistingExactly(records: seq<ServiceDeployment>, services: set<Id>,
                                               sd: ServiceDeployment)
    ensures sd in KeepExisting(records, services) <==> sd in records && sd.serviceId in services
  {
    if records != [] {
      KeepExistingExactly(records[..|records| - 1], services, sd);
      assert records == records[..|records| - 1] + [records[|records| - 1]];
    }
  }

  /** It goes record by record and so keeps their order and number. */
  lemma {:induction false} KeepExistingAppend(a: seq<ServiceDeployment>, b: seq<ServiceDeployment>, services: set<Id>)
    ensures KeepExisting(a + b, services) == KeepExisting(a, services) + KeepExisting(b, services)
    ensures |b| == 1 ==> KeepExisting(b, services) == if b[0].serviceId in services then b else []
  {
    if b == [] {
      assert a + b == a;
    } else {
      var init, last := b[..|b| - 1], b[|b| - 1];
      KeepExistingAppend(a, init, services);
      assert (a + b)[..|a + b| - 1] == a + init && (a + b)[|a + b| - 1] == last;
    }
  }

  lemma KeptSlots(records: seq<ServiceDeployment>, services: set<Id>, slot: Slot, name: ContainerId)
    ensures RecordsSlot(KeepExisting(records, services), slot, name) <==>
            RecordsSlot(records, slot, name) && slot.0 in services
  {
    forall sd ensures sd in KeepExisting(records, services) <==> sd in records && sd.serviceId in services {
      KeepExistingExactly(records, services, sd);
    }
  }

  /** The same replicas and containers, position by position, all of them stopped. */
  ghost predicate IsStoppedCopy(before: seq<ServiceDeployment>, after: seq<ServiceDeployment>) {
    && |after| == |before|
    && forall i :: 0 <= i < |before| ==>
         && after[i].serviceId == before[i].serviceId && after[i].replica == before[i].replica
         && after[i].containerId == before[i].containerId && after[i].status == Stopped
  }

  function MarkStopped(records: seq<ServiceDeployment>): (stopped: seq<ServiceDeployment>)
    ensures IsStoppedCopy(records, stopped)
  {
    seq(|records|, i requires 0 <= i < |records| => records[i].(status := Stopped))
  }

  /** The records a successful job stores. */
  function StoredRecords(plan: Plan, services: set<Id>): seq<ServiceDeployment> {
    KeepExisting(Records(plan, |plan.services|), services)
  }

  /** What a successful job stores: its replicas in services that still exist, under their printed names. */
  lemma StoredExactly(plan: Plan, services: set<Id>, slot: Slot, name: ContainerId)
    ensures RecordsSlot(StoredRecords(plan, services), slot, name) <==>
            exists service :: Planned(plan, service, slot.1) && slot.0 == service.id && service.id in services
                              && name == NewName(plan, service, slot.1)
  {
    KeptSlots(Records(plan, |plan.services|), services, slot, name);
    RecordsExactly(plan, |plan.services|, slot, name);
    if service :| Planned(plan, service, slot.1) && slot.0 == service.id && service.id in services
                  && name == NewName(plan, service, slot.1)
    {
      var i :| 0 <= i < |plan.services| && plan.services[i] == service;
    }
  }

  lemma StoredIsWellRecorded(plan: Plan, id: DeploymentId, services: set<Id>)
    requires Fits(plan) && plan.deployment == id.uuid
    ensures WellRecorded(plan.app, id, StoredRecords(plan, services))
  {
    var records := StoredRecords(plan, services);
    forall slot, name | RecordsSlot(records, slot, name)
      ensures exists service: string :: name == ContainerId(ContainerName(plan.app, service, slot.1, ShortId(id.uuid)))
    {
      StoredExactly(plan, services, slot, name);
    }
    forall slot, slot', name, name' | RecordsSlot(records, slot, name) && RecordsSlot(records, slot', name')
      ensures slot == slot' <==> name == name'
    {
      StoredExactly(plan, services, slot, name);
      StoredExactly(plan, services, slot', name');
      var service :| Planned(plan, service, slot.1) && slot.0 == service.id && name == NewName(plan, service, slot.1);
      var service' :| Planned(plan, service', slot'.1) && slot'.0 == service'.id
                      && name' == NewName(plan, service', slot'.1);
      SameIdSameService(plan, service, service');
      if name == name' {
        NamesIdentifyReplicas(plan, service, slot.1, service', slot'.1);
      }
    }
  }

  lemma SameIdSameService(plan: Plan, service: Service, service': Service)
    requires DistinctIds(plan.services) && service in plan.services && service' in plan.services
    ensures service.id == service'.id ==> service == service'
  {
    var i :| 0 <= i < |plan.services| && plan.services[i] == service;
    var j :| 0 <= j < |plan.services| && plan.services[j] == service';
  }

  /** The containers after a success: exactly the planned ones. */
  ghost predicate OnlyPlanned(plan: Plan, w: World) {
    AllStarted(plan, w) && forall n <- w :: IsNew(plan, n, w[n])
  }

  /** All services of the spec that run containers still exist. */
  predicate SpecExists(spec: seq<Service>, services: set<Id>) {
    forall service <- spec :: !service.cronJob && service.replicas > 0 ==> service.id in services
  }

  lemma PlannedContainerIsStored(plan: Plan, services: set<Id>, w: World, n: ContainerId)
    requires OnlyPlanned(plan, w) && SpecExists(plan.services, services) && n in w
    ensures RecordsSlot(StoredRecords(plan, services), SlotOf(w[n]), n)
  {
    var service, replica :| Planned(plan, service, replica)
      && n == NewName(plan, service, replica) && w[n] == NewContainer(service, replica);
    StoredExactly(plan, services, (service.id, replica), n);
  }

  /** After a success the live containers are the recorded ones, exactly when the services of the spec still exist. */
  lemma LiveIsRecordedExactlyWhenServicesExist(plan: Plan, services: set<Id>, w: World)
    requires Fits(plan) && OnlyPlanned(plan, w)
    ensures w.Keys == RecordedIds(StoredRecords(plan, services)) <==> SpecExists(plan.services, services)
  {
    var records := StoredRecords(plan, services);
    forall n | n in RecordedIds(records) ensures n in w {
      var sd :| sd in records && sd.containerId == Some(n);
      assert RecordsSlot(records, SlotOfRecord(sd), n);
      StoredExactly(plan, services, SlotOfRecord(sd), n);
    }
    if SpecExists(plan.services, services) {
      forall n <- w ensures n in RecordedIds(records) {
        PlannedContainerIsStored(plan, services, w, n);
        var sd :| sd in records && SlotOfRecord(sd) == SlotOf(w[n]) && sd.containerId == Some(n);
      }
    } else {
      var service :| service in plan.services && !service.cronJob && service.replicas > 0 && service.id !in services;
      UnrecordedContainer(plan, services, w, service);
    }
  }

  lemma UnrecordedContainer(plan: Plan, services: set<Id>, w: World, service: Service)
    requires Fits(plan) && AllStarted(plan, w) && Planned(plan, service, 0) && service.id !in services
    ensures NewName(plan, service, 0) in w && NewName(plan, service, 0) !in RecordedIds(StoredRecords(plan, services))
  {
    var name, records := NewName(plan, service, 0), StoredRecords(plan, services);
    if name in RecordedIds(records) {
      var sd :| sd in records && sd.containerId == Some(name);
      assert RecordsSlot(records, SlotOfRecord(sd), name);
      StoredExactly(plan, services, SlotOfRecord(sd), name);
      var other :| Planned(plan, other, sd.replica) && sd.serviceId == other.id && other.id in services
        && name == NewName(plan, other, sd.replica);
      NamesIdentifyReplicas(plan, service, 0, other, sd.replica);
    }
  }

  // ----- between jobs

  /** Storing the new deployment as the only running one accounts for the planned containers. */
  lemma SettledAfterSuccess(plan: Plan, id: DeploymentId, services: set<Id>, deployments: Deployments, w: World)
    requires Fits(plan) && plan.deployment == id.uuid && OnlyPlanned(plan, w)
    requires IsRunning(deployments, id) && deployments[id].records == StoredRecords(plan, services)
    requires forall d :: IsRunning(deployments, d) ==> d == id
    ensures Settled(plan.app, deployments, w) <==> SpecExists(plan.services, services)
  {
    StoredIsWellRecorded(plan, id, services);
    if SpecExists(plan.services, services) {
      forall n <- w ensures RecordsSlot(deployments[id].records, SlotOf(w[n]), n) {
        PlannedContainerIsStored(plan, services, w, n);
      }
    } else {
      LiveIsRecordedExactlyWhenServicesExist(plan, services, w);
      if LiveRecorded(deployments, w) {
        LiveRecordedIsStored(plan, id, services, deployments, w);
      }
    }
  }

  lemma LiveRecordedIsStored(plan: Plan, id: DeploymentId, services: set<Id>, deployments: Deployments, w: World)
    requires Fits(plan) && OnlyPlanned(plan, w) && LiveRecorded(deployments, w)
    requires IsRunning(deployments, id) && deployments[id].records == StoredRecords(plan, services)
    requires forall d :: IsRunning(deployments, d) ==> d == id
    ensures SpecExists(plan.services, services)
  {
    var records := StoredRecords(plan, services);
    forall service <- plan.services | !service.cronJob && service.replicas > 0 ensures service.id in services {
      var n := NewName(plan, service, 0);
      assert Planned(plan, service, 0) && n in w;
      assert RecordsSlot(records, SlotOf(w[n]), n);
      StoredExactly(plan, services, SlotOf(w[n]), n);
      var other :| Planned(plan, other, 0) && service.id == other.id && other.id in services;
    }
  }

  /** The running deployments are the same, with the same records. */
  ghost predicate SameRunning(a: Deployments, b: Deployments) {
    forall d :: (IsRunning(a, d) <==> IsRunning(b, d)) && (IsRunning(a, d) ==> a[d].records == b[d].records)
  }

  lemma FewerContainersStayRecorded(deployments: Deployments, deployments': Deployments, w: World, w': World)
    requires LiveRecorded(deployments, w) && SameRunning(deployments, deployments')
    requires forall n <- w' :: n in w && w'[n] == w[n]
    ensures LiveRecorded(deployments', w')
  {
    forall n <- w'
      ensures exists d <- deployments' ::
                IsRunning(deployments', d) && RecordsSlot(deployments'[d].records, SlotOf(w'[n]), n)
    {
      var d :| d in deployments && IsRunning(deployments, d) && RecordsSlot(deployments[d].records, SlotOf(w[n]), n);
      assert IsRunning(deployments', d);
    }
  }

  /** A failed rollout leaves the running deployment accounting for what is left of its containers. */
  lemma SettledAfterFailure(plan: Plan, deployments: Deployments, deployments': Deployments, w: World)
    requires Fits(plan) && Settled(plan.app, deployments, plan.before) && SameRunning(deployments, deployments')
    requires Rolling(plan, w) && forall n <- w :: n in plan.before
    ensures Settled(plan.app, deployments', w)
  {
    forall n <- w ensures w[n] == plan.before[n] {
      OldIsNotNew(plan, n, w[n]);
    }
    FewerContainersStayRecorded(deployments, deployments', plan.before, w);
  }

  /** A failed start-first rollout of an app without host ports leaves exactly the containers it found. */
  lemma FailedStartFirstChangesNothing(plan: Plan, w: World)
    requires Fits(plan) && plan.strategy == StartFirst
    requires forall service <- plan.services :: service.hostPorts == {}
    requires Rolling(plan, w) && forall n <- w :: n in plan.before
    ensures w == plan.before
  {
    forall n <- plan.before ensures n in w && w[n] == plan.before[n] {
      SlotKeepsItsContainer(plan, w, n);
    }
  }

  /** Every container a rollout adds was recorded before or is planned, so the last phase drops the rest. */
  lemma OnlyPlannedAtEnd(plan: Plan, w: World, created: set<ContainerId>)
    requires Fits(plan) && Retiring(plan, w) && CreatedByPlan(plan, created)
    requires forall n <- w :: n in created
    ensures OnlyPlanned(plan, w)
  {
    forall n <- w ensures IsNew(plan, n, w[n]) {
      var service, replica :| Planned(plan, service, replica) && n == NewName(plan, service, replica);
      assert w[n] == NewContainer(service, replica);
    }
  }

  lemma AllPlannedCreated(plan: Plan, w: World, created: set<ContainerId>)
    requires Fits(plan) && AllStarted(plan, w) && forall n <- w :: n in plan.before || n in created
    ensures forall service, replica :: Planned(plan, service, replica) ==> NewName(plan, service, replica) in created
  {
    forall service, replica | Planned(plan, service, replica) ensures NewName(plan, service, replica) in created {
      NewNamesAreFresh(plan, service, replica);
    }
  }

  /** States a job goes through: starting replicas, and after a success retiring the old ones. */
  ghost predicate JobStates(plan: Plan, trace: seq<World>, from: nat, ok: bool) {
    forall i :: from <= i < |trace| ==> Rolling(plan, trace[i]) || (ok && Retiring(plan, trace[i]))
  }

  lemma PermutationKeepsDistinctIds(services: seq<Service>, sorted: seq<Service>)
    requires DistinctIds(services) && multiset(sorted) == multiset(services)
    ensures DistinctIds(sorted) && forall s :: s in sorted <==> s in services
  {
    PermutationSameElements(sorted, services);
    forall i, j | 0 <= i < j < |sorted| ensures sorted[i].id != sorted[j].id {
      var a, b := sorted[i], sorted[j];
      assert a in multiset(services) && b in multiset(services);
      var k :| 0 <= k < |services| && services[k] == a;
      var l :| 0 <= l < |services| && services[l] == b;
      if a == b {
        AtMostOnce(services, a);
        TwiceCounted(sorted, i, j);
      }
    }
  }

  // ----- every state of a job

  ghost predicate ExclusiveFrom(trace: seq<World>, from: nat) {
    forall i :: from <= i < |trace| ==> PortsExclusive(trace[i])
  }

  lemma NoPortBoundTwiceInJob(plan: Plan, spec: seq<Service>, trace: seq<World>, from: nat, ok: bool)
    requires Fits(plan) && JobStates(plan, trace, from, ok)
    requires PortsAgree(plan.before, spec) && forall s <- plan.services :: s in spec
    ensures ExclusiveFrom(trace, from)
  {
    forall i | from <= i < |trace| ensures PortsExclusive(trace[i]) {
      NoPortBoundTwice(plan, trace[i]);
    }
  }

  /** The spec runs a replica in this slot. */
  ghost predicate InSpec(spec: seq<Service>, slot: Slot) {
    exists service <- spec :: service.id == slot.0 && !service.cronJob && slot.1 < service.replicas
  }

  /** The spec publishes no host port in this slot. */
  ghost predicate NoHostPorts(spec: seq<Service>, slot: Slot) {
    forall service <- spec :: service.id == slot.0 ==> PortMappings(service, slot.1) == {}
  }

  /** A slot served at first is served in every state; only a success may drop it, when the spec has no such replica. */
  ghost predicate ServedThroughout(spec: seq<Service>, trace: seq<World>, from: nat, slot: Slot, ok: bool) {
    forall i :: from <= i < |trace| ==> SlotServed(trace[i], slot) || (ok && !InSpec(spec, slot))
  }

  lemma SlotServedThroughJob(plan: Plan, spec: seq<Service>, trace: seq<World>, from: nat, ok: bool, slot: Slot)
    requires Fits(plan) && JobStates(plan, trace, from, ok) && plan.strategy == StartFirst
    requires ok ==> multiset(plan.services) == multiset(spec)
    requires (forall s <- plan.services :: s in spec) && NoHostPorts(spec, slot) && SlotServed(plan.before, slot)
    ensures ServedThroughout(spec, trace, from, slot, ok)
  {
    var n :| n in plan.before && SlotOf(plan.before[n]) == slot;
    forall i | from <= i < |trace| ensures SlotServed(trace[i], slot) || (ok && !InSpec(spec, slot)) {
      if Rolling(plan, trace[i]) {
        SlotKeepsItsContainer(plan, trace[i], n);
      } else if InSpec(spec, slot) {
        var service :| service in spec && service.id == slot.0 && !service.cronJob && slot.1 < service.replicas;
        PermutationSameElements(plan.services, spec);
        SlotStaysServed(plan, trace[i], service, slot.1);
      }
    }
  }

  lemma SpecExistsAsPlanned(plan: Plan, spec: seq<Service>, services: set<Id>)
    requires multiset(plan.services) == multiset(spec)
    ensures SpecExists(plan.services, services) <==> SpecExists(spec, services)
  {
    PermutationSameElements(plan.services, spec);
  }

  /** What a caller sees of the containers over one job that starts in `before`: `trace[from..]`, ending in `w`. */
  ghost predicate JobGuarantees(job: Job, before: World, trace: seq<World>, from: nat, w: World, ok: bool) {
    // each host port stays with one container
    && (PortsAgree(before, job.services) ==> ExclusiveFrom(trace, from))
    // stop-first never doubles a slot
    && (job.strategy == StopFirst ==> forall i :: from <= i < |trace| ==> OnePerSlot(trace[i]))
    // start-first serves throughout
    && (job.strategy == StartFirst ==> forall slot ::
          NoHostPorts(job.services, slot) && SlotServed(before, slot) ==>
          ServedThroughout(job.services, trace, from, slot, ok))
    // a failed start-first job without host ports changes nothing
    && (!ok && job.strategy == StartFirst && (forall s <- job.services :: s.hostPorts == {}) ==> w == before)
    // nothing appears that the spec does not ask for
    && (forall n <- w :: (n in before && w[n] == before[n])
          || exists s <- job.services :: w[n] == NewContainer(s, w[n].replica))
  }

  lemma NothingHappened(job: Job, w: World, trace: seq<World>, ok: bool)
    ensures JobGuarantees(job, w, trace, |trace|, w, ok)
  {
  }

  lemma OldOrFromSpec(plan: Plan, spec: seq<Service>, w: World)
    requires Sound(plan, w) && forall s <- plan.services :: s in spec
    ensures forall n <- w :: (n in plan.before && w[n] == plan.before[n])
              || exists s <- spec :: w[n] == NewContainer(s, w[n].replica)
  {
    forall n <- w | !(n in plan.before && w[n] == plan.before[n])
      ensures exists s <- spec :: w[n] == NewContainer(s, w[n].replica)
    {
      var service, replica :| Planned(plan, service, replica) && w[n] == NewContainer(service, replica);
      assert service in spec;
    }
  }

  lemma JobKeepsGuarantees(plan: Plan, app: string, job: Job, trace: seq<World>, from: nat, w: World, ok: bool)
    requires Fits(plan) && SpecOf(plan, app, job, plan.before) && JobStates(plan, trace, from, ok) && Sound(plan, w)
    requires ok ==> multiset(plan.services) == multiset(job.services)
    requires !ok ==> Rolling(plan, w) && forall n <- w :: n in plan.before
    ensures JobGuarantees(job, plan.before, trace, from, w, ok)
  {
    if job.strategy == StopFirst {
      forall i | from <= i < |trace| ensures OnePerSlot(trace[i]) {
        NoSlotDoubled(plan, trace[i]);
      }
    }
    if PortsAgree(plan.before, job.services) {
      NoPortBoundTwiceInJob(plan, job.services, trace, from, ok);
    }
    if job.strategy == StartFirst {
      forall slot | NoHostPorts(job.services, slot) && SlotServed(plan.before, slot)
        ensures ServedThroughout(job.services, trace, from, slot, ok)
      {
        SlotServedThroughJob(plan, job.services, trace, from, ok, slot);
      }
      if !ok && forall s <- job.services :: s.hostPorts == {} {
        FailedStartFirstChangesNothing(plan, w);
      }
    }
    OldOrFromSpec(plan, job.services, w);
  }

  // ----- the worker

  ghost predicate SpecOf(plan: Plan, app: string, job: Job, before: World) {
    && plan.app == app && plan.deployment == job.deployment.uuid && plan.strategy == job.strategy
    && plan.before == before && forall s <- plan.services :: s in job.services
  }

  /** The deployment is not running yet, and its short id is none of the running one's. */
  ghost predicate FreshDeployment(deployments: Deployments, id: DeploymentId) {
    !IsRunning(deployments, id) && forall d :: IsRunning(deployments, d) ==> ShortId(d.uuid) != ShortId(id.uuid)
  }

  /** No stray container has a name that the running deployment records, or that a job of this deployment prints. */
  ghost predicate StraysApart(app: string, deployments: Deployments, id: DeploymentId, strays: World) {
    && RecordsApart(deployments, strays)
    && forall service: string, replica: nat ::
         ContainerId(ContainerName(app, service, replica, ShortId(id.uuid))) !in strays
  }

  ghost predicate RecordsApart(deployments: Deployments, strays: World) {
    forall d, slot, name ::
      IsRunning(deployments, d) && RecordsSlot(deployments[d].records, slot, name) ==> name !in strays
  }

  /** A job has succeeded: its deployment runs, its replicas live, and those of existing services are recorded. */
  ghost predicate Finished(plan: Plan, job: Job, deployments: Deployments, services: set<Id>, w: World) {
    && Fits(plan) && plan.deployment == job.deployment.uuid && multiset(plan.services) == multiset(job.services)
    && OnlyPlanned(plan, w) && IsRunning(deployments, job.deployment)
    && (forall d :: IsRunning(deployments, d) ==> d == job.deployment)
    && deployments[job.deployment].records == StoredRecords(plan, services)
  }

  /** Only what is said of `id` changes which deployments run. */
  ghost predicate StatusesSame(before: Deployments, after: Deployments, id: DeploymentId) {
    forall d :: d != id ==> (d in before <==> d in after) && (d in before ==> after[d].status == before[d].status)
  }

  ghost predicate MarkedStopped(before: Deployments, after: Deployments, previous: seq<DeploymentId>) {
    after.Keys == before.Keys
    && forall d <- after ::
         if d in previous then after[d].status == Stopped && IsStoppedCopy(before[d].records, after[d].records)
         else after[d] == before[d]
  }

  /** The records of a deployment that a success leaves, before they are marked: a rollback drops some. */
  function RecordsLeft(job: Job, records: seq<ServiceDeployment>, services: set<Id>): seq<ServiceDeployment> {
    if job.rollback then KeepExisting(records, services) else records
  }

  /** What a success makes of the other deployments: those that ran are stopped with all their records. */
  ghost predicate OthersStopped(before: Deployments, after: Deployments, job: Job, services: set<Id>) {
    forall d :: d != job.deployment ==>
      && (d in after <==> d in before)
      && (d in before ==>
            var left := RecordsLeft(job, before[d].records, services);
            if IsRunning(before, d) then after[d].status == Stopped && IsStoppedCopy(left, after[d].records)
            else after[d] == Deployment(before[d].status, left))
  }

  /** Storing the new deployment leaves the others what a rollback leaves of their records. */
  ghost predicate OthersKept(before: Deployments, after: Deployments, job: Job, services: set<Id>) {
    forall d :: d != job.deployment ==>
      && (d in after <==> d in before)
      && (d in before ==> after[d] == Deployment(before[d].status, RecordsLeft(job, before[d].records, services)))
  }

  lemma StoredThenStopped(before: Deployments, stored: Deployments, after: Deployments, job: Job, services: set<Id>,
                          previous: seq<DeploymentId>)
    requires OthersKept(before, stored, job, services) && MarkedStopped(stored, after, previous)
    requires !IsRunning(before, job.deployment) && forall d :: d in previous <==> IsRunning(before, d)
    ensures OthersStopped(before, after, job, services)
  {
  }

  lemma OnlyNewRuns(before: Deployments, stored: Deployments, after: Deployments, id: DeploymentId,
                    previous: seq<DeploymentId>)
    requires !IsRunning(before, id) && forall d :: d in previous <==> IsRunning(before, d)
    requires IsRunning(stored, id) && StatusesSame(before, stored, id) && MarkedStopped(stored, after, previous)
    ensures IsRunning(after, id) && after[id] == stored[id] && forall d :: IsRunning(after, d) ==> d == id
  {
  }

  lemma PlanApart(plan: Plan, job: Job, deployments: Deployments, records: seq<ServiceDeployment>, strays: World)
    requires StraysApart(plan.app, deployments, job.deployment, strays) && plan.deployment == job.deployment.uuid
    requires (records == [] || exists d :: IsRunning(deployments, d) && deployments[d].records == records)
    requires forall slot <- plan.recorded :: RecordsSlot(records, slot, plan.recorded[slot])
    ensures Apart(plan, strays) && forall n <- RecordedIds(records) :: n !in strays
  {
    forall n <- RecordedIds(records) ensures n !in strays {
      var sd :| sd in records && sd.containerId == Some(n);
      assert RecordsSlot(records, SlotOfRecord(sd), n);
    }
  }

  /** The spec can be ordered and each of its services has an image. */
  ghost predicate CanRoll(job: Job) {
    && DistinctNames(job.services) && Graphs.Acyclic(TopologicalSort.SiblingGraph(job.services))
    && forall s <- job.services :: s.id in job.images
  }

  class DeploymentWorker {
    const app: string
    const docker: Docker
    var deployments: Deployments  // of this app
    var services: set<Id>         // that exist in the store

    constructor (app: string, docker: Docker, deployments: Deployments, services: set<Id>)
      ensures this.app == app && this.docker == docker && this.deployments == deployments && this.services == services
    {
      this.app, this.docker, this.deployments, this.services := app, docker, deployments, services;
    }

    ghost predicate Valid()
      reads this, docker
    {
      docker.Valid() && Settled(app, deployments, docker.containers)
    }

    /** The other deployments of the app that run. */
    method PreviousRunning(current: DeploymentId) returns (previous: seq<DeploymentId>)
      ensures forall d :: d in previous <==> d != current && IsRunning(deployments, d)
      ensures NoRepeats(previous)
    {
      previous := [];
      var rest := deployments.Keys;
      while rest != {}
        invariant rest <= deployments.Keys
        invariant forall d ::
                    d in previous <==> d in deployments.Keys - rest && d != current && IsRunning(deployments, d)
        invariant NoRepeats(previous)
      {
        var d :| d in rest;
        if d != current && deployments[d].status == Running {
          NoRepeatsSnoc(previous, d);
          previous := previous + [d];
        }
        rest := rest - {d};
      }
    }

    /** All service records of the previous deployments, in their order. */
    method PreviousRecords(previous: seq<DeploymentId>) returns (records: seq<ServiceDeployment>)
      requires forall d <- previous :: d in deployments
      ensures previous == [] ==> records == []
      ensures |previous| == 1 ==> records == deployments[previous[0]].records
      ensures records == RecordsOfAll(deployments, previous)
    {
      ghost var all := deployments;
      ghost var f := d => RecordsOf(all, d);
      records := [];
      for i := 0 to |previous|
        invariant i == 0 ==> records == []
        invariant i == 1 ==> records == deployments[previous[0]].records
        invariant records == FlatMap(f, previous[..i])
      {
        TakeNext(previous, i);
        FlatMapAppend(f, previous[..i], [previous[i]]);
        FlatMapOne(f, previous[i]);
        records := records + deployments[previous[i]].records;
      }
      TakeAll(previous);
    }

    /** Saving the rolled-back spec deletes the services it lacks, and with them their records everywhere. */
    method RestoreAppServices(spec: seq<Service>)
      modifies this
      ensures services == set s <- spec :: s.id
      ensures deployments == map d <- old(deployments) ::
                old(deployments)[d].(records := KeepExisting(old(deployments)[d].records, services))
    {
      services := set s <- spec :: s.id;
      deployments := map d <- deployments :: deployments[d].(records := KeepExisting(deployments[d].records, services));
    }

    /** Reloads each previous deployment and stores it, with its records, as stopped. */
    method MarkPreviousStopped(previous: seq<DeploymentId>)
      requires NoRepeats(previous) && forall d <- previous :: d in deployments
      modifies this`deployments
      ensures MarkedStopped(old(deployments), deployments, previous)
    {
      for i := 0 to |previous|
        invariant deployments.Keys == old(deployments).Keys
        invariant forall d <- deployments :: deployments[d] ==
                    if d in previous[..i] then Deployment(Stopped, MarkStopped(old(deployments)[d].records))
                    else old(deployments)[d]
      {
        var d := previous[i];
        TakeNext(previous, i);
        deployments := deployments[d := Deployment(Stopped, MarkStopped(deployments[d].records))];
      }
      TakeAll(previous);
    }

    /** Stores the new deployment as running, after a rollback with the spec it ran. */
    method StoreSuccess(job: Job, plan: Plan, records: seq<ServiceDeployment>)
      requires records == Records(plan, |plan.services|)
      modifies this
      ensures services == if job.rollback then set s <- job.services :: s.id else old(services)
      ensures IsRunning(deployments, job.deployment)
      ensures deployments[job.deployment].records == StoredRecords(plan, services)
      ensures StatusesSame(old(deployments), deployments, job.deployment)
      ensures OthersKept(old(deployments), deployments, job, services)
    {
      if job.rollback {
        RestoreAppServices(job.services);
      }
      deployments := deployments[job.deployment := Deployment(Running, KeepExisting(records, services))];
    }

    /** Finds the old containers, and the proof's view of the rollout they give. */
    method PlanRollout(job: Job, sorted: seq<Service>)
      returns (previous: seq<DeploymentId>, plan: Plan, recorded: set<ContainerId>)
      requires Valid() && FreshDeployment(deployments, job.deployment)
      requires StraysApart(app, deployments, job.deployment, docker.strays)
      requires DistinctIds(sorted) && DistinctNames(sorted) && forall s <- sorted :: s in job.services
      ensures NoRepeats(previous) && forall d :: d in previous <==> IsRunning(deployments, d)
      ensures Fits(plan) && SpecOf(plan, app, job, docker.containers) && plan.services == sorted
      ensures forall n <- docker.containers :: n in recorded
      ensures Apart(plan, docker.strays) && forall n <- recorded :: n !in docker.strays
    {
      previous := PreviousRunning(job.deployment);
      var records := PreviousRecords(previous);
      var first: map<Slot, ContainerId>;
      first, recorded := CollectOldContainers(records);
      plan := Plan(app, job.deployment.uuid, sorted, job.strategy, docker.containers, first);
      OneRunningDeployment(previous);
      assert previous != [] ==> previous[0] in previous;
      SettledFits(app, deployments, plan, records);
      PlanApart(plan, job, deployments, records, docker.strays);
      forall n <- docker.containers ensures n in recorded {
        var d :| d in deployments && IsRunning(deployments, d)
                 && RecordsSlot(deployments[d].records, SlotOf(docker.containers[n]), n);
      }
    }

    lemma OneRunningDeployment(previous: seq<DeploymentId>)
      requires AtMostOneRunning(deployments) && NoRepeats(previous)
      requires forall d <- previous :: IsRunning(deployments, d)
      ensures |previous| <= 1
    {
      AtMostOneValue(previous);
    }

    /** Success of a rollout: store, retire the old containers, stop the previous deployments. */
    method FinishRollout(job: Job, plan: Plan, previous: seq<DeploymentId>, recorded: set<ContainerId>,
                         created: set<ContainerId>, records: seq<ServiceDeployment>)
      requires docker.Valid() && Fits(plan) && SpecOf(plan, app, job, plan.before)
      requires Rolling(plan, docker.containers) && AllStarted(plan, docker.containers) && CreatedByPlan(plan, created)
      requires forall n <- docker.containers :: n in plan.before || n in created
      requires forall n <- plan.before :: n in recorded
      requires forall n <- recorded :: n !in docker.strays
      requires multiset(plan.services) == multiset(job.services)
      requires records == Records(plan, |plan.services|)
      requires NoRepeats(previous) && forall d :: d in previous <==> IsRunning(deployments, d)
      requires !IsRunning(deployments, job.deployment)
      modifies this, docker
      ensures docker.Valid() && docker.strays == old(docker.strays) && old(docker.trace) <= docker.trace
      ensures AllRetiring(plan, docker.trace, |old(docker.trace)|)
      ensures services == if job.rollback then set s <- job.services :: s.id else old(services)
      ensures Finished(plan, job, deployments, services, docker.containers)
      ensures OthersStopped(old(deployments), deployments, job, services)
    {
      StoreSuccess(job, plan, records);
      ghost var stored := deployments;
      AllPlannedCreated(plan, docker.containers, created);
      RemoveOld(docker, plan, recorded, created);
      OnlyPlannedAtEnd(plan, docker.containers, created);
      MarkPreviousStopped(previous);
      OnlyNewRuns(old(deployments), stored, deployments, job.deployment, previous);
      StoredThenStopped(old(deployments), stored, deployments, job, services, previous);
    }

    /** Orders the services, rolls them out and either finishes the rollout or cleans it up. */
    method DeployServices(job: Job) returns (ok: bool, ghost plan: Plan)
      requires Valid() && FreshDeployment(deployments, job.deployment) && DistinctIds(job.services)
      requires StraysApart(app, deployments, job.deployment, docker.strays)
      modifies this, docker
      ensures docker.Valid() && docker.strays == old(docker.strays) && old(docker.trace) <= docker.trace
      ensures if ok then CanRoll(job) else docker.faults > old(docker.faults) || !CanRoll(job)
      ensures Fits(plan) && SpecOf(plan, app, job, old(docker.containers))
      ensures JobStates(plan, docker.trace, |old(docker.trace)|, ok)
      ensures !ok ==> deployments == old(deployments)
                      && Rolling(plan, docker.containers) && forall n <- docker.containers :: n in plan.before
      ensures ok ==> Finished(plan, job, deployments, services, docker.containers)
      ensures ok ==> OthersStopped(old(deployments), deployments, job, services)
      ensures services == if ok && job.rollback then set s <- job.services :: s.id else old(services)
    {
      var sort := TopologicalSort.TopologicalSortServices(job.services);
      var previous: seq<DeploymentId>, rollout: Plan, recorded: set<ContainerId>;
      if sort.Err? {
        previous, rollout, recorded := PlanRollout(job, []);
        return false, rollout;
      }
      PermutationSameElements(job.services, sort.value);
      PermutationKeepsDistinctIds(job.services, sort.value);
      previous, rollout, recorded := PlanRollout(job, sort.value);
      plan := rollout;
      var records, created;
      ok, records, created := RolloutServices(docker, rollout, job.images);
      if ok {
        FinishRollout(job, rollout, previous, recorded, created, records);
      } else {
        RemoveCreated(docker, rollout, created);
      }
    }

    /** The rollout and what it leaves in the store. */
    method RolloutJob(job: Job) returns (ok: bool, ghost plan: Plan)
      requires Valid() && FreshDeployment(deployments, job.deployment) && DistinctIds(job.services)
      requires StraysApart(app, deployments, job.deployment, docker.strays)
      modifies this, docker
      ensures docker.Valid() && docker.strays == old(docker.strays) && old(docker.trace) <= docker.trace
      ensures if ok then CanRoll(job) else docker.faults > old(docker.faults) || !CanRoll(job)
      ensures JobGuarantees(job, old(docker.containers), docker.trace, |old(docker.trace)|, docker.containers, ok)
      ensures services == if ok && job.rollback then set s <- job.services :: s.id else old(services)
      ensures !ok ==> Valid() && deployments == old(deployments)
      ensures ok ==> plan.app == app && Finished(plan, job, deployments, services, docker.containers)
      ensures ok ==> OthersStopped(old(deployments), deployments, job, services)
    {
      ghost var before, from := docker.containers, |docker.trace|;
      ok, plan := DeployServices(job);
      JobKeepsGuarantees(plan, app, job, docker.trace, from, docker.containers, ok);
      if !ok {
        SettledAfterFailure(plan, old(deployments), deployments, docker.containers);
      }
    }

    method StoreStatus(id: DeploymentId, status: Status)
      requires Valid() && !IsRunning(deployments, id) && status != Running
      modifies this`deployments
      ensures Valid() && SameRunning(old(deployments), deployments)
      ensures deployments == old(deployments)[id := Deployment(status, RecordsOf(old(deployments), id))]
    {
      deployments := deployments[id := Deployment(status, RecordsOf(deployments, id))];
      FewerContainersStayRecorded(old(deployments), deployments, docker.containers, docker.containers);
    }

    /**
     One job from the queue. It may end before the rollout, superseded or failed. Store writes and
     container removals succeed; everything else may fail.
     */
    method ProcessJob(job: Job) returns (ok: bool, ghost plan: Plan)
      requires Valid() && FreshDeployment(deployments, job.deployment) && DistinctIds(job.services)
      requires StraysApart(app, deployments, job.deployment, docker.strays)
      modifies this, docker
      ensures docker.Valid() && docker.strays == old(docker.strays) && old(docker.trace) <= docker.trace
      ensures JobGuarantees(job, old(docker.containers), docker.trace, |old(docker.trace)|, docker.containers, ok)
      ensures services == if ok && job.rollback then set s <- job.services :: s.id else old(services)
      ensures !ok ==> Valid() && SameRunning(old(deployments), deployments)
      ensures !ok ==> exists status ::
                && deployments == old(deployments)[job.deployment :=
                     Deployment(status, RecordsOf(old(deployments), job.deployment))]
                && (|| (status == Failed && (docker.faults > old(docker.faults) || !CanRoll(job)))
                    || (status == Stopped && docker.trace == old(docker.trace)))
      ensures ok ==> plan.app == app && Finished(plan, job, deployments, services, docker.containers)
      ensures ok ==> CanRoll(job) && OthersStopped(old(deployments), deployments, job, services)
    {
      var superseded: bool := *;
      var built := docker.MayFail();
      NothingHappened(job, docker.containers, docker.trace, false);
      if superseded || !built {
        StoreStatus(job.deployment, if superseded then Stopped else Failed);
        plan :| true;
        return false, plan;
      }
      ok, plan := RolloutJob(job);
      if !ok {
        StoreStatus(job.deployment, Failed);
      }
    }

    /** What the success of a job means for the app's accounts. */
    lemma FinishedMeans(plan: Plan, job: Job)
      requires docker.Valid() && plan.app == app && Finished(plan, job, deployments, services, docker.containers)
      ensures Valid() <==> SpecExists(job.services, services)
      ensures docker.containers.Keys == RecordedIds(deployments[job.deployment].records)
              <==> SpecExists(job.services, services)
    {
      SpecExistsAsPlanned(plan, job.services, services);
      SettledAfterSuccess(plan, job.deployment, services, deployments, docker.containers);
      LiveIsRecordedExactlyWhenServicesExist(plan, services, docker.containers);
    }

    /** A handler of the API creates services. */
    method AddServices(added: set<Id>)
      modifies this`services
      ensures services == old(services) + added
    {
      services := services + added;
    }
  }
}
