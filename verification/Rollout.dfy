/** The worker's rollout of one deployment over the container runtime, and runs of many jobs. */
module Rollout {
  import opened Wrappers
  import opened Model
  import opened RolloutPlan

  /** The container runtime, seen through the live containers of one app. */
  class Docker {
    var containers: World        // accounted for by records, or by a rollout under way
    var strays: World            // left behind by rollouts of services that were gone in the end
    ghost var trace: seq<World>  // every state of the former so far, the current one last
    ghost var faults: nat        // how often something failed that a job depends on

    ghost predicate Valid()
      reads this
    {
      trace != [] && trace[|trace| - 1] == containers
    }

    constructor ()
      ensures Valid() && containers == map[] && strays == map[] && trace == [map[]]
    {
      containers, strays, trace, faults := map[], map[], [map[]], 0;
    }

    /** May fail, and a failed start may leave the container behind. A taken name always fails. */
    method Create(name: ContainerId, c: Container) returns (ok: bool)
      requires Valid()
      modifies this
      ensures Valid() && trace == old(trace) + [containers] && strays == old(strays)
      ensures containers == old(containers) || (name !in old(containers) && containers == old(containers)[name := c])
      ensures name in strays ==> !ok && containers == old(containers)
      ensures ok ==> name !in old(containers) && containers == old(containers)[name := c]
      ensures faults == old(faults) || (!ok && faults == old(faults) + 1)
      ensures !ok ==> faults > old(faults) || name in old(containers) || name in strays
    {
      ok := *;
      var leaves: bool := *;
      if name in containers || name in strays {
        ok := false;
      } else {
        if ok || leaves {
          containers := containers[name := c];
        }
        faults := if ok then faults else faults + 1;
      }
      trace := trace + [containers];
    }

    /** Stops and removes a container; one that does not exist is no error. */
    method Remove(name: ContainerId)
      requires Valid()
      modifies this
      ensures Valid() && trace == old(trace) + [containers]
      ensures containers == old(containers) - {name} && strays == old(strays) - {name} && faults == old(faults)
    {
      containers, strays := containers - {name}, strays - {name};
      trace := trace + [containers];
    }

    /** Something that a job depends on may fail. */
    method MayFail() returns (ok: bool)
      requires Valid()
      modifies this`faults
      ensures Valid() && faults == if ok then old(faults) else old(faults) + 1
    {
      ok := *;
      faults := if ok then faults else faults + 1;
    }

    /** Nothing happens to the containers with these names, but no record accounts for them any more. */
    method Abandon(names: set<ContainerId>)
      requires Valid() && names <= containers.Keys
      modifies this
      ensures Valid() && trace == old(trace) + [containers]
      ensures containers == old(containers) - names
      ensures strays == old(strays) + (map n <- names :: old(containers)[n]) && faults == old(faults)
    {
      strays := strays + map n <- names :: containers[n];
      containers := containers - names;
      trace := trace + [containers];
    }
  }

  /** The rollout neither creates nor removes a container under the name of a stray one. */
  ghost predicate Apart(plan: Plan, strays: World) {
    && (forall slot <- plan.recorded :: plan.recorded[slot] !in strays)
    && (forall service, replica :: Planned(plan, service, replica) ==> NewName(plan, service, replica) !in strays)
  }

  /** Every state recorded from position `from` on is one of starting replicas. */
  ghost predicate AllRolling(plan: Plan, trace: seq<World>, from: nat) {
    forall i :: from <= i < |trace| ==> Rolling(plan, trace[i])
  }

  /** Every planned replica before replica `r` of the service at `i` has its container. */
  ghost predicate StartedUpTo(plan: Plan, w: World, i: nat, r: nat) {
    forall j, q: nat ::
      0 <= j < |plan.services| && Planned(plan, plan.services[j], q) && (j < i || (j == i && q < r)) ==>
      NewName(plan, plan.services[j], q) in w
      && w[NewName(plan, plan.services[j], q)] == NewContainer(plan.services[j], q)
  }

  function ReplicaRecords(plan: Plan, service: Service, n: nat): seq<ServiceDeployment> {
    if n == 0 then []
    else ReplicaRecords(plan, service, n - 1)
         + [ServiceDeployment(service.id, n - 1, Running, Some(NewName(plan, service, n - 1)))]
  }

  function ServiceRecords(plan: Plan, service: Service): seq<ServiceDeployment> {
    if service.cronJob then [ServiceDeployment(service.id, 0, Stopped, None)]
    else ReplicaRecords(plan, service, service.replicas)
  }

  /** The records of the first `n` services, in rollout order. */
  function Records(plan: Plan, n: nat): seq<ServiceDeployment>
    requires n <= |plan.services|
  {
    if n == 0 then [] else Records(plan, n - 1) + ServiceRecords(plan, plan.services[n - 1])
  }

  lemma StartedNext(plan: Plan, w: World, i: nat, r: nat)
    requires i < |plan.services| && StartedUpTo(plan, w, i, r)
    requires plan.services[i].cronJob || r >= plan.services[i].replicas
    ensures StartedUpTo(plan, w, i + 1, 0)
  {
  }

  lemma StartedOneMore(plan: Plan, w: World, i: nat, r: nat)
    requires i < |plan.services| && StartedUpTo(plan, w, i, r)
    requires NewName(plan, plan.services[i], r) in w
    requires w[NewName(plan, plan.services[i], r)] == NewContainer(plan.services[i], r)
    ensures StartedUpTo(plan, w, i, r + 1)
  {
  }

  lemma StartedKeeps(plan: Plan, w: World, w': World, i: nat, r: nat)
    requires Fits(plan) && StartedUpTo(plan, w, i, r)
    requires forall n <- w :: n !in plan.before ==> n in w' && w'[n] == w[n]
    ensures StartedUpTo(plan, w', i, r)
  {
    forall j, q: nat | 0 <= j < |plan.services| && Planned(plan, plan.services[j], q) && (j < i || (j == i && q < r))
      ensures NewName(plan, plan.services[j], q) in w'
              && w'[NewName(plan, plan.services[j], q)] == NewContainer(plan.services[j], q)
    {
      NewNamesAreFresh(plan, plan.services[j], q);
    }
  }

  lemma AllStartedAtEnd(plan: Plan, w: World)
    requires StartedUpTo(plan, w, |plan.services|, 0)
    ensures AllStarted(plan, w)
  {
    forall service, replica | Planned(plan, service, replica)
      ensures NewName(plan, service, replica) in w
              && w[NewName(plan, service, replica)] == NewContainer(service, replica)
    {
      var j :| 0 <= j < |plan.services| && plan.services[j] == service;
    }
  }

  lemma RemoveOldKeepsStarting(plan: Plan, w: World, service: Service, replica: nat)
    requires Fits(plan) && Rolling(plan, w) && Planned(plan, service, replica)
    requires StopsFirst(plan, service, replica) && (service.id, replica) in plan.recorded
    ensures Rolling(plan, w - {plan.recorded[(service.id, replica)]})
  {
    var name := plan.recorded[(service.id, replica)];
    RemoveKeepsSound(plan, w, name);
    if name in plan.before {
      assert SlotStopsFirst(plan, SlotOf(plan.before[name]));
    }
  }

  /** The old container of the slot is not there, or the new one may come beside it. */
  ghost predicate Cleared(plan: Plan, w: World, service: Service, replica: nat) {
    StopsFirst(plan, service, replica) && (service.id, replica) in plan.recorded ==>
      plan.recorded[(service.id, replica)] !in w
  }

  /** Nothing happened, or one thing that left these containers. */
  ghost predicate AtMostOneStep(trace0: seq<World>, trace: seq<World>, w: World) {
    trace == trace0 || trace == trace0 + [w]
  }

  /** Stop-first, or with published host ports, the old container goes before anything else happens. */
  method RetireOld(docker: Docker, plan: Plan, service: Service, replica: nat)
    requires docker.Valid() && Fits(plan) && Rolling(plan, docker.containers) && Planned(plan, service, replica)
    requires Apart(plan, docker.strays)
    modifies docker
    ensures docker.Valid() && docker.strays == old(docker.strays) && Rolling(plan, docker.containers)
    ensures AtMostOneStep(old(docker.trace), docker.trace, docker.containers)
    ensures Cleared(plan, docker.containers, service, replica)
    ensures docker.faults == old(docker.faults)
    ensures forall n <- docker.containers :: n in old(docker.containers)
    ensures forall n <- old(docker.containers) :: n !in plan.before || !StopsFirst(plan, service, replica) ==>
              n in docker.containers && docker.containers[n] == old(docker.containers)[n]
  {
    var slot := (service.id, replica);
    if slot in plan.recorded && StopsFirst(plan, service, replica) {
      RemoveOldKeepsStarting(plan, docker.containers, service, replica);
      RecordedIsOld(plan, docker.containers, slot);
      docker.Remove(plan.recorded[slot]);
    }
  }

  /** A recorded container that lives is one found at the start. */
  lemma RecordedIsOld(plan: Plan, w: World, slot: Slot)
    requires Fits(plan) && Sound(plan, w) && slot in plan.recorded
    ensures plan.recorded[slot] in w ==> plan.recorded[slot] in plan.before
  {
  }

  /** Pull, mounts, create or health check may each fail. */
  method CreateNew(docker: Docker, plan: Plan, service: Service, replica: nat, created0: set<ContainerId>)
    returns (ok: bool, created: set<ContainerId>)
    requires docker.Valid() && Fits(plan) && Rolling(plan, docker.containers) && Planned(plan, service, replica)
    requires Cleared(plan, docker.containers, service, replica)
    modifies docker
    ensures docker.Valid() && docker.strays == old(docker.strays) && Rolling(plan, docker.containers)
    ensures AtMostOneStep(old(docker.trace), docker.trace, docker.containers)
    ensures Cleared(plan, docker.containers, service, replica)
    ensures !ok ==> docker.faults > old(docker.faults) || NewName(plan, service, replica) in old(docker.containers)
                    || NewName(plan, service, replica) in docker.strays
    ensures docker.faults >= old(docker.faults)
    ensures created == created0 || created == created0 + {NewName(plan, service, replica)}
    ensures forall n <- docker.containers :: n in old(docker.containers) || n in created
    ensures forall n <- old(docker.containers) ::
              n in docker.containers && docker.containers[n] == old(docker.containers)[n]
    ensures ok ==> NewName(plan, service, replica) in docker.containers
                   && docker.containers[NewName(plan, service, replica)] == NewContainer(service, replica)
  {
    created := created0;
    var prepared := docker.MayFail();
    if !prepared {
      return false, created;
    }
    var name := NewName(plan, service, replica);
    created := created + {name};
    CreateKeepsSound(plan, docker.containers, service, replica);
    ok := docker.Create(name, NewContainer(service, replica));
    if ok && service.healthCheck {
      ok := docker.MayFail();
    }
  }

  lemma TwoStepsRolling(plan: Plan, service: Service, replica: nat, trace0: seq<World>, trace1: seq<World>,
                        trace: seq<World>, w1: World, w: World)
    requires AtMostOneStep(trace0, trace1, w1) && Rolling(plan, w1) && Cleared(plan, w1, service, replica)
    requires AtMostOneStep(trace1, trace, w) && Rolling(plan, w) && Cleared(plan, w, service, replica)
    ensures trace0 <= trace && AllRolling(plan, trace, |trace0|)
    ensures forall i :: |trace0| <= i < |trace| ==> Cleared(plan, trace[i], service, replica)
  {
    assert forall i :: |trace0| <= i < |trace| ==> trace[i] in {w1, w};
  }

  /** Replaces one replica. */
  method StartReplica(docker: Docker, plan: Plan, service: Service, replica: nat, created0: set<ContainerId>)
    returns (ok: bool, created: set<ContainerId>)
    requires docker.Valid() && Fits(plan) && Rolling(plan, docker.containers) && Planned(plan, service, replica)
    requires Apart(plan, docker.strays)
    modifies docker
    ensures docker.Valid() && docker.strays == old(docker.strays) && old(docker.trace) <= docker.trace
    ensures AllRolling(plan, docker.trace, |old(docker.trace)|) && Rolling(plan, docker.containers)
    ensures !ok ==> docker.faults > old(docker.faults) || NewName(plan, service, replica) in old(docker.containers)
    ensures docker.faults >= old(docker.faults)
    ensures created == created0 || created == created0 + {NewName(plan, service, replica)}
    ensures forall n <- docker.containers :: n in old(docker.containers) || n in created
    ensures forall n <- old(docker.containers) :: n !in plan.before || !StopsFirst(plan, service, replica) ==>
              n in docker.containers && docker.containers[n] == old(docker.containers)[n]
    ensures ok ==> NewName(plan, service, replica) in docker.containers
                   && docker.containers[NewName(plan, service, replica)] == NewContainer(service, replica)
    // stop-first, the old container is gone in every state from here on
    ensures forall i :: |old(docker.trace)| <= i < |docker.trace| ==> Cleared(plan, docker.trace[i], service, replica)
  {
    ghost var trace0 := docker.trace;
    RetireOld(docker, plan, service, replica);
    ghost var trace1, w1 := docker.trace, docker.containers;
    ok, created := CreateNew(docker, plan, service, replica, created0);
    TwoStepsRolling(plan, service, replica, trace0, trace1, docker.trace, w1, docker.containers);
  }

  /** All names this rollout has asked the runtime to create so far. */
  ghost predicate CreatedByPlan(plan: Plan, created: set<ContainerId>) {
    forall n <- created ::
      exists service, replica :: Planned(plan, service, replica) && n == NewName(plan, service, replica)
  }

  /** ... each of them for a replica before replica `r` of the service at `i`. */
  ghost predicate CreatedUpTo(plan: Plan, created: set<ContainerId>, i: nat, r: nat) {
    forall n <- created :: exists j, q: nat ::
      && 0 <= j < |plan.services| && Planned(plan, plan.services[j], q) && (j < i || (j == i && q < r))
      && n == NewName(plan, plan.services[j], q)
  }

  lemma CreatedUpToIsByPlan(plan: Plan, created: set<ContainerId>, i: nat, r: nat)
    requires CreatedUpTo(plan, created, i, r)
    ensures CreatedByPlan(plan, created)
  {
  }

  lemma CreatedOneMore(plan: Plan, created: set<ContainerId>, i: nat, r: nat)
    requires i < |plan.services| && CreatedUpTo(plan, created, i, r) && Planned(plan, plan.services[i], r)
    ensures CreatedUpTo(plan, created, i, r + 1)
    ensures CreatedUpTo(plan, created + {NewName(plan, plan.services[i], r)}, i, r + 1)
  {
    forall n <- created + {NewName(plan, plan.services[i], r)}
      ensures exists j, q: nat ::
                && 0 <= j < |plan.services| && Planned(plan, plan.services[j], q) && (j < i || (j == i && q < r + 1))
                && n == NewName(plan, plan.services[j], q)
    {
      if n in created {
        var j, q: nat :|
          && 0 <= j < |plan.services| && Planned(plan, plan.services[j], q) && (j < i || (j == i && q < r))
          && n == NewName(plan, plan.services[j], q);
      }
    }
  }

  lemma CreatedNext(plan: Plan, created: set<ContainerId>, i: nat, r: nat)
    requires CreatedUpTo(plan, created, i, r)
    ensures CreatedUpTo(plan, created, i + 1, 0)
  {
    forall n <- created
      ensures exists j, q: nat ::
                && 0 <= j < |plan.services| && Planned(plan, plan.services[j], q)
                && (j < i + 1 || (j == i + 1 && q < 0))
                && n == NewName(plan, plan.services[j], q)
    {
      var j, q: nat :|
        && 0 <= j < |plan.services| && Planned(plan, plan.services[j], q) && (j < i || (j == i && q < r))
        && n == NewName(plan, plan.services[j], q);
    }
  }

  /** The name of the next replica is not taken. */
  lemma NextNameIsFree(plan: Plan, created: set<ContainerId>, w: World, i: nat, r: nat)
    requires Fits(plan) && i < |plan.services| && Planned(plan, plan.services[i], r)
    requires CreatedUpTo(plan, created, i, r) && forall n <- w :: n in plan.before || n in created
    ensures NewName(plan, plan.services[i], r) !in w
  {
    var name := NewName(plan, plan.services[i], r);
    NewNamesAreFresh(plan, plan.services[i], r);
    if name in created {
      var j, q: nat :|
        && 0 <= j < |plan.services| && Planned(plan, plan.services[j], q) && (j < i || (j == i && q < r))
        && name == NewName(plan, plan.services[j], q);
      NamesIdentifyReplicas(plan, plan.services[i], r, plan.services[j], q);
    }
  }

  method StartNextReplica(docker: Docker, plan: Plan, ghost i: nat, service: Service, replica: nat,
                          created0: set<ContainerId>)
    returns (ok: bool, created: set<ContainerId>)
    requires docker.Valid() && Fits(plan) && Rolling(plan, docker.containers)
    requires i < |plan.services| && service == plan.services[i] && Planned(plan, service, replica)
    requires StartedUpTo(plan, docker.containers, i, replica) && CreatedUpTo(plan, created0, i, replica)
    requires forall n <- docker.containers :: n in plan.before || n in created0
    requires Apart(plan, docker.strays)
    modifies docker
    ensures docker.strays == old(docker.strays)
    ensures docker.Valid() && old(docker.trace) <= docker.trace
    ensures AllRolling(plan, docker.trace, |old(docker.trace)|) && Rolling(plan, docker.containers)
    ensures CreatedUpTo(plan, created, i, replica + 1)
    ensures docker.faults >= old(docker.faults) && (!ok ==> docker.faults > old(docker.faults))
    ensures forall n <- docker.containers :: n in plan.before || n in created
    ensures ok ==> StartedUpTo(plan, docker.containers, i, replica + 1)
  {
    NextNameIsFree(plan, created0, docker.containers, i, replica);
    CreatedOneMore(plan, created0, i, replica);
    ok, created := StartReplica(docker, plan, service, replica, created0);
    if ok {
      StartedKeeps(plan, old(docker.containers), docker.containers, i, replica);
      StartedOneMore(plan, docker.containers, i, replica);
    }
  }

  lemma AllRollingOn(plan: Plan, trace0: seq<World>, trace: seq<World>, from: nat)
    requires AllRolling(plan, trace0, from) && trace0 <= trace && AllRolling(plan, trace, |trace0|)
    ensures AllRolling(plan, trace, from)
  {
    assert forall i :: from <= i < |trace0| ==> trace[i] == trace0[i];
  }

  method StartReplicas(docker: Docker, plan: Plan, ghost i: nat, service: Service, created0: set<ContainerId>)
    returns (ok: bool, records: seq<ServiceDeployment>, created: set<ContainerId>)
    requires docker.Valid() && Fits(plan) && Rolling(plan, docker.containers)
    requires i < |plan.services| && service == plan.services[i] && !service.cronJob
    requires StartedUpTo(plan, docker.containers, i, 0) && CreatedUpTo(plan, created0, i, 0)
    requires forall n <- docker.containers :: n in plan.before || n in created0
    requires Apart(plan, docker.strays)
    modifies docker
    ensures docker.strays == old(docker.strays)
    ensures docker.Valid() && old(docker.trace) <= docker.trace
    ensures AllRolling(plan, docker.trace, |old(docker.trace)|) && Rolling(plan, docker.containers)
    ensures CreatedUpTo(plan, created, i + 1, 0)
    ensures docker.faults >= old(docker.faults) && (!ok ==> docker.faults > old(docker.faults))
    ensures forall n <- docker.containers :: n in plan.before || n in created
    ensures ok ==> StartedUpTo(plan, docker.containers, i, service.replicas)
                   && records == ReplicaRecords(plan, service, service.replicas)
  {
    records, created := [], created0;
    for r := 0 to service.replicas
      invariant docker.Valid() && docker.strays == old(docker.strays) && old(docker.trace) <= docker.trace
      invariant AllRolling(plan, docker.trace, |old(docker.trace)|) && Rolling(plan, docker.containers)
      invariant CreatedUpTo(plan, created, i, r) && docker.faults >= old(docker.faults)
      invariant forall n <- docker.containers :: n in plan.before || n in created
      invariant StartedUpTo(plan, docker.containers, i, r)
      invariant records == ReplicaRecords(plan, service, r)
    {
      ghost var trace := docker.trace;
      ok, created := StartNextReplica(docker, plan, i, service, r, created);
      AllRollingOn(plan, trace, docker.trace, |old(docker.trace)|);
      if !ok {
        CreatedNext(plan, created, i, r + 1);
        return;
      }
      records := records + [ServiceDeployment(service.id, r, Running, Some(NewName(plan, service, r)))];
    }
    CreatedNext(plan, created, i, service.replicas);
    ok := true;
  }

  /** A service without an image fails the rollout; a cron job is only recorded. */
  method StartService(docker: Docker, plan: Plan, ghost i: nat, service: Service, images: set<Id>,
                      created0: set<ContainerId>)
    returns (ok: bool, records: seq<ServiceDeployment>, created: set<ContainerId>)
    requires docker.Valid() && Fits(plan) && Rolling(plan, docker.containers)
    requires i < |plan.services| && service == plan.services[i]
    requires StartedUpTo(plan, docker.containers, i, 0) && CreatedUpTo(plan, created0, i, 0)
    requires forall n <- docker.containers :: n in plan.before || n in created0
    requires Apart(plan, docker.strays)
    modifies docker
    ensures docker.strays == old(docker.strays)
    ensures docker.Valid() && old(docker.trace) <= docker.trace
    ensures AllRolling(plan, docker.trace, |old(docker.trace)|) && Rolling(plan, docker.containers)
    ensures CreatedUpTo(plan, created, i + 1, 0)
    ensures docker.faults >= old(docker.faults)
    ensures !ok ==> docker.faults > old(docker.faults) || service.id !in images
    ensures forall n <- docker.containers :: n in plan.before || n in created
    ensures ok ==> StartedUpTo(plan, docker.containers, i + 1, 0) && records == ServiceRecords(plan, service)
    ensures ok ==> service.id in images
  {
    CreatedNext(plan, created0, i, 0);
    if service.id !in images {
      return false, [], created0;
    }
    if service.cronJob {
      StartedNext(plan, docker.containers, i, 0);
      return true, [ServiceDeployment(service.id, 0, Stopped, None)], created0;
    }
    ok, records, created := StartReplicas(docker, plan, i, service, created0);
    if ok {
      StartedNext(plan, docker.containers, i, service.replicas);
    }
  }

  /** The first `n` services have an image. */
  ghost predicate HaveImages(plan: Plan, n: nat, images: set<Id>)
    requires n <= |plan.services|
  {
    forall i :: 0 <= i < n ==> plan.services[i].id in images
  }

  /** Starts every replica of every service in order. The created names are known to the caller on failure too. */
  method RolloutServices(docker: Docker, plan: Plan, images: set<Id>)
    returns (ok: bool, records: seq<ServiceDeployment>, created: set<ContainerId>)
    requires docker.Valid() && Fits(plan) && docker.containers == plan.before
    requires Apart(plan, docker.strays)
    modifies docker
    ensures docker.strays == old(docker.strays)
    ensures docker.Valid() && old(docker.trace) <= docker.trace
    ensures AllRolling(plan, docker.trace, |old(docker.trace)|) && Rolling(plan, docker.containers)
    ensures CreatedByPlan(plan, created)
    ensures docker.faults >= old(docker.faults)
    ensures !ok ==> docker.faults > old(docker.faults) || exists s <- plan.services :: s.id !in images
    ensures forall n <- docker.containers :: n in plan.before || n in created
    ensures ok ==> AllStarted(plan, docker.containers) && records == Records(plan, |plan.services|)
    ensures ok ==> HaveImages(plan, |plan.services|, images)
  {
    records, created := [], {};
    for i := 0 to |plan.services|
      invariant docker.Valid() && docker.strays == old(docker.strays) && old(docker.trace) <= docker.trace
      invariant AllRolling(plan, docker.trace, |old(docker.trace)|) && Rolling(plan, docker.containers)
      invariant CreatedUpTo(plan, created, i, 0) && docker.faults >= old(docker.faults)
      invariant forall n <- docker.containers :: n in plan.before || n in created
      invariant StartedUpTo(plan, docker.containers, i, 0)
      invariant records == Records(plan, i)
      invariant HaveImages(plan, i, images)
    {
      var started: seq<ServiceDeployment>;
      ghost var trace := docker.trace;
      ok, started, created := StartService(docker, plan, i, plan.services[i], images, created);
      AllRollingOn(plan, trace, docker.trace, |old(docker.trace)|);
      if !ok {
        CreatedUpToIsByPlan(plan, created, i + 1, 0);
        return;
      }
      records := records + started;
    }
    AllStartedAtEnd(plan, docker.containers);
    CreatedUpToIsByPlan(plan, created, |plan.services|, 0);
    ok := true;
  }

  lemma RemoveCreatedKeepsRolling(plan: Plan, w: World, name: ContainerId, created: set<ContainerId>)
    requires Fits(plan) && Rolling(plan, w) && CreatedByPlan(plan, created) && name in created
    ensures name !in plan.before && Rolling(plan, w - {name})
  {
    var service, replica :| Planned(plan, service, replica) && name == NewName(plan, service, replica);
    NewNamesAreFresh(plan, service, replica);
    RemoveKeepsSound(plan, w, name);
  }

  /** Removes one of the containers the rollout created. */
  method RemoveOneCreated(docker: Docker, plan: Plan, created: set<ContainerId>, name: ContainerId)
    requires docker.Valid() && Fits(plan) && Rolling(plan, docker.containers) && CreatedByPlan(plan, created)
    requires name in created && name !in docker.strays
    modifies docker
    ensures docker.Valid() && Rolling(plan, docker.containers)
    ensures docker.strays == old(docker.strays) && docker.faults == old(docker.faults)
    ensures docker.trace == old(docker.trace) + [docker.containers]
    ensures docker.containers == old(docker.containers) - {name}
  {
    RemoveCreatedKeepsRolling(plan, docker.containers, name, created);
    docker.Remove(name);
  }

  lemma CreatedApart(plan: Plan, created: set<ContainerId>, strays: World)
    requires CreatedByPlan(plan, created) && Apart(plan, strays)
    ensures forall n <- created :: n !in strays
  {
  }

  /** A failed rollout does not leak the containers it created. */
  method RemoveCreated(docker: Docker, plan: Plan, created: set<ContainerId>)
    requires docker.Valid() && Fits(plan) && Rolling(plan, docker.containers) && CreatedByPlan(plan, created)
    requires forall n <- docker.containers :: n in plan.before || n in created
    requires Apart(plan, docker.strays)
    modifies docker
    ensures docker.strays == old(docker.strays) && docker.faults == old(docker.faults)
    ensures docker.Valid() && old(docker.trace) <= docker.trace
    ensures AllRolling(plan, docker.trace, |old(docker.trace)|) && Rolling(plan, docker.containers)
    ensures forall n <- docker.containers :: n in plan.before
  {
    CreatedApart(plan, created, docker.strays);
    var rest := created;
    while rest != {}
      invariant docker.Valid() && docker.strays == old(docker.strays) && docker.faults == old(docker.faults)
      invariant old(docker.trace) <= docker.trace && rest <= created
      invariant AllRolling(plan, docker.trace, |old(docker.trace)|) && Rolling(plan, docker.containers)
      invariant forall n <- docker.containers :: n in plan.before || n in rest
    {
      var name :| name in rest;
      ghost var trace := docker.trace;
      RemoveOneCreated(docker, plan, created, name);
      AllRollingOn(plan, trace, docker.trace, |old(docker.trace)|);
      rest := rest - {name};
    }
  }

  ghost predicate AllRetiring(plan: Plan, trace: seq<World>, from: nat) {
    forall i :: from <= i < |trace| ==> Retiring(plan, trace[i])
  }

  lemma RemoveOldKeepsRetiring(plan: Plan, w: World, name: ContainerId, created: set<ContainerId>)
    requires Retiring(plan, w) && name !in created
    requires forall service, replica :: Planned(plan, service, replica) ==> NewName(plan, service, replica) in created
    ensures Retiring(plan, w - {name})
  {
    RemoveKeepsSound(plan, w, name);
  }

  /** After a success every recorded container that is not part of the rollout goes. */
  method RemoveOld(docker: Docker, plan: Plan, recorded: set<ContainerId>, created: set<ContainerId>)
    requires docker.Valid() && Retiring(plan, docker.containers)
    requires forall n <- docker.containers :: n in recorded || n in created
    requires forall service, replica :: Planned(plan, service, replica) ==> NewName(plan, service, replica) in created
    requires forall n <- recorded :: n !in docker.strays
    modifies docker
    ensures docker.strays == old(docker.strays) && docker.faults == old(docker.faults)
    ensures docker.Valid() && old(docker.trace) <= docker.trace
    ensures AllRetiring(plan, docker.trace, |old(docker.trace)|) && Retiring(plan, docker.containers)
    ensures forall n <- docker.containers :: n in created
  {
    var rest := recorded;
    while rest != {}
      invariant docker.Valid() && docker.strays == old(docker.strays) && docker.faults == old(docker.faults)
      invariant old(docker.trace) <= docker.trace && rest <= recorded
      invariant AllRetiring(plan, docker.trace, |old(docker.trace)|) && Retiring(plan, docker.containers)
      invariant forall n <- docker.containers :: n in rest || n in created
    {
      var name :| name in rest;
      if name !in created {
        RemoveOldKeepsRetiring(plan, docker.containers, name, created);
        docker.Remove(name);
      }
      rest := rest - {name};
    }
  }
}
