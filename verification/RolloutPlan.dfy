/** What one rollout may do to the containers of its app, state by state. */
module RolloutPlan {
  import opened Model
  import opened ContainerNames

  datatype Container = Container(service: Id, replica: nat, ports: set<nat>)

  /** The live containers of one app. */
  type World = map<ContainerId, Container>

  type Slot = (Id, nat)

  function SlotOf(c: Container): Slot {
    (c.service, c.replica)
  }

  /** One rollout: the spec, the containers found at its start, and the ones recorded for each slot. */
  datatype Plan = Plan(app: string, deployment: Uuid, services: seq<Service>, strategy: RolloutStrategy,
                       before: World, recorded: map<Slot, ContainerId>)

  function NewName(plan: Plan, service: Service, replica: nat): ContainerId {
    ContainerId(ContainerName(plan.app, service.name, replica, ShortId(plan.deployment)))
  }

  function NewContainer(service: Service, replica: nat): Container {
    Container(service.id, replica, PortMappings(service, replica))
  }

  /** The rollout creates a container for this replica. */
  ghost predicate Planned(plan: Plan, service: Service, replica: nat) {
    service in plan.services && !service.cronJob && replica < service.replicas
  }

  /** The old container of the slot goes before the new one comes. */
  predicate StopsFirst(plan: Plan, service: Service, replica: nat) {
    plan.strategy == StopFirst || PortMappings(service, replica) != {}
  }

  ghost predicate IsNew(plan: Plan, name: ContainerId, c: Container) {
    exists service, replica :: Planned(plan, service, replica)
      && name == NewName(plan, service, replica) && c == NewContainer(service, replica)
  }

  /** The live containers are recorded one per slot, and no recorded name is one this rollout prints. */
  ghost predicate Fits(plan: Plan) {
    && DistinctIds(plan.services) && DistinctNames(plan.services)
    && (forall n <- plan.before ::
          SlotOf(plan.before[n]) in plan.recorded && plan.recorded[SlotOf(plan.before[n])] == n)
    && (forall slot <- plan.recorded ::
          plan.recorded[slot] in plan.before ==> SlotOf(plan.before[plan.recorded[slot]]) == slot)
    && (forall slot <- plan.recorded, service, replica ::
          Planned(plan, service, replica) ==> plan.recorded[slot] != NewName(plan, service, replica))
  }

  /** Some replica of the spec takes over this slot stop-first. */
  ghost predicate SlotStopsFirst(plan: Plan, slot: Slot) {
    exists service :: Planned(plan, service, slot.1) && service.id == slot.0 && StopsFirst(plan, service, slot.1)
  }

  ghost predicate AllStarted(plan: Plan, w: World) {
    forall service, replica :: Planned(plan, service, replica) ==>
      NewName(plan, service, replica) in w && w[NewName(plan, service, replica)] == NewContainer(service, replica)
  }

  /** Old and new containers only, and a new one that replaces stop-first never beside the recorded one of its slot. */
  ghost predicate Sound(plan: Plan, w: World) {
    && (forall n <- w :: (n in plan.before && w[n] == plan.before[n]) || IsNew(plan, n, w[n]))
    && (forall n <- w ::
          n !in plan.before && (plan.strategy == StopFirst || w[n].ports != {}) && SlotOf(w[n]) in plan.recorded ==>
          plan.recorded[SlotOf(w[n])] !in w)
  }

  /** A state while replicas are started or a failed rollout is cleaned up. */
  ghost predicate Rolling(plan: Plan, w: World) {
    Sound(plan, w) && forall n <- plan.before :: n !in w ==> SlotStopsFirst(plan, SlotOf(plan.before[n]))
  }

  /** A state while a successful rollout retires the old containers. */
  ghost predicate Retiring(plan: Plan, w: World) {
    Sound(plan, w) && AllStarted(plan, w)
  }

  // ----- what such states guarantee

  lemma NamesIdentifyReplicas(plan: Plan, service: Service, replica: nat, service': Service, replica': nat)
    requires Fits(plan) && service in plan.services && service' in plan.services
    requires NewName(plan, service, replica) == NewName(plan, service', replica')
    ensures service == service' && replica == replica'
  {
    PrintingInjective(plan.app, service.name, replica, ShortId(plan.deployment),
                      service'.name, replica', ShortId(plan.deployment));
    var i :| 0 <= i < |plan.services| && plan.services[i] == service;
    var j :| 0 <= j < |plan.services| && plan.services[j] == service';
  }

  lemma NewNamesAreFresh(plan: Plan, service: Service, replica: nat)
    requires Fits(plan) && Planned(plan, service, replica)
    ensures NewName(plan, service, replica) !in plan.before
  {
  }

  lemma OldIsNotNew(plan: Plan, name: ContainerId, c: Container)
    requires Fits(plan) && name in plan.before
    ensures !IsNew(plan, name, c)
  {
    forall service, replica | Planned(plan, service, replica) ensures name != NewName(plan, service, replica) {
      NewNamesAreFresh(plan, service, replica);
    }
  }

  /** Under start-first, a slot that binds no published host ports keeps its container while replicas start. */
  lemma SlotKeepsItsContainer(plan: Plan, w: World, name: ContainerId)
    requires Fits(plan) && Rolling(plan, w) && name in plan.before && plan.strategy == StartFirst
    requires forall service <- plan.services :: service.id == plan.before[name].service ==>
               PortMappings(service, plan.before[name].replica) == {}
    ensures name in w && w[name] == plan.before[name]
  {
    assert !SlotStopsFirst(plan, SlotOf(plan.before[name]));
    OldIsNotNew(plan, name, w[name]);
  }

  ghost predicate SlotServed(w: World, slot: Slot) {
    exists n <- w :: SlotOf(w[n]) == slot
  }

  /** ... and a slot of the spec stays served while the old containers are retired. */
  lemma SlotStaysServed(plan: Plan, w: World, service: Service, replica: nat)
    requires Retiring(plan, w) && Planned(plan, service, replica)
    ensures SlotServed(w, (service.id, replica))
  {
    var n := NewName(plan, service, replica);
    assert n in w && SlotOf(w[n]) == (service.id, replica);
  }

  ghost predicate PortsExclusive(w: World) {
    forall a <- w, b <- w :: a != b ==> w[a].ports !! w[b].ports
  }

  /** Each host port belongs to one service, the same one in the running containers and in the spec. */
  ghost predicate PortsAgree(before: World, services: seq<Service>) {
    && PortsExclusive(before)
    && (forall n <- before :: before[n].ports != {} ==> before[n].replica == 0)
    && (forall n <- before, service <- services ::
          before[n].ports !! service.hostPorts || before[n].service == service.id)
    && (forall s <- services, t <- services :: s.hostPorts !! t.hostPorts || s == t)
  }

  lemma OldAndNewDoNotClash(plan: Plan, w: World, a: ContainerId, b: ContainerId)
    requires Fits(plan) && PortsAgree(plan.before, plan.services) && Sound(plan, w)
    requires a in w && b in w && a in plan.before && w[a] == plan.before[a] && IsNew(plan, b, w[b])
    ensures w[a].ports !! w[b].ports
  {
    var service, replica :| Planned(plan, service, replica)
      && b == NewName(plan, service, replica) && w[b] == NewContainer(service, replica);
    NewNamesAreFresh(plan, service, replica);
    if SlotOf(w[a]) == SlotOf(w[b]) {
      assert plan.recorded[SlotOf(w[b])] == a && w[b].ports == {};
    }
  }

  /** No two live containers bind the same host port, under either strategy and any replica count. */
  lemma NoPortBoundTwice(plan: Plan, w: World)
    requires Fits(plan) && PortsAgree(plan.before, plan.services) && Sound(plan, w)
    ensures PortsExclusive(w)
  {
    forall a <- w, b <- w | a != b ensures w[a].ports !! w[b].ports {
      if IsNew(plan, a, w[a]) && IsNew(plan, b, w[b]) {
        var s, r :| Planned(plan, s, r) && a == NewName(plan, s, r) && w[a] == NewContainer(s, r);
        var s', r' :| Planned(plan, s', r') && b == NewName(plan, s', r') && w[b] == NewContainer(s', r');
        assert s != s' || r != r';
      } else if IsNew(plan, b, w[b]) {
        OldAndNewDoNotClash(plan, w, a, b);
      } else if IsNew(plan, a, w[a]) {
        OldAndNewDoNotClash(plan, w, b, a);
      }
    }
  }

  ghost predicate OnePerSlot(w: World) {
    forall a <- w, b <- w :: SlotOf(w[a]) == SlotOf(w[b]) ==> a == b
  }

  /** Under stop-first no slot ever has two live containers. */
  lemma NoSlotDoubled(plan: Plan, w: World)
    requires Fits(plan) && plan.strategy == StopFirst && Sound(plan, w)
    ensures OnePerSlot(w)
  {
    forall a <- w, b <- w | SlotOf(w[a]) == SlotOf(w[b]) ensures a == b {
      if IsNew(plan, a, w[a]) && IsNew(plan, b, w[b]) {
        NewOfSlotIsUnique(plan, a, w[a], b, w[b]);
      }
    }
  }

  lemma NewOfSlotIsUnique(plan: Plan, a: ContainerId, c: Container, b: ContainerId, d: Container)
    requires Fits(plan) && IsNew(plan, a, c) && IsNew(plan, b, d) && SlotOf(c) == SlotOf(d)
    ensures a == b
  {
    var s, r :| Planned(plan, s, r) && a == NewName(plan, s, r) && c == NewContainer(s, r);
    var s', r' :| Planned(plan, s', r') && b == NewName(plan, s', r') && d == NewContainer(s', r');
    var i :| 0 <= i < |plan.services| && plan.services[i] == s;
    var j :| 0 <= j < |plan.services| && plan.services[j] == s';
  }

  // ----- how the worker's container operations keep to the plan

  lemma CreateKeepsSound(plan: Plan, w: World, service: Service, replica: nat)
    requires Fits(plan) && Sound(plan, w) && Planned(plan, service, replica)
    requires StopsFirst(plan, service, replica) && (service.id, replica) in plan.recorded ==>
               plan.recorded[(service.id, replica)] !in w
    ensures Sound(plan, w[NewName(plan, service, replica) := NewContainer(service, replica)])
  {
    var name, c := NewName(plan, service, replica), NewContainer(service, replica);
    var w' := w[name := c];
    NewNamesAreFresh(plan, service, replica);
    assert IsNew(plan, name, c);
  }

  lemma RemoveKeepsSound(plan: Plan, w: World, name: ContainerId)
    requires Sound(plan, w)
    ensures Sound(plan, w - {name})
  {
  }
}
