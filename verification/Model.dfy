/** The entities the deployment worker moves around: services, specs and deployment records. */
module Model {
  import opened Wrappers

  type Id = nat

  datatype RolloutStrategy = StopFirst | StartFirst

  datatype Status = Pending | Cloning | Building | Pushing | Starting | Running | Failed | Stopped

  /** A service of an app. `hostPorts` are the published host ports of its port mappings. */
  datatype Service = Service(
    id: Id,
    name: string,
    dependsOn: seq<string>,
    replicas: nat,
    hostPorts: set<nat>,
    cronJob: bool,
    healthCheck: bool)

  /** A container as the container runtime knows it: by name. */
  datatype ContainerId = ContainerId(name: string)

  datatype ServiceDeployment = ServiceDeployment(
    serviceId: Id,
    replica: nat,
    status: Status,
    containerId: Option<ContainerId>)

  ghost predicate DistinctNames(services: seq<Service>) {
    forall i, j :: 0 <= i < j < |services| ==> services[i].name != services[j].name
  }

  ghost predicate DistinctIds(services: seq<Service>) {
    forall i, j :: 0 <= i < j < |services| ==> services[i].id != services[j].id
  }

  /** Published host ports of one replica: only the first replica binds any. */
  function PortMappings(service: Service, replica: nat): (ports: set<nat>) {
    if replica != 0 then {} else service.hostPorts
  }
}
