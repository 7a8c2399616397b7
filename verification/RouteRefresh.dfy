/**
 Refreshing the routes of one app: its old routes go, and each public service gets routes to the
 containers that the newest running deployment recorded.
 */
module RouteRefresh {
  import opened Wrappers
  import opened Model
  import opened Sequences
  import opened Text
  import opened Domains
  import opened ContainerNames
  import RouteTable

  /** A domain as configured. */
  datatype HostName = HostName(text: string)

  datatype Upstream = Upstream(host: string, port: nat)

  /** What a refresh writes about a route. */
  datatype RouteInfo = RouteInfo(
    app: Option<Id>, service: Option<Id>, upstreams: seq<Upstream>,
    algorithm: RouteTable.Algorithm, basicAuth: Option<RouteTable.BasicAuth>)

  type Table = map<Domain, RouteInfo>

  /** How a configured domain becomes a key: `DomainOf`, of which little else is needed here. */
  type Normalizer = string -> Domain

  /** A service; `domainLabel` is the label of its default domain, derived from its id. */
  datatype AppService = AppService(
    id: Id, domainLabel: string, name: string, port: nat, webService: bool, domains: seq<HostName>,
    basicAuth: Option<RouteTable.BasicAuth>)

  datatype App = App(id: Id, idText: string, name: string, services: seq<AppService>)

  datatype Deployment = Deployment(status: Status, snapshot: Option<App>, records: seq<ServiceDeployment>)

  /** What a refresh looks at: the app, its newest running deployment and the container listing. */
  datatype Observed = Observed(
    app: App, base: string, algorithm: RouteTable.Algorithm, running: Option<Deployment>,
    names: seq<ContainerId>, addresses: ContainerId -> Option<string>)

  // ----- domains of a service

  function ServiceSubdomain(s: AppService, base: string): HostName {
    var bare := TrimEndDots(Trim(base));
    HostName(if bare == "" then s.name else s.domainLabel + "." + bare)
  }

  function CustomDomains(hosts: seq<HostName>): seq<HostName> {
    if hosts == [] then []
    else
      var before, last := CustomDomains(hosts[..|hosts| - 1]), hosts[|hosts| - 1];
      if Trim(last.text) != "" && last !in before then before + [last] else before
  }

  function DomainsFor(s: AppService, base: string): seq<HostName> {
    Distinct([ServiceSubdomain(s, base)] + CustomDomains(s.domains))
  }

  lemma {:induction false} CustomDomainsExactly(hosts: seq<HostName>, h: HostName)
    ensures h in CustomDomains(hosts) <==> h in hosts && Trim(h.text) != ""
  {
    if hosts != [] {
      var init, last := hosts[..|hosts| - 1], hosts[|hosts| - 1];
      CustomDomainsExactly(init, h);
      CustomDomainsExactly(init, last);
      assert hosts == init + [last];
    }
  }

  /** They keep the order in which they are configured: further domains come behind. */
  lemma {:induction false} CustomDomainsGrow(hosts: seq<HostName>, more: seq<HostName>)
    ensures CustomDomains(hosts) <= CustomDomains(hosts + more)
  {
    if more == [] {
      assert hosts + more == hosts;
    } else {
      var init := more[..|more| - 1];
      CustomDomainsGrow(hosts, init);
      assert (hosts + more)[..|hosts + more| - 1] == hosts + init;
    }
  }

  /** A service is served under its default domain and its non-blank custom domains, each once. */
  lemma DomainsForExactly(s: AppService, base: string, h: HostName)
    ensures h in DomainsFor(s, base) <==> h == ServiceSubdomain(s, base) || (h in s.domains && Trim(h.text) != "")
    ensures NoRepeats(DomainsFor(s, base))
  {
    CustomDomainsExactly(s.domains, h);
    DistinctKeepsElements([ServiceSubdomain(s, base)] + CustomDomains(s.domains));
  }

  method DomainsForService(s: AppService, base: string) returns (domains: seq<HostName>)
    ensures domains == DomainsFor(s, base)
  {
    var subdomain := ServiceSubdomain(s, base);
    assert [subdomain][..0] == [];
    domains := AppendNew([subdomain], CustomDomains(s.domains));
  }

  // ----- upstreams of a service

  /** The newest running deployment of a list that has the newest first. */
  function NewestRunning(deployments: seq<Deployment>): Option<Deployment> {
    FirstSuch(deployments, (d: Deployment) => d.status == Running)
  }

  /** Nothing newer than the deployment that is routed to is running. */
  lemma NewestRunningExactly(deployments: seq<Deployment>)
    ensures NewestRunning(deployments).None? <==> forall d <- deployments :: d.status != Running
    ensures NewestRunning(deployments).Some? ==> exists i ::
                && 0 <= i < |deployments| && deployments[i] == NewestRunning(deployments).value
                && deployments[i].status == Running && forall j :: 0 <= j < i ==> deployments[j].status != Running
  {
    FirstSuchExactly(deployments, (d: Deployment) => d.status == Running);
  }

  /** Containers the deployment recorded for a service. */
  function RecordedIds(records: seq<ServiceDeployment>, service: Id): set<ContainerId> {
    set sd <- records | sd.serviceId == service && sd.containerId.Some? :: sd.containerId.value
  }

  function ActiveIds(o: Observed, service: Id): set<ContainerId> {
    if o.running.None? then {} else RecordedIds(o.running.value.records, service)
  }

  function RuntimeApp(o: Observed): App {
    if o.running.Some? && o.running.value.snapshot.Some? then o.running.value.snapshot.value else o.app
  }

  function FindService(services: seq<AppService>, id: Id): Option<AppService> {
    FirstSuch(services, (s: AppService) => s.id == id)
  }

  /** The service as the running deployment knew it, or as it is now. */
  function RuntimeService(o: Observed, s: AppService): AppService {
    var found := FindService(RuntimeApp(o).services, s.id);
    if found.Some? then found.value else s
  }

  function TrimSlashes(s: string): string {
    if s != "" && s[0] == '/' then TrimSlashes(s[1..]) else s
  }

  /** The slashes at the front go, and nothing else. */
  lemma {:induction false} TrimSlashesExactly(s: string) returns (slashes: string)
    ensures s == slashes + TrimSlashes(s) && forall c <- slashes :: c == '/'
    ensures TrimSlashes(s) == "" || TrimSlashes(s)[0] != '/'
  {
    if s != "" && s[0] == '/' {
      var rest := TrimSlashesExactly(s[1..]);
      slashes := [s[0]] + rest;
      Associative([s[0]], rest, TrimSlashes(s[1..]));
      assert s == [s[0]] + s[1..];
    } else {
      slashes := "";
    }
  }

  /** The spec the running deployment was made from, or the present one. */
  ghost predicate IsRuntimeSpec(o: Observed, services: seq<AppService>) {
    if o.running.Some? && o.running.value.snapshot.Some? then services == o.running.value.snapshot.value.services
    else services == o.app.services
  }

  /** The service is the first of that spec with the same id, or what it is now when there is none. */
  lemma RuntimeServiceExactly(o: Observed, s: AppService, services: seq<AppService>)
    requires IsRuntimeSpec(o, services)
    ensures (forall t <- services :: t.id != s.id) ==> RuntimeService(o, s) == s
    ensures (exists t <- services :: t.id == s.id) ==> exists i ::
                && 0 <= i < |services| && RuntimeService(o, s) == services[i] && services[i].id == s.id
                && forall j :: 0 <= j < i ==> services[j].id != s.id
  {
    FirstSuchExactly(services, (t: AppService) => t.id == s.id);
  }

  /** A name belongs to a service: recorded for it, or recognised when nothing is recorded. */
  predicate BelongsTo(o: Observed, s: AppService, name: ContainerId) {
    if ActiveIds(o, s.id) != {} then name in ActiveIds(o, s.id)
    else IsServiceContainerName(name.name, ServicePrefix(o.app.idText, RuntimeService(o, s).name))
  }

  /** The upstream that a listed name yields, if any. */
  function UpstreamOf(o: Observed, s: AppService, listed: ContainerId): (r: seq<Upstream>)
    ensures |r| <= 1
  {
    var name := ContainerId(TrimSlashes(listed.name));
    if name.name != "" && BelongsTo(o, s, name) && o.addresses(name).Some?
    then [Upstream(o.addresses(name).value, RuntimeService(o, s).port)]
    else []
  }

  function Upstreams(o: Observed, s: AppService): seq<Upstream> {
    FlatMap(listed => UpstreamOf(o, s, listed), o.names)
  }

  lemma {:induction false} FlatMapMember<A, B>(f: A -> seq<B>, s: seq<A>, y: B)
    ensures y in FlatMap(f, s) <==> exists x <- s :: y in f(x)
  {
    if s != [] {
      FlatMapMember(f, s[1..], y);
      assert s == [s[0]] + s[1..];
    }
  }

  /** The running deployment recorded a container for the service. */
  ghost predicate HasRecord(o: Observed, service: Id) {
    o.running.Some? && exists sd <- o.running.value.records :: sd.serviceId == service && sd.containerId.Some?
  }

  ghost predicate HasRecordNaming(o: Observed, service: Id, name: ContainerId) {
    o.running.Some? && exists sd <- o.running.value.records :: sd.serviceId == service && sd.containerId == Some(name)
  }

  lemma ActiveIdsExactly(o: Observed, service: Id)
    ensures ActiveIds(o, service) != {} <==> HasRecord(o, service)
    ensures forall name :: name in ActiveIds(o, service) <==> HasRecordNaming(o, service, name)
  {
    if o.running.Some? {
      forall sd <- o.running.value.records | sd.serviceId == service && sd.containerId.Some?
        ensures sd.containerId.value in ActiveIds(o, service)
      {
      }
    }
  }

  /**
   An upstream of a service is a listed container of it with an address, at the port of the service as the running
   deployment knows it. When that deployment recorded a container for the service, only containers in records of this
   service count; otherwise the name decides.
   */
  lemma UpstreamsExactly(o: Observed, s: AppService, u: Upstream)
    ensures u in Upstreams(o, s) <==>
            exists listed <- o.names ::
              var name := ContainerId(TrimSlashes(listed.name));
              && name.name != "" && o.addresses(name) == Some(u.host) && u.port == RuntimeService(o, s).port
              && (if HasRecord(o, s.id) then HasRecordNaming(o, s.id, name)
                  else IsServiceContainerName(name.name, ServicePrefix(o.app.idText, RuntimeService(o, s).name)))
  {
    FlatMapMember(listed => UpstreamOf(o, s, listed), o.names, u);
    ActiveIdsExactly(o, s.id);
    forall listed <- o.names
      ensures u in UpstreamOf(o, s, listed) <==>
              var name := ContainerId(TrimSlashes(listed.name));
              && name.name != "" && o.addresses(name) == Some(u.host) && u.port == RuntimeService(o, s).port
              && BelongsTo(o, s, name)
    {
      assert u == Upstream(u.host, u.port);
    }
  }

  /** With nothing recorded, a name the worker printed belongs to exactly the service it was printed for. */
  lemma PrintedNameBelongsExactly(o: Observed, s: AppService, printed: string, replica: nat, short: string)
    requires IsShortId(short) && ActiveIds(o, s.id) == {}
    ensures BelongsTo(o, s, ContainerId(ContainerName(o.app.idText, printed, replica, short)))
            <==> printed == RuntimeService(o, s).name
  {
    TestAcceptsExactlyItsService(o.app.idText, RuntimeService(o, s).name, printed, replica, short);
  }

  method CollectUpstreams(o: Observed, s: AppService) returns (upstreams: seq<Upstream>)
    ensures upstreams == Upstreams(o, s)
  {
    var f := listed => UpstreamOf(o, s, listed);
    upstreams := [];
    for i := 0 to |o.names|
      invariant upstreams == FlatMap(f, o.names[..i])
    {
      TakeNext(o.names, i);
      FlatMapAppend(f, o.names[..i], [o.names[i]]);
      FlatMapOne(f, o.names[i]);
      upstreams := upstreams + f(o.names[i]);
    }
    TakeAll(o.names);
  }

  // ----- removing an app's routes

  /** Keys that a route list, removed domain by domain, takes out. */
  function Images(norm: Normalizer, keys: set<Domain>): set<Domain> {
    set k <- keys :: norm(k.name)
  }

  function Owned(table: Table, app: Id): set<Domain> {
    set d <- table | table[d].app == Some(app)
  }

  function Suffixed(table: Table, suffix: string): set<Domain> {
    set d <- table | EndsWith(d.name, suffix)
  }

  function HostKeys(norm: Normalizer, hosts: seq<HostName>): set<Domain> {
    set h <- hosts :: norm(h.text)
  }

  /** Keys of every configured domain of an app, public or not. */
  function CustomKeys(norm: Normalizer, services: seq<AppService>): set<Domain> {
    if services == [] then {}
    else CustomKeys(norm, services[..|services| - 1]) + HostKeys(norm, services[|services| - 1].domains)
  }

  function AppSubdomain(app: App, base: string): string {
    app.name + "." + base
  }

  function ServiceSuffix(app: App, base: string): string {
    "." + app.name + "." + base
  }

  /** The table before the last removal loop, which looks for the app's suffix. */
  function AfterNamedRemoval(norm: Normalizer, table: Table, app: App, base: string): Table {
    table - Images(norm, Owned(table, app.id)) - {norm(AppSubdomain(app, base))} - CustomKeys(norm, app.services)
  }

  function AfterRemoval(norm: Normalizer, table: Table, app: App, base: string): Table {
    var named := AfterNamedRemoval(norm, table, app, base);
    named - Images(norm, Suffixed(named, ServiceSuffix(app, base)))
  }

  /** The keys of the configured domains, those of services that are not public included. */
  lemma {:induction false} CustomKeysExactly(norm: Normalizer, services: seq<AppService>, d: Domain)
    ensures d in CustomKeys(norm, services) <==> exists s <- services :: exists h <- s.domains :: norm(h.text) == d
  {
    if services != [] {
      CustomKeysExactly(norm, services[..|services| - 1], d);
      assert services == services[..|services| - 1] + [services[|services| - 1]];
    }
  }

  // ----- adding the routes of the public services

  function Info(o: Observed, s: AppService): RouteInfo {
    RouteInfo(Some(o.app.id), Some(s.id), Upstreams(o, s), o.algorithm, s.basicAuth)
  }

  function AddRoutes(norm: Normalizer, table: Table, hosts: seq<HostName>, info: RouteInfo): Table {
    if hosts == [] then table
    else AddRoutes(norm, table, hosts[..|hosts| - 1], info)[norm(hosts[|hosts| - 1].text) := info]
  }

  function AddServices(norm: Normalizer, table: Table, o: Observed, services: seq<AppService>): Table {
    if services == [] then table
    else
      var before, last := AddServices(norm, table, o, services[..|services| - 1]), services[|services| - 1];
      if last.webService then AddRoutes(norm, before, DomainsFor(last, o.base), Info(o, last)) else before
  }

  /** The table after a refresh that saw the app and got its container listing. */
  function Refreshed(norm: Normalizer, table: Table, o: Observed): Table {
    AddServices(norm, AfterRemoval(norm, table, o.app, o.base), o, o.app.services)
  }

  // ----- one step of each loop

  lemma ImagesNext(norm: Normalizer, table: Table, listed: set<Domain>, rest: set<Domain>, d: Domain)
    requires d in rest && rest <= listed
    ensures (table - Images(norm, listed - rest)) - {norm(d.name)} == table - Images(norm, listed - (rest - {d}))
  {
    assert listed - (rest - {d}) == (listed - rest) + {d};
  }

  lemma HostKeysNext(norm: Normalizer, table: Table, hosts: seq<HostName>, i: nat)
    requires i < |hosts|
    ensures (table - HostKeys(norm, hosts[..i])) - {norm(hosts[i].text)} == table - HostKeys(norm, hosts[..i + 1])
  {
    TakeNext(hosts, i);
  }

  lemma CustomKeysNext(norm: Normalizer, table: Table, services: seq<AppService>, i: nat)
    requires i < |services|
    ensures (table - CustomKeys(norm, services[..i])) - HostKeys(norm, services[i].domains)
            == table - CustomKeys(norm, services[..i + 1])
  {
    assert services[..i + 1][..i] == services[..i] && services[..i + 1][i] == services[i];
  }

  lemma AddRoutesNext(norm: Normalizer, table: Table, hosts: seq<HostName>, i: nat, info: RouteInfo)
    requires i < |hosts|
    ensures AddRoutes(norm, table, hosts[..i], info)[norm(hosts[i].text) := info]
            == AddRoutes(norm, table, hosts[..i + 1], info)
  {
    assert hosts[..i + 1][..i] == hosts[..i] && hosts[..i + 1][i] == hosts[i];
  }

  lemma AddServicesNext(norm: Normalizer, table: Table, o: Observed, services: seq<AppService>, i: nat)
    requires i < |services|
    ensures
      var before, s := AddServices(norm, table, o, services[..i]), services[i];
      AddServices(norm, table, o, services[..i + 1])
      == if s.webService then AddRoutes(norm, before, DomainsFor(s, o.base), Info(o, s)) else before
  {
    assert services[..i + 1][..i] == services[..i] && services[..i + 1][i] == services[i];
  }

  // ----- the table

  ghost predicate MatchesState(info: RouteInfo, state: RouteTable.RouteState) {
    && state.inflight.Length == |info.upstreams|
    && state.algorithm == info.algorithm && state.basicAuth == info.basicAuth
  }

  /** What a refresh follows of the route table, beside the route table of the proxy that it keeps in step. */
  class Routes {
    const manager: RouteTable.RouteManager
    const normalize: Normalizer
    var table: Table

    constructor (manager: RouteTable.RouteManager)
      requires manager.Valid() && manager.routes == map[]
      ensures Valid() && this.manager == manager && normalize == manager.normalize && table == map[]
    {
      this.manager, normalize, table := manager, manager.normalize, map[];
    }

    /** The proxy's table has a state of the same shape under every key, and none besides. */
    ghost predicate Valid()
      reads this, manager, manager.states, manager.holders.Keys
    {
      && manager.Valid() && normalize == manager.normalize && manager.routes.Keys == table.Keys
      && forall d <- table :: MatchesState(table[d], manager.routes[d])
    }

    method AddRoute(domain: string, info: RouteInfo)
      requires Valid()
      modifies this`table, manager
      ensures Valid() && manager.outstanding == old(manager.outstanding)
      ensures table == old(table)[normalize(domain) := info]
    {
      manager.AddRoute(RouteTable.Route(domain, |info.upstreams|, info.algorithm, info.basicAuth));
      table := table[normalize(domain) := info];
    }

    method RemoveRoute(domain: string)
      requires Valid()
      modifies this`table, manager
      ensures Valid() && manager.outstanding == old(manager.outstanding)
      ensures table == old(table) - {normalize(domain)}
    {
      manager.RemoveRoute(domain);
      table := table - {normalize(domain)};
    }

    method RemoveListed(listed: set<Domain>)
      requires Valid()
      modifies this`table, manager
      ensures Valid() && manager.outstanding == old(manager.outstanding)
      ensures table == old(table) - Images(normalize, listed)
    {
      ghost var before := table;
      var rest := listed;
      while rest != {}
        invariant rest <= listed
        invariant Valid() && manager.outstanding == old(manager.outstanding)
        invariant table == before - Images(normalize, listed - rest)
      {
        var d :| d in rest;
        RemoveRoute(d.name);
        ImagesNext(normalize, before, listed, rest, d);
        rest := rest - {d};
      }
      assert listed - rest == listed;
    }

    method RemoveHosts(hosts: seq<HostName>)
      requires Valid()
      modifies this`table, manager
      ensures Valid() && manager.outstanding == old(manager.outstanding)
      ensures table == old(table) - HostKeys(normalize, hosts)
    {
      ghost var before := table;
      for i := 0 to |hosts|
        invariant Valid() && manager.outstanding == old(manager.outstanding)
        invariant table == before - HostKeys(normalize, hosts[..i])
      {
        RemoveRoute(hosts[i].text);
        HostKeysNext(normalize, before, hosts, i);
      }
      TakeAll(hosts);
    }

    method RemoveCustomDomains(services: seq<AppService>)
      requires Valid()
      modifies this`table, manager
      ensures Valid() && manager.outstanding == old(manager.outstanding)
      ensures table == old(table) - CustomKeys(normalize, services)
    {
      ghost var before := table;
      for i := 0 to |services|
        invariant Valid() && manager.outstanding == old(manager.outstanding)
        invariant table == before - CustomKeys(normalize, services[..i])
      {
        RemoveHosts(services[i].domains);
        CustomKeysNext(normalize, before, services, i);
      }
      TakeAll(services);
    }

    method RemoveAppRoutes(app: App, base: string)
      requires Valid()
      modifies this`table, manager
      ensures Valid() && manager.outstanding == old(manager.outstanding)
      ensures table == AfterRemoval(normalize, old(table), app, base)
    {
      RemoveListed(Owned(table, app.id));
      RemoveRoute(AppSubdomain(app, base));
      RemoveCustomDomains(app.services);
      RemoveListed(Suffixed(table, ServiceSuffix(app, base)));
    }

    method AddDomains(domains: seq<HostName>, info: RouteInfo)
      requires Valid()
      modifies this`table, manager
      ensures Valid() && manager.outstanding == old(manager.outstanding)
      ensures table == AddRoutes(normalize, old(table), domains, info)
    {
      ghost var before := table;
      for i := 0 to |domains|
        invariant Valid() && manager.outstanding == old(manager.outstanding)
        invariant table == AddRoutes(normalize, before, domains[..i], info)
      {
        AddRoute(domains[i].text, info);
        AddRoutesNext(normalize, before, domains, i, info);
      }
      TakeAll(domains);
    }

    method AddService(o: Observed, s: AppService)
      requires Valid()
      modifies this`table, manager
      ensures Valid() && manager.outstanding == old(manager.outstanding)
      ensures table == AddRoutes(normalize, old(table), DomainsFor(s, o.base), Info(o, s))
    {
      var upstreams := CollectUpstreams(o, s);
      var domains := DomainsForService(s, o.base);
      AddDomains(domains, RouteInfo(Some(o.app.id), Some(s.id), upstreams, o.algorithm, s.basicAuth));
    }

    method AddPublicServices(o: Observed)
      requires Valid()
      modifies this`table, manager
      ensures Valid() && manager.outstanding == old(manager.outstanding)
      ensures table == AddServices(normalize, old(table), o, o.app.services)
    {
      var services := o.app.services;
      ghost var before := table;
      for i := 0 to |services|
        invariant Valid() && manager.outstanding == old(manager.outstanding)
        invariant table == AddServices(normalize, before, o, services[..i])
      {
        if services[i].webService {
          AddService(o, services[i]);
        }
        AddServicesNext(normalize, before, o, services, i);
      }
      TakeAll(services);
    }

    /** Refreshes one app. `loaded` is what the store answers, `names` the listing, when there is one. */
    method RefreshRoutesForApp(id: Id, loaded: Result<Option<App>, ()>, base: string, algorithm: RouteTable.Algorithm,
                               deployments: seq<Deployment>, names: Option<seq<ContainerId>>,
                               addresses: ContainerId -> Option<string>)
      requires Valid()
      modifies this`table, manager
      ensures Valid() && manager.outstanding == old(manager.outstanding)
      ensures loaded.Err? ==> table == old(table)
      ensures loaded == Ok(None) ==> table == old(table) - Images(normalize, Owned(old(table), id))
      ensures loaded.Ok? && loaded.value.Some? && names.None? ==> table == old(table)
      ensures loaded.Ok? && loaded.value.Some? && names.Some? ==>
                table == Refreshed(normalize, old(table),
                  Observed(loaded.value.value, base, algorithm, NewestRunning(deployments), names.value, addresses))
    {
      if loaded.Err? {
        return;
      }
      if loaded.value.None? {
        RemoveListed(Owned(table, id));
        return;
      }
      if names.None? {
        return;
      }
      var o := Observed(loaded.value.value, base, algorithm, NewestRunning(deployments), names.value, addresses);
      RemoveAppRoutes(o.app, base);
      AddPublicServices(o);
    }
  }

  // ----- what a refresh leaves

  ghost predicate Serves(norm: Normalizer, s: AppService, base: string, d: Domain) {
    s.webService && exists h <- DomainsFor(s, base) :: norm(h.text) == d
  }

  /** The last public service that is served under a key: its route is the one that stays. */
  ghost function LastServing(norm: Normalizer, services: seq<AppService>, base: string, d: Domain): Option<AppService> {
    LastSuch(services, s => Serves(norm, s, base, d))
  }

  lemma LastServingExactly(norm: Normalizer, services: seq<AppService>, base: string, d: Domain)
    ensures LastServing(norm, services, base, d).None? <==> forall s <- services :: !Serves(norm, s, base, d)
    ensures LastServing(norm, services, base, d).Some? ==> exists i ::
                && 0 <= i < |services| && services[i] == LastServing(norm, services, base, d).value
                && Serves(norm, services[i], base, d)
                && forall j :: i < j < |services| ==> !Serves(norm, services[j], base, d)
  {
    LastSuchExactly(services, s => Serves(norm, s, base, d));
  }

  lemma {:induction false} AddRoutesExactly(norm: Normalizer, table: Table, hosts: seq<HostName>, info: RouteInfo,
                                            d: Domain)
    ensures
      var after := AddRoutes(norm, table, hosts, info);
      var hit := exists h <- hosts :: norm(h.text) == d;
      && (d in after <==> hit || d in table)
      && (d in after ==> after[d] == if hit then info else table[d])
  {
    if hosts != [] {
      AddRoutesExactly(norm, table, hosts[..|hosts| - 1], info, d);
      assert hosts == hosts[..|hosts| - 1] + [hosts[|hosts| - 1]];
    }
  }

  lemma {:induction false} AddServicesExactly(norm: Normalizer, table: Table, o: Observed, services: seq<AppService>,
                                              d: Domain)
    ensures
      var after, last := AddServices(norm, table, o, services), LastServing(norm, services, o.base, d);
      && (d in after <==> last.Some? || d in table)
      && (d in after ==> after[d] == if last.Some? then Info(o, last.value) else table[d])
  {
    if services != [] {
      var init, s := services[..|services| - 1], services[|services| - 1];
      AddServicesExactly(norm, table, o, init, d);
      AddRoutesExactly(norm, AddServices(norm, table, o, init), DomainsFor(s, o.base), Info(o, s), d);
    }
  }

  ghost predicate AllClean(norm: Normalizer, keys: set<Domain>) {
    forall k <- keys :: norm(k.name) == k
  }

  lemma CleanImages(norm: Normalizer, keys: set<Domain>)
    requires AllClean(norm, keys)
    ensures Images(norm, keys) == keys
  {
    forall k <- keys ensures k in Images(norm, keys) {
      assert norm(k.name) == k;
    }
  }

  /**
   The keys a removal takes out of a table: the images of the app's own keys, its subdomain, its configured
   domains and the images of the remaining keys under its suffix. In a table in normal form images are the keys
   themselves.
   */
  ghost predicate TakenOut(norm: Normalizer, table: Table, app: App, base: string, d: Domain) {
    || d in Images(norm, Owned(table, app.id))
    || d == norm(AppSubdomain(app, base))
    || d in CustomKeys(norm, app.services)
    || d in Images(norm, Suffixed(AfterNamedRemoval(norm, table, app, base), ServiceSuffix(app, base)))
  }

  /** The removal, for every table. */
  lemma RemovalExactly(norm: Normalizer, table: Table, app: App, base: string, d: Domain)
    ensures d in AfterRemoval(norm, table, app, base) <==> d in table && !TakenOut(norm, table, app, base, d)
    ensures d in AfterRemoval(norm, table, app, base) ==> AfterRemoval(norm, table, app, base)[d] == table[d]
  {
  }

  /** The removal, for a table in normal form: by owner, name and suffix. */
  lemma CleanRemovalExactly(norm: Normalizer, table: Table, app: App, base: string, d: Domain)
    requires AllClean(norm, table.Keys)
    ensures d in AfterRemoval(norm, table, app, base) <==>
            && d in table && table[d].app != Some(app.id) && d != norm(app.name + "." + base)
            && d !in CustomKeys(norm, app.services) && !EndsWith(d.name, "." + app.name + "." + base)
  {
    CleanImages(norm, Owned(table, app.id));
    CleanImages(norm, Suffixed(AfterNamedRemoval(norm, table, app, base), ServiceSuffix(app, base)));
  }

  /** The route of a service: its app, its upstreams, the proxy's algorithm and the service's own credentials. */
  ghost predicate IsRouteOf(o: Observed, s: AppService, info: RouteInfo) {
    && info.app == Some(o.app.id) && info.service == Some(s.id) && info.upstreams == Upstreams(o, s)
    && info.algorithm == o.algorithm && info.basicAuth == s.basicAuth
  }

  /** What a refresh leaves under any key of any table: the last public service's route, or what the removal spared. */
  lemma RefreshedExactly(norm: Normalizer, table: Table, o: Observed, d: Domain)
    ensures
      var after, last := Refreshed(norm, table, o), LastServing(norm, o.app.services, o.base, d);
      && (d in after <==> last.Some? || (d in table && !TakenOut(norm, table, o.app, o.base, d)))
      && (d in after ==> if last.Some? then IsRouteOf(o, last.value, after[d]) else after[d] == table[d])
  {
    AddServicesExactly(norm, AfterRemoval(norm, table, o.app, o.base), o, o.app.services, d);
    RemovalExactly(norm, table, o.app, o.base, d);
  }

  /** The keys carrying the app's id are exactly the domains of its public services. */
  ghost predicate HasExactlyItsRoutes(norm: Normalizer, table: Table, o: Observed) {
    forall d :: d in Owned(table, o.app.id) <==> LastServing(norm, o.app.services, o.base, d).Some?
  }

  /** After a refresh this holds, for any table, exactly when each key the app had is served again or taken out. */
  lemma AppHasExactlyItsRoutes(norm: Normalizer, table: Table, o: Observed)
    ensures HasExactlyItsRoutes(norm, Refreshed(norm, table, o), o) <==>
            forall k <- Owned(table, o.app.id) ::
              LastServing(norm, o.app.services, o.base, k).Some? || TakenOut(norm, table, o.app, o.base, k)
    ensures forall d :: LastServing(norm, o.app.services, o.base, d).Some? ==>
              && d in Refreshed(norm, table, o)
              && IsRouteOf(o, LastServing(norm, o.app.services, o.base, d).value, Refreshed(norm, table, o)[d])
  {
    forall d
      ensures d in Owned(Refreshed(norm, table, o), o.app.id) <==>
              LastServing(norm, o.app.services, o.base, d).Some?
              || (d in Owned(table, o.app.id) && !TakenOut(norm, table, o.app, o.base, d))
      ensures LastServing(norm, o.app.services, o.base, d).Some? ==>
              && d in Refreshed(norm, table, o)
              && IsRouteOf(o, LastServing(norm, o.app.services, o.base, d).value, Refreshed(norm, table, o)[d])
    {
      RefreshedExactly(norm, table, o, d);
    }
  }

  /** In particular when each key the app had is in normal form, or is still the key of a configured domain. */
  lemma CleanOrConfiguredKeysSuffice(norm: Normalizer, table: Table, o: Observed)
    requires forall k <- Owned(table, o.app.id) :: norm(k.name) == k || k in CustomKeys(norm, o.app.services)
    ensures HasExactlyItsRoutes(norm, Refreshed(norm, table, o), o)
  {
    forall k <- Owned(table, o.app.id) ensures TakenOut(norm, table, o.app, o.base, k) {
      assert norm(k.name) == k ==> k in Images(norm, Owned(table, o.app.id));
    }
    AppHasExactlyItsRoutes(norm, table, o);
  }

  /** Another app's route is unchanged, for any table, exactly when its key is neither served nor taken out. */
  lemma OtherRoutesKeptExactly(norm: Normalizer, table: Table, o: Observed, d: Domain)
    requires d in table && table[d].app != Some(o.app.id)
    ensures
      var after := Refreshed(norm, table, o);
      d in after && after[d] == table[d] <==>
      LastServing(norm, o.app.services, o.base, d).None? && !TakenOut(norm, table, o.app, o.base, d)
  {
    RefreshedExactly(norm, table, o, d);
  }

  /** In a table in normal form: exactly unless it shares a domain or the app's subdomain or suffix. */
  lemma CleanOtherRoutesKeptExactly(norm: Normalizer, table: Table, o: Observed, d: Domain)
    requires AllClean(norm, table.Keys)
    requires d in table && table[d].app != Some(o.app.id)
    ensures
      var after := Refreshed(norm, table, o);
      d in after && after[d] == table[d] <==>
      && LastServing(norm, o.app.services, o.base, d).None? && d != norm(AppSubdomain(o.app, o.base))
      && d !in CustomKeys(norm, o.app.services) && !EndsWith(d.name, ServiceSuffix(o.app, o.base))
  {
    OtherRoutesKeptExactly(norm, table, o, d);
    RemovalExactly(norm, table, o.app, o.base, d);
    CleanRemovalExactly(norm, table, o.app, o.base, d);
  }

  // ----- sequences of refreshes

  /** A refresh, the refresh of a deleted app, or the removal of an app's routes on their own. */
  datatype Event = Refresh(o: Observed) | Drop(id: Id) | Remove(removed: App, base: string)

  /** The table after events in any order. */
  ghost function After(norm: Normalizer, table: Table, events: seq<Event>): Table {
    if events == [] then table
    else
      var before := After(norm, table, events[..|events| - 1]);
      match events[|events| - 1]
      case Refresh(o) => Refreshed(norm, before, o)
      case Drop(id) => before - Images(norm, Owned(before, id))
      case Remove(removed, base) => AfterRemoval(norm, before, removed, base)
  }

  /** The domains of the public services give keys in normal form. */
  ghost predicate ServesClean(norm: Normalizer, o: Observed) {
    forall d :: LastServing(norm, o.app.services, o.base, d).Some? ==> norm(d.name) == d
  }

  lemma RefreshStaysClean(norm: Normalizer, table: Table, o: Observed)
    requires AllClean(norm, table.Keys) && ServesClean(norm, o)
    ensures AllClean(norm, Refreshed(norm, table, o).Keys)
  {
    forall d <- Refreshed(norm, table, o) ensures norm(d.name) == d {
      RefreshedExactly(norm, table, o, d);
    }
  }

  /** Over any sequence of events the table stays in normal form while the configured domains are. */
  lemma {:induction false} EventsStayClean(norm: Normalizer, table: Table, events: seq<Event>)
    requires AllClean(norm, table.Keys)
    requires forall e <- events :: e.Refresh? ==> ServesClean(norm, e.o)
    ensures AllClean(norm, After(norm, table, events).Keys)
  {
    if events != [] {
      var last := events[|events| - 1];
      assert last in events;
      var before := After(norm, table, events[..|events| - 1]);
      EventsStayClean(norm, table, events[..|events| - 1]);
      if last.Refresh? {
        RefreshStaysClean(norm, before, last.o);
      } else if last.Remove? {
        forall d <- AfterRemoval(norm, before, last.removed, last.base) ensures norm(d.name) == d {
          RemovalExactly(norm, before, last.removed, last.base, d);
        }
      }
    }
  }

  /** An earlier refresh of this app served the key. */
  ghost predicate ServedEarlier(norm: Normalizer, events: seq<Event>, app: Id, k: Domain) {
    exists e <- events :: e.Refresh? && e.o.app.id == app && LastServing(norm, e.o.app.services, e.o.base, k).Some?
  }

  /** From a table without a route of it on, an app owns only keys that one of its own refreshes served. */
  lemma {:induction false} OwnedKeysWereServed(norm: Normalizer, table: Table, events: seq<Event>, app: Id, k: Domain)
    requires Owned(table, app) == {} && k in Owned(After(norm, table, events), app)
    ensures ServedEarlier(norm, events, app, k)
  {
    if events != [] {
      var init, last := events[..|events| - 1], events[|events| - 1];
      var before := After(norm, table, init);
      assert last in events && forall e <- init :: e in events;
      if last.Refresh? {
        RefreshedExactly(norm, before, last.o, k);
      } else if last.Remove? {
        RemovalExactly(norm, before, last.removed, last.base, k);
      }
      if !(last.Refresh? && LastServing(norm, last.o.app.services, last.o.base, k).Some?) {
        OwnedKeysWereServed(norm, table, init, app, k);
      }
    }
  }

  /**
   After any sequence of events, from any table without a route of it, such as the one with the external routes, a
   refresh leaves an app exactly its routes, when every key that its earlier refreshes served was in normal form or
   still belongs to a configured domain.
   */
  lemma RoutesAreExactAfterAnyEvents(norm: Normalizer, start: Table, events: seq<Event>, o: Observed)
    requires Owned(start, o.app.id) == {}
    requires forall k :: ServedEarlier(norm, events, o.app.id, k) ==>
               norm(k.name) == k || k in CustomKeys(norm, o.app.services)
    ensures HasExactlyItsRoutes(norm, After(norm, start, events + [Refresh(o)]), o)
  {
    var table := After(norm, start, events);
    assert (events + [Refresh(o)])[..|events|] == events;
    forall k <- Owned(table, o.app.id) ensures norm(k.name) == k || k in CustomKeys(norm, o.app.services) {
      OwnedKeysWereServed(norm, start, events, o.app.id, k);
    }
    CleanOrConfiguredKeysSuffice(norm, table, o);
  }

  /** And it leaves the other routes alone, while the table started in normal form and served domains are. */
  lemma OtherRoutesKeptAfterAnyEvents(norm: Normalizer, start: Table, events: seq<Event>, o: Observed, d: Domain)
    requires AllClean(norm, start.Keys) && forall e <- events :: e.Refresh? ==> ServesClean(norm, e.o)
    requires d in After(norm, start, events) && After(norm, start, events)[d].app != Some(o.app.id)
    ensures
      var table, after := After(norm, start, events), After(norm, start, events + [Refresh(o)]);
      d in after && after[d] == table[d] <==>
      && LastServing(norm, o.app.services, o.base, d).None? && d != norm(AppSubdomain(o.app, o.base))
      && d !in CustomKeys(norm, o.app.services) && !EndsWith(d.name, ServiceSuffix(o.app, o.base))
  {
    assert (events + [Refresh(o)])[..|events|] == events;
    EventsStayClean(norm, start, events);
    CleanOtherRoutesKeptExactly(norm, After(norm, start, events), o, d);
  }

  /** A refresh with no public service only removes. */
  lemma {:induction false} NothingPublicOnlyRemoves(norm: Normalizer, table: Table, o: Observed,
                                                    services: seq<AppService>)
    requires forall s <- services :: !s.webService
    ensures AddServices(norm, table, o, services) == table
  {
    if services != [] {
      NothingPublicOnlyRemoves(norm, table, o, services[..|services| - 1]);
    }
  }

  // ----- keys that are not in normal form

  /** A configured domain gives a key in normal form exactly when no white space stands before its trailing dots. */
  lemma KeyIsCleanExactly(domain: string)
    ensures
      var bare := TrimEndDots(Trim(domain));
      IsClean(DomainOf(domain)) <==> bare == "" || !IsSpace(bare[|bare| - 1])
  {
    NormalizeIdempotentExactly(domain);
  }

  lemma NormalizingNeverLengthens(s: string)
    ensures |NormalizeDomain(s)| <= |s|
    ensures |NormalizeDomain(s)| == |s| ==> NormalizeDomain(s) == Lower(s)
  {
    var trimmed := Trim(s);
    var bare := TrimEndDots(trimmed);
    assert bare <= trimmed && |trimmed| <= |s|;
    if |bare| == |s| {
      assert bare == trimmed == s;
    }
  }

  lemma LongerPreimage(k: Domain, c: Domain)
    requires !IsClean(k) && DomainOf(c.name) == k
    ensures |c.name| > |k.name| && !IsClean(c)
  {
    NormalizingNeverLengthens(c.name);
    if |c.name| == |k.name| {
      CleanWhenOnlyLowered(c.name);
    }
  }

  lemma CleanWhenOnlyLowered(s: string)
    requires |NormalizeDomain(s)| == |s|
    ensures NormalizeDomain(NormalizeDomain(s)) == NormalizeDomain(s)
  {
    var bare := TrimEndDots(Trim(s));
    assert |bare| <= |Trim(s)| <= |s|;
    assert bare == s == Trim(s);
    NormalizeIdempotentExactly(s);
  }

  function LongerKeys(keys: set<Domain>, k: Domain): set<Domain> {
    set c <- keys | |c.name| > |k.name|
  }

  /** A key that is not clean is not removed through the list: its pre-image would be a longer such key, without end. */
  lemma {:induction false} UncleanKeyIsNoImage(keys: set<Domain>, k: Domain)
    requires k in keys && !IsClean(k)
    ensures !(keys <= Images(DomainOf, keys))
    decreases |LongerKeys(keys, k)|
  {
    if keys <= Images(DomainOf, keys) {
      var c :| c in keys && DomainOf(c.name) == k;
      LongerPreimage(k, c);
      assert c in LongerKeys(keys, k) && c !in LongerKeys(keys, c);
      SmallerSubset(LongerKeys(keys, c), LongerKeys(keys, k));
      UncleanKeyIsNoImage(keys, c);
    }
  }

  lemma OwnedAfterTaking(table: Table, app: Id, taken: set<Domain>)
    ensures Owned(table - taken, app) == {} <==> Owned(table, app) <= taken
  {
    forall k <- Owned(table, app) | k !in taken ensures k in Owned(table - taken, app) {}
    forall k <- Owned(table - taken, app) ensures k in Owned(table, app) && k !in taken {}
  }

  /** Removing an app's routes by their own domains removes all of them exactly when their keys are in normal form. */
  lemma OwnRoutesAllRemovedExactly(table: Table, app: Id)
    ensures Owned(table - Images(DomainOf, Owned(table, app)), app) == {}
            <==> forall k <- Owned(table, app) :: IsClean(k)
  {
    var keys := Owned(table, app);
    OwnedAfterTaking(table, app, Images(DomainOf, keys));
    if (forall k <- keys :: IsClean(k)) {
      CleanImages(DomainOf, keys);
    } else {
      var k :| k in keys && !IsClean(k);
      UncleanKeyIsNoImage(keys, k);
    }
  }

  /** What `ServesClean` asks of the configured domains. */
  lemma ServesCleanExactly(o: Observed)
    ensures ServesClean(DomainOf, o) <==>
            forall s <- o.app.services :: s.webService ==>
              forall h <- DomainsFor(s, o.base) :: IsClean(DomainOf(h.text))
  {
    if ServesClean(DomainOf, o) {
      forall s <- o.app.services, h <- DomainsFor(s, o.base) | s.webService ensures IsClean(DomainOf(h.text)) {
        assert Serves(DomainOf, s, o.base, DomainOf(h.text));
        LastServingExactly(DomainOf, o.app.services, o.base, DomainOf(h.text));
      }
    } else {
      var d :| LastServing(DomainOf, o.app.services, o.base, d).Some? && !IsClean(d);
      LastServingExactly(DomainOf, o.app.services, o.base, d);
    }
  }

  /** A refresh of an app whose one service has only its default domain serves one key. */
  lemma ServesOneKey(norm: Normalizer, o: Observed, s: AppService, d: Domain)
    requires o.app.services == [s] && s.domains == []
    ensures LastServing(norm, o.app.services, o.base, d).Some? <==>
            s.webService && d == norm(ServiceSubdomain(s, o.base).text)
    ensures CustomKeys(norm, o.app.services) == {}
  {
    LastServingExactly(norm, o.app.services, o.base, d);
    forall h ensures h in DomainsFor(s, o.base) <==> h == ServiceSubdomain(s, o.base) {
      DomainsForExactly(s, o.base, h);
    }
    assert [s][..0] == [];
  }

  /** The app's one key is not in normal form: it normalises to `plain`, which other apps may use. */
  ghost predicate HasSpacedKey(norm: Normalizer, o: Observed, s: AppService, key: Domain, plain: Domain) {
    && o.app.services == [s] && s.domains == []
    && norm(ServiceSubdomain(s, o.base).text) == key && norm(key.name) == plain && plain != key
    && norm(AppSubdomain(o.app, o.base)) != key && norm(AppSubdomain(o.app, o.base)) != plain
    && !EndsWith(key.name, ServiceSuffix(o.app, o.base)) && !EndsWith(plain.name, ServiceSuffix(o.app, o.base))
  }

  lemma SpacedKeyTakesOutPlain(norm: Normalizer, table: Table, o: Observed, s: AppService, key: Domain, plain: Domain)
    requires HasSpacedKey(norm, o, s, key, plain) && table.Keys <= {key, plain} && Owned(table, o.app.id) <= {key}
    ensures !TakenOut(norm, table, o.app, o.base, key)
    ensures TakenOut(norm, table, o.app, o.base, plain) <==> key in Owned(table, o.app.id)
  {
    ServesOneKey(norm, o, s, key);
    assert Suffixed(AfterNamedRemoval(norm, table, o.app, o.base), ServiceSuffix(o.app, o.base)) == {};
    assert forall k <- Owned(table, o.app.id) :: norm(k.name) == plain;
  }

  lemma SpacedKeyStays(norm: Normalizer, o: Observed, s: AppService, key: Domain, plain: Domain)
    requires HasSpacedKey(norm, o, s, key, plain) && s.webService
    ensures
      var private := o.(app := o.app.(services := [s.(webService := false)]));
      key in Owned(After(norm, map[], [Refresh(o), Refresh(private)]), o.app.id)
  {
    var hidden := s.(webService := false);
    var private := o.(app := o.app.(services := [hidden]));
    var t1 := Refreshed(norm, map[], o);
    assert [Refresh(o), Refresh(private)][..1] == [Refresh(o)] && [Refresh(o)][..0] == [];
    assert After(norm, map[], [Refresh(o)]) == t1;
    forall d ensures d in t1 <==> d == key {
      RefreshedExactly(norm, map[], o, d);
      ServesOneKey(norm, o, s, d);
    }
    RefreshedExactly(norm, map[], o, key);
    assert HasSpacedKey(norm, private, hidden, key, plain);
    SpacedKeyTakesOutPlain(norm, t1, private, hidden, key, plain);
    ServesOneKey(norm, private, hidden, key);
    RefreshedExactly(norm, t1, private, key);
  }

  lemma SpacedKeyLosesPlain(norm: Normalizer, o: Observed, s: AppService, key: Domain, plain: Domain, other: RouteInfo)
    requires HasSpacedKey(norm, o, s, key, plain) && s.webService && other.app != Some(o.app.id)
    ensures
      var t1 := Refreshed(norm, map[plain := other], o);
      plain in t1 && t1[plain] == other && plain !in Refreshed(norm, t1, o)
  {
    var t0 := map[plain := other];
    var t1 := Refreshed(norm, t0, o);
    assert Owned(t0, o.app.id) == {};
    SpacedKeyTakesOutPlain(norm, t0, o, s, key, plain);
    forall d ensures d in t1 <==> d == key || d == plain {
      RefreshedExactly(norm, t0, o, d);
      ServesOneKey(norm, o, s, d);
    }
    ServesOneKey(norm, o, s, plain);
    RefreshedExactly(norm, t0, o, plain);
    RefreshedExactly(norm, t0, o, key);
    ServesOneKey(norm, o, s, key);
    SpacedKeyTakesOutPlain(norm, t1, o, s, key, plain);
    RefreshedExactly(norm, t1, o, plain);
  }

  // ----- a base domain that gives such keys

  ghost predicate IsTidy(s: string) {
    && s != "" && !IsSpace(s[0]) && !IsSpace(s[|s| - 1]) && s[|s| - 1] != '.'
    && forall k :: 0 <= k < |s| ==> LowerChar(s[k]) == s[k]
  }

  lemma TidyTextIsLower(s: string)
    requires forall k :: 0 <= k < |s| ==> LowerChar(s[k]) == s[k]
    ensures Lower(s) == s
  {
  }

  lemma TrimsTo(s: string, r: string, space: string)
    requires s == r + space && r != "" && !IsSpace(r[0]) && !IsSpace(r[|r| - 1])
    requires forall k :: 0 <= k < |space| ==> IsSpace(space[k])
    ensures Trim(s) == r
  {
    assert forall k :: 0 <= k < |r| ==> s[k] == r[k];
    assert forall k :: |r| <= k < |s| ==> s[k] == space[k - |r|];
    assert SkipSpace(s, 0) == 0 && s[0..] == s;
    assert SkipSpaceBack(s, |s|) == |r|;
    assert s[..|r|] == r;
  }

  /** White space before trailing dots survives one normalisation and not the next. */
  lemma SpacedDomain(tidy: string)
    requires IsTidy(tidy)
    ensures DomainOf(tidy + " . ") == Domain(tidy + " ")
    ensures DomainOf(tidy + " ") == Domain(tidy)
  {
    TrimsTo(tidy + " . ", tidy + " .", " ");
    assert (tidy + " .")[..|tidy| + 1] == tidy + " ";
    TrimEndDotsKeeps(tidy + " ");
    assert TrimEndDots(tidy + " .") == tidy + " ";
    TidyTextIsLower(tidy + " ");
    TrimsTo(tidy + " ", tidy, " ");
    TrimEndDotsKeeps(tidy);
    TidyTextIsLower(tidy);
  }

  /** `service-` and five letters. */
  ghost predicate IsDefaultLabel(domainLabel: string) {
    && |domainLabel| == 13 && domainLabel[..8] == "service-"
    && forall k :: 8 <= k < 13 ==> 'a' <= domainLabel[k] <= 'z'
  }

  const SPACED_BASE := "b . ."

  lemma SpacedSubdomain(s: AppService)
    requires IsDefaultLabel(s.domainLabel)
    ensures IsTidy(s.domainLabel + ".b")
    ensures ServiceSubdomain(s, SPACED_BASE) == HostName(s.domainLabel + ".b" + " . ")
  {
    var tidy := s.domainLabel + ".b";
    assert forall k :: 0 <= k < 8 ==> s.domainLabel[k] == "service-"[k];
    assert forall k :: 0 <= k < 13 ==> tidy[k] == s.domainLabel[k];
    TrimsTo(SPACED_BASE, SPACED_BASE, "");
    assert SPACED_BASE[..4] == "b . ";
    TrimEndDotsKeeps("b . ");
    assert s.domainLabel + "." + "b . " == tidy + " . ";
  }

  /** One public service with its default domain, under the base domain `b . .`, which settings accept as it is. */
  ghost predicate IsSpacedApp(o: Observed, s: AppService) {
    && o.app.services == [s] && s.webService && s.domains == [] && IsDefaultLabel(s.domainLabel)
    && o.app.name == "x" && o.base == SPACED_BASE
  }

  lemma SpacedAppHasSpacedKey(o: Observed, s: AppService)
    requires IsSpacedApp(o, s)
    ensures HasSpacedKey(DomainOf, o, s, Domain(s.domainLabel + ".b" + " "), Domain(s.domainLabel + ".b"))
  {
    var tidy := s.domainLabel + ".b";
    SpacedSubdomain(s);
    SpacedDomain(tidy);
    NormalizingNeverLengthens(AppSubdomain(o.app, o.base));
    var suffix := ServiceSuffix(o.app, o.base);
    assert suffix[|suffix| - 1] == '.';
  }

  /** Its route outlives the service being public. */
  lemma StaleKeyStays(o: Observed, s: AppService)
    requires IsSpacedApp(o, s)
    ensures
      var private := o.(app := o.app.(services := [s.(webService := false)]));
      var after := After(DomainOf, map[], [Refresh(o), Refresh(private)]);
      Owned(after, o.app.id) != {} && !HasExactlyItsRoutes(DomainOf, after, private)
  {
    var key := Domain(s.domainLabel + ".b" + " ");
    var private := o.(app := o.app.(services := [s.(webService := false)]));
    SpacedAppHasSpacedKey(o, s);
    SpacedKeyStays(DomainOf, o, s, key, Domain(s.domainLabel + ".b"));
    ServesOneKey(DomainOf, private, s.(webService := false), key);
    assert key in Owned(After(DomainOf, map[], [Refresh(o), Refresh(private)]), o.app.id);
  }

  /** Each further refresh removes another app's route, of the domain without the white space. */
  lemma StrangersRouteIsLost(o: Observed, s: AppService, other: RouteInfo)
    requires IsSpacedApp(o, s) && other.app != Some(o.app.id)
    ensures
      var theirs := Domain(s.domainLabel + ".b");
      var t1 := Refreshed(DomainOf, map[theirs := other], o);
      theirs in t1 && t1[theirs] == other && theirs !in Refreshed(DomainOf, t1, o)
  {
    SpacedAppHasSpacedKey(o, s);
    SpacedKeyLosesPlain(DomainOf, o, s, Domain(s.domainLabel + ".b" + " "), Domain(s.domainLabel + ".b"), other);
  }
}
