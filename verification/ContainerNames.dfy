/** Container names printed by the worker and recognised again by routing and by startup repair. */
module ContainerNames {
  import opened Wrappers
  import opened Model
  import opened Text

  /** A deployment id in its simple form: 32 hex digits. */
  type Uuid = s: string | |s| == 32 && forall k :: 0 <= k < |s| ==> IsHexDigit(s[k])
    witness seq(32, _ => '0')

  function ShortId(id: Uuid): (short: string)
    ensures IsShortId(short) && short <= id
  {
    id[..8]
  }

  /** First eight hex digits of a deployment id. */
  ghost predicate IsShortId(short: string) {
    |short| == 8 && forall k :: 0 <= k < |short| ==> IsHexDigit(short[k])
  }

  function AppPrefix(app: string): string {
    "containr-" + app + "-"
  }

  function ServicePrefix(app: string, service: string): string {
    AppPrefix(app) + (service + "-")
  }

  function Tail(service: string, replica: string, short: string): string {
    service + "-" + replica + "-" + short
  }

  function ContainerName(app: string, service: string, replica: nat, short: string): string {
    AppPrefix(app) + Tail(service, Decimal(replica), short)
  }

  /** The part of a name after the app, taken apart at its last two dashes, gives back what was printed. */
  lemma TailInjective(service: string, replica: string, short: string,
                      service': string, replica': string, short': string)
    requires Tail(service, replica, short) == Tail(service', replica', short')
    requires Free(replica, '-') && Free(short, '-') && Free(replica', '-') && Free(short', '-')
    ensures service == service' && replica == replica' && short == short'
  {
    LastSeparator(service + "-" + replica, short, service' + "-" + replica', short', '-');
    LastSeparator(service, replica, service', replica', '-');
  }

  /** Printing is injective in service, replica and short id, dashes in service names included. */
  lemma PrintingInjective(app: string, service: string, replica: nat, short: string,
                          service': string, replica': nat, short': string)
    requires IsShortId(short) && IsShortId(short')
    requires ContainerName(app, service, replica, short) == ContainerName(app, service', replica', short')
    ensures service == service' && replica == replica' && short == short'
  {
    var tail, tail' := Tail(service, Decimal(replica), short), Tail(service', Decimal(replica'), short');
    assert tail == ContainerName(app, service, replica, short)[|AppPrefix(app)|..] == tail';
    TailInjective(service, Decimal(replica), short, service', Decimal(replica'), short');
    DecimalInjective(replica, replica');
  }

  function StripPrefix(name: string, prefix: string): (rest: Option<string>)
    ensures rest.Some? <==> prefix <= name
    ensures rest.Some? ==> name == prefix + rest.value
  {
    if prefix <= name then Some(name[|prefix|..]) else None
  }

  /** What follows the service in a worker name: digits, one dash, hex digits, nothing else. */
  predicate IsReplicaAndDeployment(rest: string) {
    match SplitOnce(rest, '-')
    case None => false
    case Some((replica, deployment)) =>
      && replica != "" && (forall k :: 0 <= k < |replica| ==> IsDigit(replica[k]))
      && deployment != "" && (forall k :: 0 <= k < |deployment| ==> IsHexDigit(deployment[k]))
  }

  /** Routing's test of a name against a service prefix. */
  predicate IsServiceContainerName(name: string, prefix: string) {
    match StripPrefix(name, prefix)
    case None => false
    case Some(rest) => IsReplicaAndDeployment(rest)
  }

  /** Some digits, a dash and some hex digits. */
  ghost predicate IsReplicaDashDeployment(rest: string, replica: string, deployment: string) {
    && rest == replica + "-" + deployment
    && replica != "" && (forall k :: 0 <= k < |replica| ==> IsDigit(replica[k]))
    && deployment != "" && (forall k :: 0 <= k < |deployment| ==> IsHexDigit(deployment[k]))
  }

  lemma DashSplits(rest: string, replica: string, deployment: string)
    requires IsReplicaDashDeployment(rest, replica, deployment)
    ensures SplitOnce(rest, '-') == Some((replica, deployment))
  {
    assert rest[|replica|] == '-';
    var (first, second) := SplitOnce(rest, '-').value;
    FirstSeparator(replica, deployment, first, second, '-');
  }

  /** The test accepts exactly the prefix followed by digits, a dash and hex digits, some of each. */
  lemma TestAcceptsExactly(name: string, prefix: string)
    ensures IsServiceContainerName(name, prefix) <==>
            prefix <= name && exists replica: string, deployment: string ::
              IsReplicaDashDeployment(name[|prefix|..], replica, deployment)
  {
    if prefix <= name {
      var rest := name[|prefix|..];
      if IsReplicaAndDeployment(rest) {
        var (first, second) := SplitOnce(rest, '-').value;
        assert IsReplicaDashDeployment(rest, first, second);
      }
      if replica: string, deployment: string :| IsReplicaDashDeployment(rest, replica, deployment) {
        DashSplits(rest, replica, deployment);
      }
    }
  }

  lemma PrintedRestIsRecognised(replica: nat, short: string)
    requires IsShortId(short)
    ensures IsReplicaAndDeployment(Decimal(replica) + "-" + short)
  {
    var rest := Decimal(replica) + "-" + short;
    assert rest[|Decimal(replica)|] == '-';
    var (first, second) := SplitOnce(rest, '-').value;
    FirstSeparator(Decimal(replica), short, first, second, '-');
  }

  lemma RecognisedRestWasPrinted(service: string, printed: string, replica: nat, short: string, rest: string)
    requires IsShortId(short)
    requires Tail(printed, Decimal(replica), short) == service + "-" + rest
    requires IsReplicaAndDeployment(rest)
    ensures service == printed
  {
    var (replica', short') := SplitOnce(rest, '-').value;
    assert service + "-" + rest == Tail(service, replica', short');
    TailInjective(printed, Decimal(replica), short, service, replica', short');
  }

  /** On printed names the test answers for exactly the service the name was printed for. */
  lemma TestAcceptsExactlyItsService(app: string, service: string, printed: string, replica: nat, short: string)
    requires IsShortId(short)
    ensures IsServiceContainerName(ContainerName(app, printed, replica, short), ServicePrefix(app, service))
            <==> service == printed
  {
    var tail := Tail(printed, Decimal(replica), short);
    PrefixUnderHead(AppPrefix(app), service + "-", tail);
    if service == printed {
      assert tail == (service + "-") + (Decimal(replica) + "-" + short);
      assert tail[|service + "-"|..] == Decimal(replica) + "-" + short;
      PrintedRestIsRecognised(replica, short);
    } else if service + "-" <= tail {
      var rest := tail[|service + "-"|..];
      assert tail == service + "-" + rest;
      if IsReplicaAndDeployment(rest) {
        RecognisedRestWasPrinted(service, printed, replica, short, rest);
      }
    }
  }

  // ----- startup repair

  /** Startup repair's looser test: the prefix followed by any digit. */
  predicate LooksLikeContainerOf(name: string, prefix: string) {
    prefix <= name && |prefix| < |name| && IsDigit(name[|prefix|])
  }

  predicate RunsService(records: seq<ServiceDeployment>, s: Service) {
    !s.cronJob && exists sd <- records :: sd.serviceId == s.id && sd.status == Running
  }

  /** The deployment runs the service, and no listed name looks like a container of it. */
  predicate SeemsMissing(app: string, s: Service, records: seq<ServiceDeployment>, containers: set<string>) {
    RunsService(records, s) && forall c <- containers :: !LooksLikeContainerOf(c, ServicePrefix(app, s.name))
  }

  /** Names of the long-running services a deployment runs that seem to have no container. */
  method MissingServiceNames(app: string, services: seq<Service>, records: seq<ServiceDeployment>,
                             containers: set<string>) returns (missing: seq<string>)
    ensures forall name :: name in missing <==>
              exists s <- services ::
                && s.name == name && !s.cronJob
                && (exists sd <- records :: sd.serviceId == s.id && sd.status == Running)
                && (forall c <- containers :: !LooksLikeContainerOf(c, ServicePrefix(app, s.name)))
  {
    missing := [];
    for i := 0 to |services|
      invariant forall name :: name in missing <==>
                  exists s <- services[..i] :: s.name == name && SeemsMissing(app, s, records, containers)
    {
      var s := services[i];
      assert services[..i + 1] == services[..i] + [s];
      if SeemsMissing(app, s, records, containers) {
        missing := missing + [s.name];
      }
    }
    assert services[..|services|] == services;
  }

  lemma TailLooksPresentExactly(service: string, printed: string, digits: string, short: string)
    requires IsShortId(short) && digits != "" && forall k :: 0 <= k < |digits| ==> IsDigit(digits[k])
    ensures
      var tail := Tail(printed, digits, short);
      (service + "-" <= tail && |service| + 1 < |tail| && IsDigit(tail[|service| + 1])) <==>
      || printed == service
      || (service + "-" <= printed && |printed| > |service| + 1 && IsDigit(printed[|service| + 1]))
      || (service == printed + "-" + digits && IsDigit(short[0]))
  {
    var tail := Tail(printed, digits, short);
    var p, d := |printed|, |digits|;
    assert forall k :: 0 <= k < p ==> tail[k] == printed[k];
    assert tail[p] == '-' && tail[p + 1 + d] == '-';
    assert forall k :: 0 <= k < d ==> tail[p + 1 + k] == digits[k];
    assert forall k :: 0 <= k < 8 ==> tail[p + 2 + d + k] == short[k];
    if |service| < p {
      assert (service + "-" <= tail) <==> (service + "-" <= printed) by {
        assert tail[..p] == printed;
      }
    } else if service + "-" <= tail {
      assert tail[|service|] == (service + "-")[|service|] == '-';
      assert |service| == p || |service| == p + 1 + d;
      assert service == tail[..|service|];
      assert tail[..p] == printed && tail[..p + 1 + d] == printed + "-" + digits;
    } else {
      assert tail[..p + 1] == printed + "-" && tail[..p + 2 + d] == printed + "-" + digits + "-";
    }
  }

  /** Exactly which printed containers make a service look present. */
  lemma LooksPresentExactly(app: string, service: string, printed: string, replica: nat, short: string)
    requires IsShortId(short)
    ensures LooksLikeContainerOf(ContainerName(app, printed, replica, short), ServicePrefix(app, service)) <==>
            || printed == service
            || (service + "-" <= printed && |printed| > |service| + 1 && IsDigit(printed[|service| + 1]))
            || (service == printed + "-" + Decimal(replica) && IsDigit(short[0]))
  {
    var tail := Tail(printed, Decimal(replica), short);
    TailLooksPresentExactly(service, printed, Decimal(replica), short);
    PrefixUnderHead(AppPrefix(app), service + "-", tail);
    if service + "-" <= tail && |service| + 1 < |tail| {
      assert (AppPrefix(app) + tail)[|ServicePrefix(app, service)|] == tail[|service| + 1];
    }
  }

  /** A container of the app, as its name was printed. */
  datatype Printed = Printed(service: string, replica: nat, short: string) {
    function Name(app: string): string {
      ContainerName(app, service, replica, short)
    }

    /** Its name makes another service look present. */
    predicate Hides(other: string) {
      || (other + "-" <= service && |service| > |other| + 1 && IsDigit(service[|other| + 1]))
      || (other == service + "-" + Decimal(replica) && short != "" && IsDigit(short[0]))
    }
  }

  /**
   Over a whole listing, of printed names of the app among names without its prefix: a service that the deployment
   runs is reported exactly when no listed name was printed for it and none hides it.
   */
  lemma ReportedExactly(app: string, s: Service, records: seq<ServiceDeployment>,
                        printed: set<Printed>, others: set<string>)
    requires forall p <- printed :: IsShortId(p.short)
    requires forall c <- others :: !(AppPrefix(app) <= c)
    ensures SeemsMissing(app, s, records, (set p <- printed :: p.Name(app)) + others) <==>
            && !s.cronJob && (exists sd <- records :: sd.serviceId == s.id && sd.status == Running)
            && forall p <- printed :: p.service != s.name && !p.Hides(s.name)
  {
    var prefix := ServicePrefix(app, s.name);
    forall p <- printed
      ensures LooksLikeContainerOf(p.Name(app), prefix) <==> p.service == s.name || p.Hides(s.name)
    {
      LooksPresentExactly(app, s.name, p.service, p.replica, p.short);
    }
    var names := (set p <- printed :: p.Name(app)) + others;
    forall p <- printed ensures p.Name(app) in names {
    }
  }

  /** A service reported missing truly has no container. */
  lemma ReportedServiceHasNoContainer(app: string, service: string, containers: set<string>)
    requires forall c <- containers :: !LooksLikeContainerOf(c, ServicePrefix(app, service))
    ensures forall replica: nat, short :: IsShortId(short) ==>
              ContainerName(app, service, replica, short) !in containers
  {
    forall replica: nat, short | IsShortId(short)
      ensures ContainerName(app, service, replica, short) !in containers
    {
      LooksPresentExactly(app, service, service, replica, short);
    }
  }

  /** The other direction fails: a container of `web-1` hides that `web` has none. */
  lemma NeighbourHidesMissingService(app: string)
    ensures
      var containers := {ContainerName(app, "web-1", 0, "0123abcd")};
      && !(forall c <- containers :: !LooksLikeContainerOf(c, ServicePrefix(app, "web")))
      && forall replica: nat, short :: IsShortId(short) ==> ContainerName(app, "web", replica, short) !in containers
  {
    LooksPresentExactly(app, "web", "web-1", 0, "0123abcd");
    var c := ContainerName(app, "web-1", 0, "0123abcd");
    assert LooksLikeContainerOf(c, ServicePrefix(app, "web"));
    forall replica: nat, short | IsShortId(short)
      ensures ContainerName(app, "web", replica, short) != c
    {
      if ContainerName(app, "web", replica, short) == c {
        PrintingInjective(app, "web", replica, short, "web-1", 0, "0123abcd");
      }
    }
  }
}
