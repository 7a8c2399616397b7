/** The worker's ordering of services by dependency: Kahn's algorithm over service names. */
module TopologicalSort {
  import opened Wrappers
  import opened Model
  import opened Sequences
  import opened Graphs

  datatype SortError = CircularDependency

  function Names(services: seq<Service>): set<string> {
    set s <- services :: s.name
  }

  /** What each service name waits for: the siblings among its dependencies. Strangers do not order the rollout. */
  ghost function SiblingGraph(services: seq<Service>): map<string, set<string>> {
    map n <- Names(services) ::
      set s <- services, d <- s.dependsOn | s.name == n && d in Names(services) :: d
  }

  /** Every sibling dependency stands strictly before its dependent. */
  ghost predicate DependenciesFirst(services: seq<Service>, sorted: seq<Service>) {
    forall i :: 0 <= i < |sorted| ==>
      forall dep <- sorted[i].dependsOn :: dep in Names(services) ==> dep in Names(sorted[..i])
  }

  // ----- counting dependencies, with repetitions, as the in-degree table does

  ghost function Occurrences(services: seq<Service>, name: string, dep: string): nat {
    if services == [] then 0
    else
      var last := services[|services| - 1];
      Occurrences(services[..|services| - 1], name, dep)
      + if last.name == name then multiset(last.dependsOn)[dep] else 0
  }

  ghost function CountIn(deps: seq<string>, live: set<string>): nat {
    if deps == [] then 0
    else CountIn(deps[..|deps| - 1], live) + if deps[|deps| - 1] in live then 1 else 0
  }

  ghost function Degree(services: seq<Service>, name: string, live: set<string>): nat {
    if services == [] then 0
    else
      var last := services[|services| - 1];
      Degree(services[..|services| - 1], name, live)
      + if last.name == name then CountIn(last.dependsOn, live) else 0
  }

  lemma {:induction false} CountInWithout(deps: seq<string>, live: set<string>, name: string)
    requires name in live
    ensures CountIn(deps, live) == CountIn(deps, live - {name}) + multiset(deps)[name]
  {
    if deps != [] {
      var init := deps[..|deps| - 1];
      CountInWithout(init, live, name);
      assert deps == init + [deps[|deps| - 1]];
    }
  }

  lemma {:induction false} DegreeWithout(services: seq<Service>, name: string, live: set<string>, dep: string)
    requires dep in live
    ensures Degree(services, name, live) == Degree(services, name, live - {dep}) + Occurrences(services, name, dep)
  {
    if services != [] {
      var last := services[|services| - 1];
      DegreeWithout(services[..|services| - 1], name, live, dep);
      CountInWithout(last.dependsOn, live, dep);
    }
  }

  lemma {:induction false} CountInZero(deps: seq<string>, live: set<string>)
    ensures CountIn(deps, live) == 0 <==> forall d <- deps :: d !in live
  {
    if deps != [] {
      var init := deps[..|deps| - 1];
      CountInZero(init, live);
      assert deps == init + [deps[|deps| - 1]];
    }
  }

  lemma {:induction false} DegreeZero(services: seq<Service>, name: string, live: set<string>)
    ensures Degree(services, name, live) == 0 <==>
            forall s <- services, d :: s.name == name && d in s.dependsOn ==> d !in live
  {
    if services != [] {
      var init, last := services[..|services| - 1], services[|services| - 1];
      DegreeZero(init, name, live);
      CountInZero(last.dependsOn, live);
      assert services == init + [last];
    }
  }

  lemma {:induction false} OccurrencesOfStranger(services: seq<Service>, name: string, dep: string)
    requires name !in Names(services)
    ensures Occurrences(services, name, dep) == 0
  {
    if services != [] {
      OccurrencesOfStranger(services[..|services| - 1], name, dep);
    }
  }

  // ----- the graph built by the worker

  ghost predicate DegreesOf(prefix: seq<Service>, degrees: map<string, nat>, siblings: set<string>) {
    degrees.Keys == siblings && forall n <- degrees :: degrees[n] == Degree(prefix, n, siblings)
  }

  ghost predicate EdgesOf(prefix: seq<Service>, edges: map<string, seq<string>>, siblings: set<string>) {
    edges.Keys == siblings && forall d, n :: d in edges ==> multiset(edges[d])[n] == Occurrences(prefix, n, d)
  }

  /** Adjacency lists and in-degrees agree with the dependency lists, repetitions included. */
  ghost predicate GraphOf(services: seq<Service>, prefix: seq<Service>,
                          degrees: map<string, nat>, edges: map<string, seq<string>>) {
    DegreesOf(prefix, degrees, Names(services)) && EdgesOf(prefix, edges, Names(services))
  }

  function WithDependency(service: Service, dep: string): Service {
    service.(dependsOn := service.dependsOn + [dep])
  }

  lemma DegreeWithDependency(prefix: seq<Service>, service: Service, dep: string, name: string, live: set<string>)
    ensures Degree(prefix + [WithDependency(service, dep)], name, live)
            == Degree(prefix + [service], name, live) + if name == service.name && dep in live then 1 else 0
  {
    assert (service.dependsOn + [dep])[..|service.dependsOn|] == service.dependsOn;
    assert (prefix + [service])[..|prefix|] == prefix;
    assert (prefix + [WithDependency(service, dep)])[..|prefix|] == prefix;
  }

  lemma OccurrencesWithDependency(prefix: seq<Service>, service: Service, dep: string, name: string, d: string)
    ensures Occurrences(prefix + [WithDependency(service, dep)], name, d)
            == Occurrences(prefix + [service], name, d) + if name == service.name && d == dep then 1 else 0
  {
    assert (prefix + [service])[..|prefix|] == prefix;
    assert (prefix + [WithDependency(service, dep)])[..|prefix|] == prefix;
  }

  lemma AddDegree(prefix: seq<Service>, service: Service, dep: string, degrees: map<string, nat>, siblings: set<string>)
    requires service.name in siblings && DegreesOf(prefix + [service], degrees, siblings)
    ensures DegreesOf(prefix + [WithDependency(service, dep)],
                      if dep in siblings then degrees[service.name := degrees[service.name] + 1] else degrees, siblings)
  {
    forall n <- degrees
      ensures Degree(prefix + [WithDependency(service, dep)], n, siblings)
              == degrees[n] + if n == service.name && dep in siblings then 1 else 0
    {
      DegreeWithDependency(prefix, service, dep, n, siblings);
    }
  }

  lemma AddEdge(prefix: seq<Service>, service: Service, dep: string, edges: map<string, seq<string>>,
                siblings: set<string>)
    requires EdgesOf(prefix + [service], edges, siblings)
    ensures EdgesOf(prefix + [WithDependency(service, dep)],
                    if dep in siblings then edges[dep := edges[dep] + [service.name]] else edges, siblings)
  {
    var edges' := if dep in siblings then edges[dep := edges[dep] + [service.name]] else edges;
    forall d, n | d in edges
      ensures multiset(edges'[d])[n] == Occurrences(prefix + [WithDependency(service, dep)], n, d)
    {
      OccurrencesWithDependency(prefix, service, dep, n, d);
    }
  }

  lemma GraphWithoutDependencies(services: seq<Service>, prefix: seq<Service>, service: Service,
                                 degrees: map<string, nat>, edges: map<string, seq<string>>)
    requires GraphOf(services, prefix, degrees, edges)
    ensures GraphOf(services, prefix + [service.(dependsOn := service.dependsOn[..0])], degrees, edges)
  {
    var bare := service.(dependsOn := service.dependsOn[..0]);
    assert (prefix + [bare])[..|prefix|] == prefix;
  }

  /** Adds one service's dependency list: repetitions count again, strangers are skipped. */
  method AddDependencies(services: seq<Service>, ghost prefix: seq<Service>, service: Service,
                         degrees0: map<string, nat>, edges0: map<string, seq<string>>)
    returns (degrees: map<string, nat>, edges: map<string, seq<string>>)
    requires service in services && GraphOf(services, prefix, degrees0, edges0)
    ensures GraphOf(services, prefix + [service], degrees, edges)
  {
    degrees, edges := degrees0, edges0;
    var deps, name := service.dependsOn, service.name;
    GraphWithoutDependencies(services, prefix, service, degrees, edges);
    for k := 0 to |deps|
      invariant GraphOf(services, prefix + [service.(dependsOn := deps[..k])], degrees, edges)
    {
      AddDegree(prefix, service.(dependsOn := deps[..k]), deps[k], degrees, Names(services));
      AddEdge(prefix, service.(dependsOn := deps[..k]), deps[k], edges, Names(services));
      TakeNext(deps, k);
      if deps[k] in edges {
        edges := edges[deps[k] := edges[deps[k]] + [name]];
        degrees := degrees[name := degrees[name] + 1];
      }
    }
    TakeAll(deps);
  }

  method BuildGraph(services: seq<Service>)
    returns (degrees: map<string, nat>, edges: map<string, seq<string>>)
    ensures GraphOf(services, services, degrees, edges)
  {
    degrees := map s <- services :: s.name := 0;
    edges := map s <- services :: s.name := [];
    for i := 0 to |services|
      invariant GraphOf(services, services[..i], degrees, edges)
    {
      degrees, edges := AddDependencies(services, services[..i], services[i], degrees, edges);
      TakeNext(services, i);
    }
    TakeAll(services);
  }

  // ----- Kahn's loop

  /** Decrements the in-degree of every neighbour, releasing those that reach zero. It never underflows. */
  method ReleaseNeighbors<N(==)>(degrees0: map<N, nat>, neighbors: seq<N>)
    returns (degrees: map<N, nat>, released: seq<N>)
    requires forall n <- neighbors :: n in degrees0
    requires forall n <- degrees0 :: degrees0[n] >= multiset(neighbors)[n]
    ensures degrees.Keys == degrees0.Keys
    ensures forall n <- degrees :: degrees[n] + multiset(neighbors)[n] == degrees0[n]
    ensures forall n <- degrees :: degrees[n] == 0 <==> degrees0[n] == 0 || n in released
    ensures forall n <- released :: n in degrees
  {
    degrees, released := degrees0, [];
    for k := 0 to |neighbors|
      invariant degrees.Keys == degrees0.Keys
      invariant forall n <- degrees :: degrees[n] + multiset(neighbors[..k])[n] == degrees0[n]
      invariant forall n <- degrees :: degrees[n] == 0 <==> degrees0[n] == 0 || n in released
      invariant forall n <- released :: n in degrees
    {
      var neighbor := neighbors[k];
      TakeNext(neighbors, k);
      assert multiset(neighbors)[neighbor] > multiset(neighbors[..k])[neighbor] by {
        assert neighbors == neighbors[..k + 1] + neighbors[k + 1..];
      }
      degrees := degrees[neighbor := degrees[neighbor] - 1];
      if degrees[neighbor] == 0 {
        released := released + [neighbor];
      }
    }
    TakeAll(neighbors);
  }

  /** The in-degrees count the unvisited dependencies; the queue holds the unvisited names without any. */
  ghost predicate Counted(services: seq<Service>, degrees: map<string, nat>, queue: seq<string>,
                          visited: set<string>) {
    && visited <= degrees.Keys == Names(services)
    && (forall n <- degrees :: degrees[n] == Degree(services, n, Names(services) - visited))
    && (forall n <- queue :: n in degrees)
    && (forall n <- degrees :: degrees[n] == 0 <==> n in visited || n in queue)
  }

  /** The output lists one service for each visited name, dependencies first. */
  ghost predicate Listed(services: seq<Service>, visited: set<string>, sorted: seq<Service>) {
    && visited == Names(sorted) && |sorted| == |visited|
    && DistinctNames(sorted) && DependenciesFirst(services, sorted)
    && (forall s <- sorted :: s in services)
  }

  lemma AppendKeepsOrder(services: seq<Service>, sorted: seq<Service>, service: Service)
    requires DependenciesFirst(services, sorted)
    requires forall dep <- service.dependsOn :: dep in Names(services) ==> dep in Names(sorted)
    ensures DependenciesFirst(services, sorted + [service])
  {
    forall i | 0 <= i <= |sorted| ensures (sorted + [service])[..i] == sorted[..i] {}
    TakeAll(sorted);
  }

  lemma AppendVisited(sorted: seq<Service>, visited: set<string>, service: Service)
    requires visited == Names(sorted) && |sorted| == |visited| && DistinctNames(sorted)
    requires service.name !in visited
    ensures Names(sorted + [service]) == visited + {service.name}
    ensures |sorted + [service]| == |visited + {service.name}| && DistinctNames(sorted + [service])
  {
    forall s <- sorted ensures s.name in visited {}
    forall n ensures n in Names(sorted + [service]) <==> n in visited + {service.name} {
      if n in visited {
        var s :| s in sorted && s.name == n;
        assert s in sorted + [service];
      }
      assert service in sorted + [service];
    }
  }

  // ----- what the loop's end means

  lemma {:induction false} DistinctIffAsManyNames(services: seq<Service>)
    ensures |Names(services)| <= |services|
    ensures DistinctNames(services) <==> |Names(services)| == |services|
  {
    if services != [] {
      var init, last := services[..|services| - 1], services[|services| - 1];
      DistinctIffAsManyNames(init);
      assert services == init + [last];
      assert Names(services) == Names(init) + {last.name};
      if last.name in Names(init) {
        var s :| s in init && s.name == last.name;
        var i :| 0 <= i < |init| && init[i] == s;
        assert services[i].name == services[|services| - 1].name;
      }
    }
  }

  ghost function NameList(services: seq<Service>): (names: seq<string>)
    ensures |names| == |services|
  {
    seq(|services|, i requires 0 <= i < |services| => services[i].name)
  }

  lemma DependencyIsBefore(services: seq<Service>, sorted: seq<Service>, i: nat, d: string)
    requires DistinctNames(services) && DependenciesFirst(services, sorted) && forall s <- sorted :: s in services
    requires i < |sorted| && sorted[i].name in SiblingGraph(services) && d in SiblingGraph(services)[sorted[i].name]
    ensures d in Names(sorted[..i])
  {
    var s :| s in services && s.name == sorted[i].name && d in s.dependsOn;
    assert sorted[i] in services;
    assert s == sorted[i];
  }

  lemma NamesListed(services: seq<Service>, k: nat, name: string)
    requires k <= |services|
    ensures name in Names(services[..k]) <==> name in NameList(services)[..k]
  {
    if name in Names(services[..k]) {
      var i :| 0 <= i < k && services[..k][i].name == name;
      assert NameList(services)[..k][i] == name;
    }
  }

  lemma SortedMeansAcyclic(services: seq<Service>, sorted: seq<Service>)
    requires DistinctNames(services) && DistinctNames(sorted) && DependenciesFirst(services, sorted)
    requires Names(sorted) == Names(services) && forall s <- sorted :: s in services
    ensures Acyclic(SiblingGraph(services))
  {
    var order := NameList(sorted);
    forall i, d | 0 <= i < |order| && order[i] in SiblingGraph(services) && d in SiblingGraph(services)[order[i]]
      ensures d in order[..i]
    {
      DependencyIsBefore(services, sorted, i, d);
      NamesListed(sorted, i, d);
    }
    forall n <- SiblingGraph(services) ensures n in order {
      NamesListed(sorted, |sorted|, n);
      TakeAll(sorted);
    }
    OrderMeansAcyclic(SiblingGraph(services), order);
  }

  // ----- the sort

  method IndexByName(services: seq<Service>) returns (byName: map<string, Service>)
    ensures byName.Keys == Names(services)
    ensures forall n <- byName :: byName[n] in services && byName[n].name == n
  {
    byName := map[];
    for i := 0 to |services|
      invariant byName.Keys == Names(services[..i])
      invariant forall n <- byName :: byName[n] in services && byName[n].name == n
    {
      TakeNext(services, i);
      byName := byName[services[i].name := services[i]];
    }
    TakeAll(services);
  }

  /** The names without dependencies, in whatever order the hash map yields them. */
  method InitialQueue(degrees: map<string, nat>) returns (queue: seq<string>)
    ensures forall n <- queue :: n in degrees
    ensures forall n <- degrees :: degrees[n] == 0 <==> n in queue
  {
    queue := [];
    var rest := degrees.Keys;
    while rest != {}
      invariant rest <= degrees.Keys
      invariant forall n <- queue :: n in degrees
      invariant forall n <- degrees.Keys - rest :: degrees[n] == 0 <==> n in queue
      invariant forall n <- rest :: n !in queue
    {
      var name :| name in rest;
      if degrees[name] == 0 {
        queue := queue + [name];
      }
      rest := rest - {name};
    }
  }

  lemma DegreesAfterVisit(services: seq<Service>, degrees: map<string, nat>, edges: map<string, seq<string>>,
                          live: set<string>, name: string)
    requires degrees.Keys == edges.Keys == Names(services)
    requires forall n <- degrees :: degrees[n] == Degree(services, n, live)
    requires forall d, n :: d in edges ==> multiset(edges[d])[n] == Occurrences(services, n, d)
    requires name in live && name in edges
    ensures forall n <- edges[name] :: n in degrees
    ensures forall n <- degrees :: degrees[n] == Degree(services, n, live - {name}) + multiset(edges[name])[n]
  {
    forall n <- edges[name] ensures n in degrees {
      if n !in Names(services) {
        OccurrencesOfStranger(services, n, name);
        assert false;
      }
    }
    forall n <- degrees
      ensures degrees[n] == Degree(services, n, live - {name}) + multiset(edges[name])[n]
    {
      DegreeWithout(services, n, live, name);
    }
  }

  lemma UnvisitedNeverStuck(services: seq<Service>, live: set<string>)
    requires live <= Names(services)
    requires forall n <- live :: Degree(services, n, live) > 0
    ensures NeverStuck(SiblingGraph(services), live)
  {
    forall n <- live ensures n in SiblingGraph(services) && SiblingGraph(services)[n] * live != {} {
      DegreeZero(services, n, live);
      var s, d :| s in services && s.name == n && d in s.dependsOn && d in live;
      assert d in SiblingGraph(services)[n] * live;
    }
  }

  lemma SortedIsPermutation(services: seq<Service>, sorted: seq<Service>)
    requires DistinctNames(services) && DistinctNames(sorted)
    requires Names(sorted) == Names(services) && forall s <- sorted :: s in services
    ensures multiset(sorted) == multiset(services)
  {
    forall s <- services ensures s in sorted {
      assert s.name in Names(sorted);
      var t :| t in sorted && t.name == s.name;
      assert t in services;
    }
    SameElementsPermute(services, sorted);
  }

  lemma NothingLeft(services: seq<Service>, degrees: map<string, nat>, visited: set<string>, sorted: seq<Service>)
    requires Counted(services, degrees, [], visited) && Listed(services, visited, sorted)
    ensures |sorted| == |services| ==>
              DistinctNames(services) && Acyclic(SiblingGraph(services)) && multiset(sorted) == multiset(services)
    ensures |sorted| != |services| ==> !(DistinctNames(services) && Acyclic(SiblingGraph(services)))
  {
    DistinctIffAsManyNames(services);
    SmallerSubset(visited, Names(services));
    if |sorted| == |services| {
      SortedIsPermutation(services, sorted);
      SortedMeansAcyclic(services, sorted);
    } else if DistinctNames(services) {
      UnvisitedNeverStuck(services, Names(services) - visited);
      NeverStuckMeansCycle(SiblingGraph(services), Names(services) - visited);
    }
  }

  lemma VisitLists(services: seq<Service>, visited: set<string>, sorted: seq<Service>, service: Service)
    requires Listed(services, visited, sorted)
    requires service in services && service.name !in visited
    requires Degree(services, service.name, Names(services) - visited) == 0
    ensures Listed(services, visited + {service.name}, sorted + [service])
  {
    DegreeZero(services, service.name, Names(services) - visited);
    forall dep <- service.dependsOn | dep in Names(services) ensures dep in Names(sorted) {
      assert dep !in Names(services) - visited;
    }
    AppendVisited(sorted, visited, service);
    AppendKeepsOrder(services, sorted, service);
  }

  /** Releases the names waiting for `name`, which leaves the queue. */
  method Visit(services: seq<Service>, name: string, edges: map<string, seq<string>>,
               degrees0: map<string, nat>, rest: seq<string>, ghost visited: set<string>)
    returns (degrees: map<string, nat>, queue: seq<string>)
    requires EdgesOf(services, edges, Names(services)) && name !in visited
    requires Counted(services, degrees0, [name] + rest, visited)
    ensures Counted(services, degrees, queue, visited + {name})
  {
    ghost var live := Names(services) - visited;
    assert name in [name] + rest;
    DegreesAfterVisit(services, degrees0, edges, live, name);
    assert Names(services) - (visited + {name}) == live - {name};
    var released: seq<string>;
    degrees, released := ReleaseNeighbors(degrees0, edges[name]);
    queue := rest + released;
  }

  /** Pops the queue once. A name popped again is skipped. */
  method PopQueue(services: seq<Service>, byName: map<string, Service>, edges: map<string, seq<string>>,
                  degrees0: map<string, nat>, queue0: seq<string>, visited0: set<string>, sorted0: seq<Service>)
    returns (degrees: map<string, nat>, queue: seq<string>, visited: set<string>, sorted: seq<Service>)
    requires EdgesOf(services, edges, Names(services)) && byName.Keys == Names(services) && queue0 != []
    requires forall n <- byName :: byName[n] in services && byName[n].name == n
    requires Counted(services, degrees0, queue0, visited0) && Listed(services, visited0, sorted0)
    ensures Counted(services, degrees, queue, visited) && Listed(services, visited, sorted)
    ensures visited == visited0 + {queue0[0]} && (queue0[0] in visited0 ==> |queue| < |queue0|)
  {
    var name, rest := queue0[0], queue0[1..];
    assert queue0 == [name] + rest && name in queue0;
    if name in visited0 {
      return degrees0, rest, visited0, sorted0;
    }
    VisitLists(services, visited0, sorted0, byName[name]);
    degrees, queue := Visit(services, name, edges, degrees0, rest, visited0);
    sorted, visited := sorted0 + [byName[name]], visited0 + {name};
  }

  /** The worker's sort, for every order of the first queue. */
  method TopologicalSortServices(services: seq<Service>)
    returns (result: Result<seq<Service>, SortError>)
    ensures result.Ok? <==> DistinctNames(services) && Acyclic(SiblingGraph(services))
    ensures result.Ok? ==> multiset(result.value) == multiset(services)
    ensures result.Ok? ==> DistinctNames(result.value) && DependenciesFirst(services, result.value)
  {
    var byName := IndexByName(services);
    var degrees, edges := BuildGraph(services);
    var queue := InitialQueue(degrees);
    var sorted: seq<Service>, visited: set<string> := [], {};
    assert Names(services) - visited == Names(services);

    while queue != []
      invariant Counted(services, degrees, queue, visited) && Listed(services, visited, sorted)
      decreases Names(services) - visited, |queue|
    {
      assert queue[0] in degrees;
      degrees, queue, visited, sorted := PopQueue(services, byName, edges, degrees, queue, visited, sorted);
    }
    NothingLeft(services, degrees, visited, sorted);
    if |sorted| != |services| {
      return Err(CircularDependency);
    }
    result := Ok(sorted);
  }
}
