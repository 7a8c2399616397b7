/**
 The proxy's route table: routes replaced under the requests that use them, in-flight counters and
 a cache of verified credentials on each route state.
 */
module RouteTable {
  import opened Wrappers
  import opened Text
  import opened LoadBalancing
  import opened Domains

  const MAX_AUTH_CACHE_ENTRIES: nat := 64

  datatype Algorithm = RoundRobin | LeastConnections

  datatype BasicAuth = BasicAuth(username: string, passwordHash: string)

  /** The value of an Authorization header. */
  datatype Header = Header(value: string)

  /** A route as configured. */
  datatype Route = Route(domain: string, upstreams: nat, algorithm: Algorithm, basicAuth: Option<BasicAuth>)

  /** Parses an Authorization header (Basic scheme, section 2 of RFC 7617). */
  type HeaderParser = Header -> Option<(string, string)>

  /** Checks a password against a stored hash. */
  type HashCheck = (string, string) -> bool

  /** What a full check of a header against a route's own credentials answers. */
  predicate SlowPathAccepts(parse: HeaderParser, verify: HashCheck, expected: BasicAuth, header: Header) {
    match parse(header)
    case None => false
    case Some((username, password)) => username == expected.username && verify(password, expected.passwordHash)
  }

  /** The state of one installed route. It lives as long as requests hold it. */
  class RouteState {
    const domain: Domain
    const algorithm: Algorithm
    const basicAuth: Option<BasicAuth>
    const inflight: array<nat>
    var rrCursor: nat
    var authCache: set<Header>

    constructor (domain: Domain, route: Route)
      ensures this.domain == domain && algorithm == route.algorithm && basicAuth == route.basicAuth
      ensures fresh(inflight) && inflight.Length == route.upstreams
      ensures forall i :: 0 <= i < inflight.Length ==> inflight[i] == 0
      ensures rrCursor == 0 && authCache == {}
    {
      this.domain, algorithm, basicAuth := domain, route.algorithm, route.basicAuth;
      inflight := new nat[route.upstreams](_ => 0);
      rrCursor, authCache := 0, {};
    }

    method Begin(index: nat)
      requires index < inflight.Length
      modifies inflight
      ensures inflight[..] == old(inflight[..])[index := old(inflight[index]) + 1]
    {
      inflight[index] := inflight[index] + 1;
    }

    /** One request less, but never below zero. */
    method End(index: nat)
      requires index < inflight.Length
      modifies inflight
      ensures inflight[..] == old(inflight[..])[index := Decremented(old(inflight[index]))]
    {
      inflight[index] := Decremented(inflight[index]);
    }
  }

  /** A decrement that saturates at zero. */
  function Decremented(value: nat): nat {
    if value == 0 then 0 else value - 1
  }

  /** A selection handed to a request, completed when the request is logged. */
  datatype SelectedUpstream = SelectedUpstream(route: RouteState, index: nat)

  /** Credentials waiting for the expensive hash check. */
  datatype PendingBasicAuth = PendingBasicAuth(route: RouteState, header: Header, username: string, password: string)

  datatype BasicAuthCheck = NotRequired | Allowed | Denied | Verify(pending: PendingBasicAuth)

  /** One selection on a route: the algorithm's upstream, one more request on it and on no other, the cursor moved. */
  ghost predicate IsSelection(algorithm: Algorithm, cursor: nat, loads: seq<nat>,
                              index: nat, cursor': nat, loads': seq<nat>) {
    && index < |loads| && loads' == loads[index := loads[index] + 1]
    && match algorithm
       case RoundRobin => index == cursor % |loads| && cursor' == NextCursor(cursor)
       case LeastConnections => IsFirstMin(loads, index) && cursor' == cursor
  }

  /** What a number of consecutive selections on a route amount to, whatever the order of picks. */
  ghost predicate AreSelections(algorithm: Algorithm, cursor: nat, loads: seq<nat>,
                                indices: seq<nat>, cursor': nat, loads': seq<nat>)
    requires loads != [] && cursor < WORD
  {
    && (forall index <- indices :: index < |loads|)
    && |loads'| == |loads| && (forall u: nat :: u < |loads| ==> loads'[u] == loads[u] + multiset(indices)[u])
    && match algorithm
       case RoundRobin =>
         && cursor' == CursorAfter(cursor, |indices|)
         && forall u: nat :: u < |loads| ==> multiset(indices)[u] == Picks(cursor, |loads|, |indices|, u)
       case LeastConnections => cursor' == cursor && loads' == AfterSelections(loads, |indices|)
  }

  lemma OneMoreSelection(algorithm: Algorithm, cursor: nat, loads: seq<nat>, indices: seq<nat>,
                         cursor1: nat, loads1: seq<nat>, index: nat, cursor2: nat, loads2: seq<nat>)
    requires loads != [] && cursor < WORD
    requires AreSelections(algorithm, cursor, loads, indices, cursor1, loads1)
    requires IsSelection(algorithm, cursor1, loads1, index, cursor2, loads2)
    ensures AreSelections(algorithm, cursor, loads, indices + [index], cursor2, loads2)
  {
  }

  /** Consecutive round-robin selections are fair to each upstream while the cursor does not wrap. */
  lemma RoundRobinSelectionsAreFair(cursor: nat, loads: seq<nat>, indices: seq<nat>, cursor': nat, loads': seq<nat>,
                                    u: nat)
    requires u < |loads| && cursor < WORD && cursor + |indices| <= WORD
    requires AreSelections(RoundRobin, cursor, loads, indices, cursor', loads')
    ensures |indices| / |loads| <= multiset(indices)[u] <= (|indices| + |loads| - 1) / |loads|
  {
    RoundRobinIsFair(cursor, |loads|, |indices|, u);
  }

  /** Consecutive least-connections selections without completions keep level loads level. */
  lemma LeastConnectionsSelectionsStayLevel(cursor: nat, loads: seq<nat>, indices: seq<nat>,
                                            cursor': nat, loads': seq<nat>)
    requires loads != [] && cursor < WORD && Level(loads)
    requires AreSelections(LeastConnections, cursor, loads, indices, cursor', loads')
    ensures Level(loads')
  {
    SelectionsStayLevel(loads, |indices|);
  }

  /** The least loaded upstream, the first of several. */
  method LeastLoaded(inflight: array<nat>) returns (selected: nat)
    requires inflight.Length > 0
    ensures IsFirstMin(inflight[..], selected)
  {
    selected := 0;
    var lowest := inflight[0];
    for i := 1 to inflight.Length
      invariant selected < i && lowest == inflight[selected]
      invariant forall j :: 0 <= j < i ==> lowest <= inflight[j]
      invariant forall j :: 0 <= j < selected ==> lowest < inflight[j]
    {
      if inflight[i] < lowest {
        lowest, selected := inflight[i], i;
      }
    }
  }

  class RouteManager {
    const normalize: string -> Domain  // DomainOf, of which nothing else is needed here
    const parse: HeaderParser
    const verify: HashCheck
    var routes: map<Domain, RouteState>
    ghost var states: set<RouteState>                    // every route state ever installed
    ghost var holders: map<array<nat>, RouteState>       // whose counters an array holds
    ghost var outstanding: multiset<SelectedUpstream>    // tokens issued and not completed

    constructor (parse: HeaderParser, verify: HashCheck)
      ensures Valid() && this.parse == parse && this.verify == verify
      ensures forall domain :: normalize(domain) == DomainOf(domain)
      ensures routes == map[] && outstanding == multiset{} && states == {}
    {
      this.normalize, this.parse, this.verify := DomainOf, parse, verify;
      routes, states, holders, outstanding := map[], {}, map[], multiset{};
    }

    /** Each counter of a state is the number of outstanding tokens for it. */
    ghost predicate CountedState(s: RouteState)
      reads this`outstanding, s.inflight
    {
      forall i :: 0 <= i < s.inflight.Length ==> s.inflight[i] == outstanding[SelectedUpstream(s, i)]
    }

    /** ... on replaced routes too. */
    ghost predicate Counted()
      reads this`states, this`outstanding, this`holders, holders.Keys
    {
      forall s <- states :: s.inflight in holders ==> CountedState(s)
    }

    /** Whatever a cache holds, the full check against that route's credentials accepts. */
    ghost predicate CacheSound(s: RouteState)
      reads s
    {
      && |s.authCache| <= MAX_AUTH_CACHE_ENTRIES
      && forall h <- s.authCache :: s.basicAuth.Some? && SlowPathAccepts(parse, verify, s.basicAuth.value, h)
    }

    ghost predicate StatesSound()
      reads this`states, states
    {
      forall s <- states :: s.rrCursor < WORD && CacheSound(s)
    }

    ghost predicate Valid()
      reads this, states, holders.Keys
    {
      && (forall d <- routes :: routes[d] in states && routes[d].domain == d)
      && (forall s <- states :: s.inflight in holders && holders[s.inflight] == s)
      && (forall token <- outstanding :: token.route in states && token.index < token.route.inflight.Length)
      && Counted() && StatesSound()
    }

    /** Puts a new route state in place of the one of its domain; requests keep the old state. */
    method Install(state: RouteState)
      requires Valid() && state !in states && state.inflight !in holders
      requires state.authCache == {} && state.rrCursor == 0
      requires forall i :: 0 <= i < state.inflight.Length ==> state.inflight[i] == 0
      modifies this
      ensures Valid() && outstanding == old(outstanding)
      ensures routes == old(routes)[state.domain := state] && states == old(states) + {state}
      ensures holders == old(holders)[state.inflight := state]
    {
      assert forall i :: SelectedUpstream(state, i) !in outstanding;
      assert CountedState(state);
      routes := routes[state.domain := state];
      states := states + {state};
      holders := holders[state.inflight := state];
      forall s <- states ensures CountedState(s) {
        assert s != state ==> old(CountedState(s));
      }
      forall s <- states ensures s.rrCursor < WORD && CacheSound(s) {
        assert s != state ==> old(CacheSound(s));
      }
    }

    method AddRoute(route: Route)
      requires Valid()
      modifies this
      ensures Valid() && outstanding == old(outstanding)
      ensures normalize(route.domain) in routes && fresh(routes[normalize(route.domain)])
      ensures routes == old(routes)[normalize(route.domain) := routes[normalize(route.domain)]]
      ensures states == old(states) + {routes[normalize(route.domain)]}
      ensures
        var state := routes[normalize(route.domain)];
        && state.basicAuth == route.basicAuth && state.algorithm == route.algorithm && state.authCache == {}
        && state.inflight.Length == route.upstreams
        && forall i :: 0 <= i < state.inflight.Length ==> state.inflight[i] == 0
    {
      var state := new RouteState(normalize(route.domain), route);
      Install(state);
    }

    method RemoveRoute(domain: string)
      requires Valid()
      modifies this`routes
      ensures Valid() && routes == old(routes) - {normalize(domain)}
    {
      routes := routes - {normalize(domain)};
    }

    method Lookup(domain: string) returns (route: RouteState?)
      requires Valid()
      ensures route != null <==> normalize(domain) in routes
      ensures route != null ==> route == routes[normalize(domain)] && route in states
    {
      route := null;
      if normalize(domain) in routes {
        route := routes[normalize(domain)];
      }
    }

    /** Picks an upstream; the route may be replaced before the pick is counted. */
    method PickUpstream(route: RouteState) returns (index: nat)
      requires Valid() && route in states && route.inflight.Length > 0
      modifies route`rrCursor
      ensures Valid() && index < route.inflight.Length
      ensures route.algorithm.RoundRobin? ==>
                && index == old(route.rrCursor) % route.inflight.Length
                && route.rrCursor == NextCursor(old(route.rrCursor))
      ensures route.algorithm.LeastConnections? ==>
                IsFirstMin(route.inflight[..], index) && route.rrCursor == old(route.rrCursor)
    {
      match route.algorithm
      case RoundRobin =>
        index := route.rrCursor % route.inflight.Length;
        route.rrCursor := NextCursor(route.rrCursor);
      case LeastConnections =>
        index := LeastLoaded(route.inflight);
    }

    /** Counts a pick and hands out its token. */
    method Issue(route: RouteState, index: nat) returns (token: SelectedUpstream)
      requires Valid() && route in states && index < route.inflight.Length
      requires |outstanding| + 1 < WORD
      modifies this`outstanding, route.inflight
      ensures Valid() && token == SelectedUpstream(route, index)
      ensures outstanding == old(outstanding) + multiset{token}
      ensures route.inflight[..] == old(route.inflight[..])[index := old(route.inflight[index]) + 1]
    {
      assert CountedState(route);
      route.Begin(index);
      token := SelectedUpstream(route, index);
      outstanding := outstanding + multiset{token};
      forall s <- states ensures CountedState(s) {
        if s != route {
          assert old(CountedState(s)) && s.inflight != route.inflight;
        }
      }
    }

    /** Takes a token back and no longer counts its pick. */
    method TakeBack(token: SelectedUpstream)
      requires Valid() && token in outstanding
      modifies this`outstanding, token.route.inflight
      ensures Valid() && outstanding == old(outstanding) - multiset{token}
      ensures token.route.inflight[..] ==
              old(token.route.inflight[..])[token.index := Decremented(old(token.route.inflight[token.index]))]
    {
      var route := token.route;
      assert CountedState(route) && route.inflight[token.index] > 0;
      route.End(token.index);
      outstanding := outstanding - multiset{token};
      forall s <- states ensures CountedState(s) {
        if s != route {
          assert old(CountedState(s)) && s.inflight != route.inflight;
        }
      }
    }

    /**
     Completes a token once. The count is positive, so the saturating decrement never saturates; only the
     token's own route changes, so a token of a replaced route leaves the new route's counters alone.
     */
    method Complete(token: SelectedUpstream)
      requires Valid() && token in outstanding
      modifies this`outstanding, token.route.inflight
      ensures Valid() && outstanding == old(outstanding) - multiset{token}
      ensures old(token.route.inflight[token.index]) > 0
      ensures forall s <- states :: s != token.route ==> s.inflight[..] == old(s.inflight[..])
      ensures token.route.inflight[..] ==
              old(token.route.inflight[..])[token.index := old(token.route.inflight[token.index]) - 1]
    {
      assert CountedState(token.route);
      TakeBack(token);
    }

    method SelectOn(route: RouteState) returns (token: SelectedUpstream)
      requires Valid() && route in states && route.inflight.Length > 0 && |outstanding| + 1 < WORD
      modifies this`outstanding, route`rrCursor, route.inflight
      ensures Valid() && token.route == route && token.index < route.inflight.Length
      ensures outstanding == old(outstanding) + multiset{token}
      ensures IsSelection(route.algorithm, old(route.rrCursor), old(route.inflight[..]),
                          token.index, route.rrCursor, route.inflight[..])
    {
      var index := PickUpstream(route);
      token := Issue(route, index);
    }

    method SelectUpstream(domain: string) returns (selection: Option<SelectedUpstream>)
      requires Valid() && |outstanding| + 1 < WORD
      modifies this`outstanding, states, holders.Keys
      ensures Valid()
      ensures selection.None? <==>
                normalize(domain) !in routes || routes[normalize(domain)].inflight.Length == 0
      ensures selection.Some? ==> selection.value.route == routes[normalize(domain)]
      ensures selection.Some? ==>
                var route := selection.value.route;
                IsSelection(route.algorithm, old(route.rrCursor), old(route.inflight[..]),
                            selection.value.index, route.rrCursor, route.inflight[..])
      ensures selection.Some? ==> outstanding == old(outstanding) + multiset{selection.value}
      ensures selection.None? ==> outstanding == old(outstanding)
    {
      var route := Lookup(domain);
      if route == null || route.inflight.Length == 0 {
        return None;
      }
      var token := SelectOn(route);
      selection := Some(token);
    }

    /** Several requests for one domain in a row, none completed in between. */
    method SelectTimes(domain: string, k: nat) returns (indices: seq<nat>)
      requires Valid() && |outstanding| + k < WORD
      requires normalize(domain) in routes && routes[normalize(domain)].inflight.Length > 0
      modifies this`outstanding, states, holders.Keys
      ensures Valid() && |indices| == k && |outstanding| == |old(outstanding)| + k
      ensures
        var route := routes[normalize(domain)];
        AreSelections(route.algorithm, old(route.rrCursor), old(route.inflight[..]),
                      indices, route.rrCursor, route.inflight[..])
    {
      ghost var route := routes[normalize(domain)];
      ghost var cursor, loads := route.rrCursor, route.inflight[..];
      indices := [];
      for i := 0 to k
        invariant Valid() && |indices| == i && |outstanding| == |old(outstanding)| + i
        invariant AreSelections(route.algorithm, cursor, loads, indices, route.rrCursor, route.inflight[..])
      {
        ghost var cursor1, loads1 := route.rrCursor, route.inflight[..];
        var selection := SelectUpstream(domain);
        OneMoreSelection(route.algorithm, cursor, loads, indices, cursor1, loads1,
                         selection.value.index, route.rrCursor, route.inflight[..]);
        indices := indices + [selection.value.index];
      }
    }

    // ----- basic auth

    /** The fast answers; a header that is not cached yields the pending full check. */
    method CheckBasicAuth(domain: string, authorization: Option<string>) returns (check: BasicAuthCheck)
      requires Valid()
      ensures check == NotRequired <==> normalize(domain) !in routes || routes[normalize(domain)].basicAuth.None?
      ensures check == Allowed ==> authorization.Some?
      ensures check == Allowed ==> SlowPathAccepts(parse, verify, routes[normalize(domain)].basicAuth.value,
                                                   Header(Trim(authorization.value)))
      ensures check != NotRequired && authorization.Some? ==>
                (Header(Trim(authorization.value)) in routes[normalize(domain)].authCache ==> check == Allowed)
      ensures check == Denied ==> authorization.None? || parse(Header(Trim(authorization.value))).None?
      ensures check.Verify? ==> authorization.Some? && IsPending(check.pending)
      ensures check.Verify? ==> check.pending.header == Header(Trim(authorization.value))
      ensures check.Verify? ==> check.pending.route == routes[normalize(domain)]
    {
      var route := Lookup(domain);
      if route == null || route.basicAuth.None? {
        return NotRequired;
      }
      if authorization.None? {
        return Denied;
      }
      var header := Header(Trim(authorization.value));
      if header in route.authCache {
        return Allowed;
      }
      match parse(header)
      case None => check := Denied;
      case Some((username, password)) =>
        check := Verify(PendingBasicAuth(route, header, username, password));
    }

    /** What `CheckBasicAuth` hands out: a parsed header for a route state, possibly replaced since. */
    ghost predicate IsPending(pending: PendingBasicAuth)
      reads this
    {
      pending.route in states && parse(pending.header) == Some((pending.username, pending.password))
    }

    /** Caches a header that the full check accepts; a full cache is emptied first. */
    method Remember(route: RouteState, header: Header)
      requires Valid() && route in states && route.basicAuth.Some?
      requires SlowPathAccepts(parse, verify, route.basicAuth.value, header)
      modifies route`authCache
      ensures Valid() && header in route.authCache && route.authCache <= old(route.authCache) + {header}
    {
      if |route.authCache| >= MAX_AUTH_CACHE_ENTRIES {
        route.authCache := {};
      }
      route.authCache := route.authCache + {header};
    }

    /** The full check; a success is remembered on the route state it was asked of. */
    method VerifyPending(pending: PendingBasicAuth) returns (ok: bool)
      requires Valid() && IsPending(pending)
      modifies pending.route`authCache
      ensures Valid()
      ensures pending.route.basicAuth.None? ==> ok
      ensures pending.route.basicAuth.Some? ==>
                (ok <==> SlowPathAccepts(parse, verify, pending.route.basicAuth.value, pending.header))
      ensures pending.route.basicAuth.Some? ==>
                var expected := pending.route.basicAuth.value;
                ok <==> pending.username == expected.username && verify(pending.password, expected.passwordHash)
      ensures ok && pending.route.basicAuth.Some? ==> pending.header in pending.route.authCache
      ensures pending.route.authCache <= old(pending.route.authCache) + if ok then {pending.header} else {}
    {
      var route := pending.route;
      if route.basicAuth.None? {
        return true;
      }
      if pending.username != route.basicAuth.value.username
         || !verify(pending.password, route.basicAuth.value.passwordHash)
      {
        return false;
      }
      Remember(route, pending.header);
      ok := true;
    }
  }
}
