/** The proxy's incremental state: routes per port, listeners, cached endpoints. Replacing a
    runtime's routes filters, appends and sorts in place; the invariant below says that the
    outcome is always the plain union of what the routed runtimes claim. */
module RouteTable {
  import opened Collections
  import opened Text
  import opened Sorting
  import opened Runtimes
  import opened Routing
  import Admission

  /** A listener is known by the serial number it was started with. */
  datatype Table = Table(
    routes: map<int, seq<Route>>,
    servers: map<int, nat>,
    endpoints: map<string, seq<Endpoint>>,
    started: nat)

  // ------------------------------------------------------------------- routes

  function NotOf(key: Key): Route -> bool {
    (r: Route) => r.key != key
  }

  function Others(rs: seq<Route>, key: Key): (out: seq<Route>) {
    Filter(rs, NotOf(key))
  }

  /** `removeRoutesForKeyLocked`: what stays of the table. */
  function WithoutKey(routes: map<int, seq<Route>>, key: Key): (out: map<int, seq<Route>>) {
    map p | p in routes && Others(routes[p], key) != [] :: Others(routes[p], key)
  }

  /** `removeRoutesForKeyLocked`: the listening ports it empties. */
  function Emptied(routes: map<int, seq<Route>>, servers: map<int, nat>, key: Key): (ports: set<int>) {
    set p | p in routes && p in servers && Others(routes[p], key) == []
  }

  function RoutesAt(routes: map<int, seq<Route>>, port: int): seq<Route> {
    if port in routes then routes[port] else []
  }

  function Appended(routes: map<int, seq<Route>>, added: map<int, seq<Route>>): (out: map<int, seq<Route>>) {
    map p | p in routes.Keys + added.Keys ::
      if p in added then SortRoutes(RoutesAt(routes, p) + added[p]) else routes[p]
  }

  ghost predicate RoutesOf(rt: Runtime, added: map<int, seq<Route>>) {
    && (forall p :: p in added <==> ClaimsPort(rt, p))
    && (forall p :: p in added ==> added[p] == PortRoutes(rt, p))
  }

  /** How many copies of r the runtimes claim on a port: only its own runtime can. */
  ghost function Share(routed: map<string, Runtime>, port: int, r: Route): (n: nat) {
    if r.key.Path() in routed && routed[r.key.Path()].key == r.key
    then multiset(PortRoutes(routed[r.key.Path()], port))[r] else 0
  }

  /** The table is the sorted union of the claims of the routed runtimes. */
  ghost predicate Rebuilt(routes: map<int, seq<Route>>, routed: map<string, Runtime>) {
    && (forall p :: p in routes ==> routes[p] != [] && Ordered(routes[p]))
    && (forall p, r :: multiset(RoutesAt(routes, p))[r] == Share(routed, p, r))
  }

  ghost predicate Keyed(specs: map<string, Runtime>) {
    forall k :: k in specs ==> ValidKey(specs[k].key) && specs[k].key.Path() == k
  }

  lemma {:induction false} FilterCount<T>(s: seq<T>, p: T -> bool, x: T)
    ensures multiset(Filter(s, p))[x] == if p(x) then multiset(s)[x] else 0
  {
    if s != [] {
      FilterCount(s[..|s| - 1], p, x);
      assert s == s[..|s| - 1] + [s[|s| - 1]];
    }
  }

  lemma OwnRoutes(rt: Runtime, port: int, r: Route)
    requires r in PortRoutes(rt, port)
    ensures r.key == rt.key
  {
    PortRoutesMembers(rt, port, r);
    hide PortRoutes;
    var i :| 0 <= i < |Claimed(rt)| && Claimed(rt)[i] == PortRoute(port, r);
  }

  lemma WithoutKeyShare(routes: map<int, seq<Route>>, routed: map<string, Runtime>, key: Key, port: int, r: Route)
    requires Rebuilt(routes, routed) && Keyed(routed)
    ensures multiset(RoutesAt(WithoutKey(routes, key), port))[r] == Share(routed - {key.Path()}, port, r)
  {
    FilterCount(RoutesAt(routes, port), NotOf(key), r);
    assert RoutesAt(WithoutKey(routes, key), port) == Others(RoutesAt(routes, port), key);
    assert multiset(RoutesAt(routes, port))[r] == Share(routed, port, r);
    hide PortRoutes, RoutesAt, WithoutKey, Rebuilt;
    ShareWithout(routed, key, port, r);
  }

  lemma ShareWithout(routed: map<string, Runtime>, key: Key, port: int, r: Route)
    requires Keyed(routed)
    ensures Share(routed - {key.Path()}, port, r) == if r.key != key then Share(routed, port, r) else 0
  {
    hide PortRoutes, ValidKey;
    if r.key.Path() == key.Path() && key.Path() in routed {
      if routed[key.Path()].key == r.key {
        KeyPathInjective(routed[key.Path()].key, key);
      }
    }
  }

  /** Removing a runtime's routes leaves the union of the others' claims. */
  lemma RemoveKeepsRebuilt(routes: map<int, seq<Route>>, routed: map<string, Runtime>, key: Key)
    requires Rebuilt(routes, routed) && Keyed(routed)
    ensures Rebuilt(WithoutKey(routes, key), routed - {key.Path()})
  {
    var out := WithoutKey(routes, key);
    forall p | p in out
      ensures out[p] != [] && Ordered(out[p])
    {
      FilterSorted(routes[p], NotOf(key), RouteOrder());
    }
    forall p, r
      ensures multiset(RoutesAt(out, p))[r] == Share(routed - {key.Path()}, p, r)
    {
      WithoutKeyShare(routes, routed, key, p, r);
    }
  }

  lemma AppendedAt(routes: map<int, seq<Route>>, rt: Runtime, added: map<int, seq<Route>>, port: int)
    requires RoutesOf(rt, added)
    ensures multiset(RoutesAt(Appended(routes, added), port))
            == multiset(RoutesAt(routes, port)) + multiset(PortRoutes(rt, port))
  {
    PortRoutesEmpty(rt, port);
    hide PortRoutes, SortRoutes, ClaimsPort;
    SortRoutesOrdered(RoutesAt(routes, port) + PortRoutes(rt, port));
    assert RoutesAt(routes, port) + [] == RoutesAt(routes, port);
  }

  lemma AppendShare(routes: map<int, seq<Route>>, rest: map<string, Runtime>, rt: Runtime,
                    added: map<int, seq<Route>>, port: int, r: Route)
    requires Rebuilt(routes, rest) && RoutesOf(rt, added)
    requires rt.key.Path() !in rest
    ensures multiset(RoutesAt(Appended(routes, added), port))[r] == Share(rest[rt.key.Path() := rt], port, r)
  {
    hide PortRoutes, Appended, RoutesOf, RoutesAt;
    var own := PortRoutes(rt, port);
    AppendedAt(routes, rt, added, port);
    if r in own {
      OwnRoutes(rt, port, r);
    }
    assert multiset(RoutesAt(routes, port))[r] == Share(rest, port, r);
    assert r in multiset(own) <==> r in own;
  }

  /** Appending and sorting adds exactly the runtime's claims. */
  lemma AppendKeepsRebuilt(routes: map<int, seq<Route>>, rest: map<string, Runtime>, rt: Runtime,
                           added: map<int, seq<Route>>)
    requires Rebuilt(routes, rest) && RoutesOf(rt, added)
    requires rt.key.Path() !in rest
    ensures Rebuilt(Appended(routes, added), rest[rt.key.Path() := rt])
  {
    var out := Appended(routes, added);
    forall p | p in out
      ensures out[p] != [] && Ordered(out[p])
    {
      PortRoutesEmpty(rt, p);
      SortRoutesOrdered(RoutesAt(routes, p) + PortRoutes(rt, p));
    }
    forall p, r
      ensures multiset(RoutesAt(out, p))[r] == Share(rest[rt.key.Path() := rt], p, r)
    {
      AppendShare(routes, rest, rt, added, p, r);
    }
  }

  /** Replacing a runtime's routes keeps the table equal to the rebuilt one. */
  lemma ReplaceKeepsRebuilt(routes: map<int, seq<Route>>, routed: map<string, Runtime>, rt: Runtime,
                            added: map<int, seq<Route>>)
    requires Rebuilt(routes, routed) && Keyed(routed) && RoutesOf(rt, added)
    ensures Rebuilt(Appended(WithoutKey(routes, rt.key), added), routed[rt.key.Path() := rt])
  {
    var k := rt.key.Path();
    RemoveKeepsRebuilt(routes, routed, rt.key);
    AppendKeepsRebuilt(WithoutKey(routes, rt.key), routed - {k}, rt, added);
    assert (routed - {k})[k := rt] == routed[k := rt];
  }

  /** Tables of the same routed runtimes hold the same routes on every port. */
  lemma RebuiltDetermined(a: map<int, seq<Route>>, b: map<int, seq<Route>>, routed: map<string, Runtime>, port: int)
    requires Rebuilt(a, routed) && Rebuilt(b, routed)
    ensures port in a <==> port in b
    ensures multiset(RoutesAt(a, port)) == multiset(RoutesAt(b, port))
  {
    var x, y := multiset(RoutesAt(a, port)), multiset(RoutesAt(b, port));
    assert forall r :: x[r] == Share(routed, port, r) == y[r];
    assert |RoutesAt(a, port)| == |x| && |RoutesAt(b, port)| == |y|;
  }

  /** A port is in the table exactly when a routed runtime claims it. */
  lemma PortsAreClaimed(routes: map<int, seq<Route>>, routed: map<string, Runtime>, port: int)
    requires Rebuilt(routes, routed) && Keyed(routed)
    ensures port in routes <==> exists k :: k in routed && ClaimsPort(routed[k], port)
  {
    var rs := RoutesAt(routes, port);
    if port in routes {
      var r := rs[0];
      assert r in multiset(rs);
      assert multiset(rs)[r] == Share(routed, port, r);
      PortRoutesEmpty(routed[r.key.Path()], port);
      assert r in PortRoutes(routed[r.key.Path()], port);
    }
    if k :| k in routed && ClaimsPort(routed[k], port) {
      PortRoutesEmpty(routed[k], port);
      var r := PortRoutes(routed[k], port)[0];
      OwnRoutes(routed[k], port, r);
      assert r in multiset(PortRoutes(routed[k], port));
      assert multiset(rs)[r] == Share(routed, port, r);
    }
  }

  lemma TableRouteIsClaimed(routes: map<int, seq<Route>>, routed: map<string, Runtime>, port: int, r: Route)
    requires Rebuilt(routes, routed) && r in multiset(RoutesAt(routes, port))
    ensures r.key.Path() in routed && routed[r.key.Path()].key == r.key
    ensures PortRoute(port, r) in Claimed(routed[r.key.Path()])
  {
    assert multiset(RoutesAt(routes, port))[r] == Share(routed, port, r);
    PortRoutesMembers(routed[r.key.Path()], port, r);
  }

  // ------------------------------------------------------ no ties in the table

  ghost predicate NoDoubleSlash(rt: Runtime) {
    forall c :: c in Admission.Claims(rt) ==> !DoubleSlashEnd(CleanPath(c.path))
  }

  lemma ClaimedCases(rt: Runtime, port: int, r: Route)
    requires PortRoute(port, r) in Claimed(rt)
    ensures (Admission.UsesServicePort(rt, port)
             && exists s :: s in rt.services && s.listenPort == port && r == Route(rt.key, s.name, "", "", ""))
            || (exists c :: c in Admission.Claims(rt) && PortRoute(port, r) == RouteOf(rt.key, c))
  {
    var i :| 0 <= i < |Claimed(rt)| && Claimed(rt)[i] == PortRoute(port, r);
    if i < |rt.services| {
      assert rt.services[i] in rt.services;
    } else {
      assert Admission.Claims(rt)[i - |rt.services|] in Admission.Claims(rt);
    }
  }

  lemma ClaimedClean(rt: Runtime, port: int, r: Route)
    requires PortRoute(port, r) in Claimed(rt) && NoDoubleSlash(rt)
    ensures CleanPrefix(r)
  {
    ClaimedCases(rt, port, r);
  }

  lemma IngressClaimUses(rt: Runtime, c: PathClaim)
    requires c in Admission.Claims(rt)
    ensures Admission.UsesIngressPort(rt, c.port)
  {
    ClaimsHavePorts(rt.ingress, c);
  }

  lemma CompatibleApart(a: Runtime, b: Runtime, port: int, r: Route, s: Route)
    requires Admission.Compatible(a, b)
    requires PortRoute(port, r) in Claimed(a) && PortRoute(port, s) in Claimed(b)
    ensures Apart(r, s)
  {
    ClaimedCases(a, port, r);
    ClaimedCases(b, port, s);
    hide Admission.HostsOverlap, CleanPath;
    if c :| c in Admission.Claims(a) && PortRoute(port, r) == RouteOf(a.key, c) {
      IngressClaimUses(a, c);
      if d :| d in Admission.Claims(b) && PortRoute(port, s) == RouteOf(b.key, d) {
        assert !Admission.Conflicts(c, d);
      }
    } else if d :| d in Admission.Claims(b) && PortRoute(port, s) == RouteOf(b.key, d) {
      IngressClaimUses(b, d);
    }
  }

  lemma ConflictsSymmetric(c: PathClaim, d: PathClaim)
    ensures Admission.Conflicts(c, d) <==> Admission.Conflicts(d, c)
  {
  }

  lemma SelfApart(rt: Runtime, port: int, r: Route, s: Route)
    requires Admission.SelfSafe(rt) && r != s
    requires PortRoute(port, r) in Claimed(rt) && PortRoute(port, s) in Claimed(rt)
    ensures Apart(r, s)
  {
    ClaimedCases(rt, port, r);
    ClaimedCases(rt, port, s);
    hide Admission.HostsOverlap, CleanPath;
    if c :| c in Admission.Claims(rt) && PortRoute(port, r) == RouteOf(rt.key, c) {
      IngressClaimUses(rt, c);
      if d :| d in Admission.Claims(rt) && PortRoute(port, s) == RouteOf(rt.key, d) {
        ConflictsSymmetric(c, d);
        assert !Admission.Conflicts(c, d);
      }
    } else if d :| d in Admission.Claims(rt) && PortRoute(port, s) == RouteOf(rt.key, d) {
      IngressClaimUses(rt, d);
    }
  }

  /** Admission makes the winner unique: on a table of runtimes whose claims do not clash,
      no two routes of a port can tie. */
  lemma SafeIsSeparated(routes: map<int, seq<Route>>, routed: map<string, Runtime>, port: int)
    requires Rebuilt(routes, routed) && Admission.PortSafe(routed)
    ensures Separated(multiset(RoutesAt(routes, port)))
    ensures (forall k :: k in routed ==> NoDoubleSlash(routed[k])) ==>
              forall r :: r in multiset(RoutesAt(routes, port)) ==> CleanPrefix(r)
  {
    var rs := multiset(RoutesAt(routes, port));
    forall r, s | r in rs && s in rs && r != s
      ensures Apart(r, s)
    {
      TableRouteIsClaimed(routes, routed, port, r);
      TableRouteIsClaimed(routes, routed, port, s);
      var k, l := r.key.Path(), s.key.Path();
      if k == l {
        SelfApart(routed[k], port, r, s);
      } else {
        CompatibleApart(routed[k], routed[l], port, r, s);
      }
    }
    if forall k :: k in routed ==> NoDoubleSlash(routed[k]) {
      forall r | r in rs
        ensures CleanPrefix(r)
      {
        TableRouteIsClaimed(routes, routed, port, r);
        ClaimedClean(routed[r.key.Path()], port, r);
      }
    }
  }

  /** Routing refines the specification: on a table of non-clashing runtimes with no prefix
      ending in two slashes, the resolver's answer is the one longest matching claim, and
      there is an answer whenever some claim matches. The test whether the route's runtime
      is known never changes it. */
  lemma ResolveIsLongestPrefix(routes: map<int, seq<Route>>, routed: map<string, Runtime>, known: set<string>,
                               port: int, host: string, path: string)
    requires Rebuilt(routes, routed) && Admission.PortSafe(routed) && routed.Keys <= known
    requires forall k :: k in routed ==> NoDoubleSlash(routed[k])
    ensures var rs := RoutesAt(routes, port);
            var i := FirstMatch(rs, known, host, path);
            && FirstMatch(rs, known, host, path) == FirstMatch(rs, routed.Keys, host, path)
            && if i < |rs| then forall s :: IsLongest(s, multiset(rs), host, path) <==> s == rs[i]
               else forall s :: s in multiset(rs) ==> !Matches(s, host, path)
  {
    var rs := RoutesAt(routes, port);
    SafeIsSeparated(routes, routed, port);
    forall r | r in rs
      ensures r.key.Path() in routed
    {
      assert r in multiset(rs);
      TableRouteIsClaimed(routes, routed, port, r);
    }
    hide Matches, Separated, CleanPrefix, Rebuilt, NoDoubleSlash, Admission.PortSafe;
    FirstIsLongest(rs, known, host, path) by { EmptyOrdered(routes, routed, port); }
    FirstIsLongest(rs, routed.Keys, host, path) by { EmptyOrdered(routes, routed, port); }
    var i := FirstMatch(rs, known, host, path);
    if i < |rs| {
      forall s | IsLongest(s, multiset(rs), host, path)
        ensures s == rs[i]
      {
        LongestUnique(multiset(rs), host, path, s, rs[i]);
      }
    }
  }

  lemma EmptyOrdered(routes: map<int, seq<Route>>, routed: map<string, Runtime>, port: int)
    requires Rebuilt(routes, routed)
    ensures Ordered(RoutesAt(routes, port))
  {
  }

  /** Two histories that end with the same routed runtimes answer every request alike,
      whatever the order in which the runtimes came and went. */
  lemma ResolveIgnoresHistory(a: map<int, seq<Route>>, b: map<int, seq<Route>>, routed: map<string, Runtime>,
                              knownA: set<string>, knownB: set<string>, port: int, host: string, path: string)
    requires Rebuilt(a, routed) && Rebuilt(b, routed) && Admission.PortSafe(routed)
    requires routed.Keys <= knownA && routed.Keys <= knownB
    requires forall k :: k in routed ==> NoDoubleSlash(routed[k])
    ensures var x, y := RoutesAt(a, port), RoutesAt(b, port);
            var i, j := FirstMatch(x, knownA, host, path), FirstMatch(y, knownB, host, path);
            (i < |x| <==> j < |y|) && (i < |x| ==> x[i] == y[j])
  {
    var x, y := RoutesAt(a, port), RoutesAt(b, port);
    RebuiltDetermined(a, b, routed, port);
    EmptyOrdered(a, routed, port);
    EmptyOrdered(b, routed, port);
    SafeIsSeparated(a, routed, port);
    RoutesKnown(a, routed, port);
    RoutesKnown(b, routed, port);
    hide Rebuilt, Admission.PortSafe, NoDoubleSlash, Separated, CleanPrefix, Ordered, FirstMatch;
    ResolutionDeterminedByClaims(x, y, knownA, knownB, host, path);
  }

  lemma RoutesKnown(routes: map<int, seq<Route>>, routed: map<string, Runtime>, port: int)
    requires Rebuilt(routes, routed)
    ensures forall r :: r in RoutesAt(routes, port) ==> r.key.Path() in routed
  {
    var rs := RoutesAt(routes, port);
    forall r | r in rs
      ensures r.key.Path() in routed
    {
      assert r in multiset(rs);
      TableRouteIsClaimed(routes, routed, port, r);
    }
  }

  // ---------------------------------------------------------------- endpoints

  /** `endpointKey` */
  function EndpointKey(key: Key, service: string): string {
    key.Path() + "/" + service
  }

  /** The cache after a runtime's entries are dropped by their string prefix. */
  function DropEndpoints(endpoints: map<string, seq<Endpoint>>, key: Key): (out: map<string, seq<Endpoint>>) {
    map e | e in endpoints && !(key.Path() + "/" <= e) :: endpoints[e]
  }

  /** The services' endpoints under their cache keys. */
  function Filed(key: Key, refreshed: map<string, seq<Endpoint>>): (out: map<string, seq<Endpoint>>)
    ensures forall e :: e in out <==> exists s :: s in refreshed && e == EndpointKey(key, s)
    ensures forall s :: s in refreshed ==> EndpointKey(key, s) in out && out[EndpointKey(key, s)] == refreshed[s]
  {
    ServicePartUnique(key);
    map s | s in refreshed :: EndpointKey(key, s) := refreshed[s]
  }

  function PutEndpoints(endpoints: map<string, seq<Endpoint>>, key: Key, refreshed: map<string, seq<Endpoint>>)
    : (out: map<string, seq<Endpoint>>)
    ensures forall s :: s in refreshed ==> EndpointKey(key, s) in out && out[EndpointKey(key, s)] == refreshed[s]
    ensures forall e :: e in out <==> e in endpoints || exists s :: s in refreshed && e == EndpointKey(key, s)
    ensures forall e :: e in endpoints && (forall s :: s in refreshed ==> e != EndpointKey(key, s)) ==>
              out[e] == endpoints[e]
  {
    endpoints + Filed(key, refreshed)
  }

  lemma ServicePartUnique(key: Key)
    ensures forall s, t :: EndpointKey(key, s) == EndpointKey(key, t) ==> s == t
  {
    forall s, t | EndpointKey(key, s) == EndpointKey(key, t)
      ensures s == t
    {
      var n := |key.Path() + "/"|;
      assert s == EndpointKey(key, s)[n..] && t == EndpointKey(key, t)[n..];
    }
  }

  /** Deleting by string prefix deletes exactly the runtime's own entries: labels hold no '/'. */
  lemma PrefixIsOwner(key: Key, other: Key, service: string)
    requires ValidKey(key) && ValidKey(other)
    ensures key.Path() + "/" <= EndpointKey(other, service) <==> key == other
  {
    DnsLabelSlashFree(key.namespace);
    DnsLabelSlashFree(other.namespace);
    DnsLabelSlashFree(key.name);
    DnsLabelSlashFree(other.name);
    if key.Path() + "/" <= EndpointKey(other, service) {
      assert key.Path() + "/" == key.namespace + "/" + (key.name + "/");
      assert EndpointKey(other, service) == other.namespace + "/" + (other.name + "/" + service);
      SlashSplit(key.namespace, other.namespace, key.name + "/", other.name + "/" + service);
      assert key.name + "/" + "" == key.name + "/";
      SlashSplit(key.name, other.name, "", service);
    }
    if key == other {
      assert EndpointKey(other, service) == (key.Path() + "/") + service;
    }
  }

  /** Endpoint cache isolation: after a replacement the runtime's entries are the refreshed
      ones, and every other runtime's entries are as before. */
  lemma EndpointIsolation(endpoints: map<string, seq<Endpoint>>, key: Key, refreshed: map<string, seq<Endpoint>>,
                          other: Key, service: string)
    requires ValidKey(key) && ValidKey(other)
    ensures var e := EndpointKey(other, service);
            var out := PutEndpoints(DropEndpoints(endpoints, key), key, refreshed);
            if other == key then (e in out <==> service in refreshed) && (e in out ==> out[e] == refreshed[service])
            else (e in out <==> e in endpoints) && (e in out ==> out[e] == endpoints[e])
    ensures var e := EndpointKey(other, service);
            var out := DropEndpoints(endpoints, key);
            if other == key then e !in out else (e in out <==> e in endpoints) && (e in out ==> out[e] == endpoints[e])
  {
    PrefixIsOwner(key, other, service);
    ServicePartUnique(key);
    hide ValidKey, EndpointKey, PutEndpoints;
    forall s | EndpointKey(other, service) == EndpointKey(key, s)
      ensures other == key && s == service
    {
      OwnKeyHasPrefix(key, s);
    }
  }

  lemma OwnKeyHasPrefix(key: Key, service: string)
    ensures key.Path() + "/" <= EndpointKey(key, service)
  {
  }

  // ---------------------------------------------------------------- listeners

  lemma LeastOf(s: set<int>, rest: set<int>, x: int, m: int)
    requires x in s && rest == s - {x} && m in rest && forall y :: y in rest ==> m <= y
    ensures exists n :: n in s && forall y :: y in s ==> n <= y
  {
    var least := if m <= x then m else x;
    forall y | y in s
      ensures least <= y
    {
      assert y == x || y in rest;
    }
    assert least in s;
  }

  lemma {:induction false} MinExists(s: set<int>)
    requires s != {}
    ensures exists m :: m in s && forall x :: x in s ==> m <= x
  {
    var x := SomeMember(s);
    var rest := s - {x};
    if rest != {} {
      MinExists(rest);
      var m :| m in rest && forall y :: y in rest ==> m <= y;
      LeastOf(s, rest, x, m);
    } else {
      assert forall y :: y in s ==> y == x || y in rest;
      assert x in s && forall y :: y in s ==> x <= y;
    }
  }

  lemma LeastFirst(s: set<int>, m: int, rest: seq<int>)
    requires m in s && (forall x :: x in s ==> m <= x)
    requires forall p :: p in rest <==> p in s - {m}
    requires forall i, j :: 0 <= i < j < |rest| ==> rest[i] < rest[j]
    ensures forall p :: p in [m] + rest <==> p in s
    ensures forall i, j :: 0 <= i < j < |[m] + rest| ==> ([m] + rest)[i] < ([m] + rest)[j]
  {
    assert forall p :: p in rest ==> m < p;
    forall i, j | 0 <= i < j < |[m] + rest|
      ensures ([m] + rest)[i] < ([m] + rest)[j]
    {
      assert ([m] + rest)[j] == rest[j - 1] && rest[j - 1] in rest;
    }
  }

  /** `sort.Ints` of distinct ports. */
  ghost function Ascending(s: set<int>): (ports: seq<int>)
    ensures forall p :: p in ports <==> p in s
    ensures forall i, j :: 0 <= i < j < |ports| ==> ports[i] < ports[j]
    decreases |s|
  {
    if s == {} then []
    else
      MinExists(s);
      var m :| m in s && forall x :: x in s ==> m <= x;
      var rest := Ascending(s - {m});
      LeastFirst(s, m, rest);
      [m] + rest
  }

  /** `startPort` once the bind has succeeded: a server that is already there stays. */
  function Listening(t: Table, port: int): Table {
    if port in t.servers then t else t.(servers := t.servers[port := t.started], started := t.started + 1)
  }

  datatype Started = Started(table: Table, attempts: nat, ok: bool)

  /** Start ports in order until one fails to bind; the n-th attempt from now asks bind(n). */
  function StartPorts(t: Table, ports: seq<int>, bind: nat -> bool, tick: nat): (r: Started)
    ensures r.attempts <= |ports|
    decreases |ports|
  {
    if ports == [] then Started(t, 0, true)
    else if !bind(tick) then Started(t, 1, false)
    else
      var rest := StartPorts(Listening(t, ports[0]), ports[1..], bind, tick + 1);
      rest.(attempts := rest.attempts + 1)
  }

  function StopPorts(t: Table, ports: set<int>): Table {
    t.(servers := t.servers - ports)
  }

  lemma {:induction false} StartPortsEffect(t: Table, ports: seq<int>, bind: nat -> bool, tick: nat)
    ensures var r := StartPorts(t, ports, bind, tick);
            && r.table.routes == t.routes && r.table.endpoints == t.endpoints
            && t.servers.Keys <= r.table.servers.Keys
            && (forall p :: p in t.servers ==> r.table.servers[p] == t.servers[p])
            && (forall p :: p in r.table.servers && p !in t.servers ==> p in ports && r.table.servers[p] >= t.started)
            && (r.ok ==> forall p :: p in ports ==> p in r.table.servers)
    decreases |ports|
  {
    if ports != [] && bind(tick) {
      var next := Listening(t, ports[0]);
      StartPortsEffect(next, ports[1..], bind, tick + 1);
      assert forall p :: p in ports <==> p == ports[0] || p in ports[1..];
    }
  }

  // ------------------------------------------------------------- replacement

  /** `replaceRoutesAndState` on the table: the new table, the ports to start, the ports to stop. */
  datatype Replacement = Replacement(table: Table, starts: set<int>, stops: set<int>)

  function Replace(t: Table, rt: Runtime, refreshed: map<string, seq<Endpoint>>, added: map<int, seq<Route>>)
    : (r: Replacement)
  {
    var routes := Appended(WithoutKey(t.routes, rt.key), added);
    Replacement(
      t.(routes := routes, endpoints := PutEndpoints(DropEndpoints(t.endpoints, rt.key), rt.key, refreshed)),
      set p | p in added && p !in t.servers,
      set p | p in Emptied(t.routes, t.servers, rt.key) && p !in routes)
  }

  /** `Remove` on the table. */
  function Drop(t: Table, key: Key): Table {
    StopPorts(
      t.(routes := WithoutKey(t.routes, key), endpoints := DropEndpoints(t.endpoints, key)),
      Emptied(t.routes, t.servers, key))
  }

  ghost predicate SameListener(a: Table, b: Table, port: int) {
    port in a.servers && port in b.servers && a.servers[port] == b.servers[port]
  }

  /** Exactly the ports with routes are listening. */
  ghost predicate ListenersMatch(t: Table) {
    t.servers.Keys == t.routes.Keys
  }

  /** Start and stop sets are disjoint, and when every bind succeeds the listeners are again
      exactly the ports with routes, a port with routes before and after keeping its server.
      When a bind fails they are not: the port that failed has routes and no server. */
  lemma ListenerStability(t: Table, rt: Runtime, refreshed: map<string, seq<Endpoint>>, added: map<int, seq<Route>>,
                          bind: nat -> bool, tick: nat)
    requires ListenersMatch(t) && RoutesOf(rt, added)
    ensures var rep := Replace(t, rt, refreshed, added);
            var up := StartPorts(rep.table, Ascending(rep.starts), bind, tick);
            && rep.starts !! rep.stops
            && (up.ok ==>
                  && ListenersMatch(StopPorts(up.table, rep.stops))
                  && forall p :: p in t.routes && p in rep.table.routes ==>
                       SameListener(t, StopPorts(up.table, rep.stops), p))
            && (!up.ok ==> !ListenersMatch(up.table))
  {
    var rep := Replace(t, rt, refreshed, added);
    StartPortsEffect(rep.table, Ascending(rep.starts), bind, tick);
    StartFails(rep.table, Ascending(rep.starts), bind, tick);
    hide StartPorts, PutEndpoints, DropEndpoints, SortRoutes, Others, RoutesOf, Ascending;
    var up := StartPorts(rep.table, Ascending(rep.starts), bind, tick);
    if up.ok {
      var down := StopPorts(up.table, rep.stops);
      forall p: int
        ensures p in down.servers <==> p in rep.table.routes
      {
        assert p in rep.stops <==> p in t.routes && p !in rep.table.routes;
        assert p in rep.starts <==> p in rep.table.routes && p !in t.servers;
      }
      SameSet(down.servers.Keys, down.routes.Keys);
    } else {
      var p :| p in Ascending(rep.starts) && p !in up.table.servers;
      assert p in up.table.routes;
    }
  }

  lemma {:induction false} StartFails(t: Table, ports: seq<int>, bind: nat -> bool, tick: nat)
    requires forall p :: p in ports ==> p !in t.servers
    requires forall i, j :: 0 <= i < j < |ports| ==> ports[i] != ports[j]
    ensures var r := StartPorts(t, ports, bind, tick);
            !r.ok ==> exists p :: p in ports && p !in r.table.servers
    decreases |ports|
  {
    if ports != [] {
      if !bind(tick) {
        var p: int := ports[0];
        assert p in ports && p !in t.servers;
        assert StartPorts(t, ports, bind, tick).table == t;
      } else {
        var next := Listening(t, ports[0]);
        StartFails(next, ports[1..], bind, tick + 1);
        var r := StartPorts(next, ports[1..], bind, tick + 1);
        if !r.ok {
          var p :| p in ports[1..] && p !in r.table.servers;
          assert p in ports;
        }
      }
    }
  }

  /** Removing a runtime stops exactly the listeners it leaves without routes. */
  lemma DropStability(t: Table, key: Key)
    requires ListenersMatch(t)
    ensures ListenersMatch(Drop(t, key))
    ensures forall p :: p in Drop(t, key).servers ==> SameListener(t, Drop(t, key), p)
  {
    hide DropEndpoints, Others;
    var d := Drop(t, key);
    forall p
      ensures p in d.servers <==> p in d.routes
    {
      if p in t.routes && p !in d.routes {
        assert p in Emptied(t.routes, t.servers, key);
      }
    }
  }
}
