/** The proxy's routes: which a runtime claims, how a port's list is ordered, and which
    route a request takes. */
module Routing {
  import opened Text
  import opened Sorting
  import opened Runtimes
  import Admission

  datatype Route = Route(key: Key, service: string, ingress: string, host: string, prefix: string)

  /** A route together with its port. */
  datatype PortRoute = PortRoute(port: int, route: Route)

  // ------------------------------------------------------------- path matching

  predicate PathMatches(path: string, prefix: string) {
    prefix == "/" || path == prefix || TrimSlashes(prefix) + "/" <= path
  }

  predicate DoubleSlashEnd(p: string) {
    |p| >= 2 && p[|p| - 1] == '/' && p[|p| - 2] == '/'
  }

  /** Matching a path prefix means being a string prefix of it, unless the prefix ends in
      two slashes, in which case some path matches that does not begin with it. */
  lemma MatchIsPrefix(prefix: string)
    requires prefix != "" && prefix[0] == '/'
    ensures !DoubleSlashEnd(prefix) <==>
            forall path :: path != "" && path[0] == '/' && PathMatches(path, prefix) ==> prefix <= path
  {
    var t := TrimSlashes(prefix);
    if DoubleSlashEnd(prefix) {
      TrimTwice(prefix);
      var path := t + "/";
      assert PathMatches(path, prefix) && path[0] == '/';
      assert !(prefix <= path);
    } else if prefix != "/" {
      TrimAtMostOne(prefix);
    }
  }

  lemma TrimTwice(p: string)
    requires DoubleSlashEnd(p)
    ensures |TrimSlashes(p)| <= |p| - 2
  {
    assert TrimSlashes(p) == TrimSlashes(p[..|p| - 1]) == TrimSlashes(p[..|p| - 1][..|p| - 2]);
  }

  lemma TrimAtMostOne(p: string)
    requires p != "" && !DoubleSlashEnd(p)
    ensures p == TrimSlashes(p) || p == TrimSlashes(p) + "/"
  {
    if p[|p| - 1] == '/' {
      assert TrimSlashes(p) == TrimSlashes(p[..|p| - 1]) == p[..|p| - 1];
    }
  }

  /** Two prefixes of one length that match one path are the same prefix. */
  lemma EqualLengthPrefixes(path: string, p: string, q: string)
    requires p != "" && p[0] == '/' && !DoubleSlashEnd(p)
    requires q != "" && q[0] == '/' && !DoubleSlashEnd(q)
    requires PathMatches(path, p) && PathMatches(path, q) && |p| == |q|
    ensures p == q
  {
    if p != "/" && q != "/" {
      TrimAtMostOne(p);
      TrimAtMostOne(q);
      assert p == path[..|p|] && q == path[..|q|];
    }
  }

  /** Without the restriction it fails: both prefixes below have length four. */
  lemma DoubleSlashWitness()
    ensures PathMatches("/a/b", "/a//") && PathMatches("/a/b", "/a/b") && |"/a//"| == |"/a/b"| && "/a//" != "/a/b"
  {
    var p := "/a//";
    assert p[..3] == "/a/" && p[..3][..2] == "/a";
    assert TrimSlashes("/a") == "/a";
    assert "/a" + "/" <= "/a/b";
    assert p[3] == '/' && "/a/b"[3] == 'b';
  }

  // ---------------------------------------------------------------- matching

  predicate HostMatches(host: string, pattern: string) {
    pattern == "" || pattern == "*" || pattern == host
  }

  predicate Matches(r: Route, host: string, path: string) {
    HostMatches(host, r.host) && (r.prefix == "" || PathMatches(path, r.prefix))
  }

  // ------------------------------------------------------------ claimed routes

  function ServiceRoutes(key: Key, services: seq<Service>): (rs: seq<PortRoute>)
    ensures |rs| == |services|
    ensures forall i :: 0 <= i < |rs| ==>
              rs[i] == PortRoute(services[i].listenPort, Route(key, services[i].name, "", "", ""))
  {
    seq(|services|, i requires 0 <= i < |services| =>
      PortRoute(services[i].listenPort, Route(key, services[i].name, "", "", "")))
  }

  function RouteOf(key: Key, c: PathClaim): PortRoute {
    PortRoute(c.port, Route(key, c.service, c.ingress, c.host, CleanPath(c.path)))
  }

  function IngressRoutes(key: Key, cs: seq<PathClaim>): (rs: seq<PortRoute>)
    ensures |rs| == |cs|
    ensures forall i :: 0 <= i < |rs| ==> rs[i] == RouteOf(key, cs[i])
  {
    seq(|cs|, i requires 0 <= i < |cs| => RouteOf(key, cs[i]))
  }

  /** Every route a runtime claims, in document order. */
  function Claimed(rt: Runtime): seq<PortRoute> {
    ServiceRoutes(rt.key, rt.services) + IngressRoutes(rt.key, PathClaims(rt.ingress))
  }

  function Strip(rs: seq<PortRoute>): (out: seq<Route>)
    ensures |out| == |rs|
  {
    if rs == [] then [] else Strip(rs[..|rs| - 1]) + [rs[|rs| - 1].route]
  }

  function On(port: int): PortRoute -> bool {
    (r: PortRoute) => r.port == port
  }

  /** The claims on one port, in document order. */
  function OnPort(rs: seq<PortRoute>, port: int): (out: seq<Route>) {
    Strip(Filter(rs, On(port)))
  }

  lemma {:induction false} StripMembers(rs: seq<PortRoute>, r: Route)
    ensures r in Strip(rs) <==> exists c :: c in rs && c.route == r
  {
    if rs != [] {
      var u, x := rs[..|rs| - 1], rs[|rs| - 1];
      StripMembers(u, r);
      assert rs == u + [x];
    }
  }

  lemma OnPortMembers(rs: seq<PortRoute>, port: int, r: Route)
    ensures r in OnPort(rs, port) <==> PortRoute(port, r) in rs
  {
    var kept := Filter(rs, On(port));
    StripMembers(kept, r);
    FilterMembers(rs, On(port), PortRoute(port, r));
    if r in OnPort(rs, port) {
      var c :| c in kept && c.route == r;
      FilterMembers(rs, On(port), c);
      assert c == PortRoute(port, r);
    }
  }

  lemma OnPortSnoc(rs: seq<PortRoute>, x: PortRoute, port: int)
    ensures OnPort(rs + [x], port) == OnPort(rs, port) + if x.port == port then [x.route] else []
  {
    FilterSnoc(rs, x, On(port));
    var kept := Filter(rs, On(port));
    assert (kept + [x])[..|kept|] == kept && kept + [] == kept;
  }

  lemma NothingOnPort()
    ensures forall p :: OnPort([], p) == []
  {
  }

  // -------------------------------------------------------------------- order

  predicate RouteLess(a: Route, b: Route) {
    if |a.prefix| != |b.prefix| then |a.prefix| > |b.prefix| else Less(a.service, b.service)
  }

  function RouteOrder(): (Route, Route) -> bool {
    (a: Route, b: Route) => RouteLess(a, b)
  }

  lemma RouteOrderWeak()
    ensures WeakOrder(RouteOrder())
  {
    var less := RouteOrder();
    forall a: Route, b: Route | less(a, b)
      ensures !less(b, a)
    {
      LessTransitive(a.service, b.service, a.service);
    }
    forall a: Route, b: Route, c: Route | !less(b, a) && !less(c, b)
      ensures !less(c, a)
    {
      LessTransitive(c.service, a.service, b.service);
      LessTransitive(b.service, c.service, a.service);
      LessTotal(b.service, a.service);
      LessTotal(c.service, b.service);
    }
  }

  function SortRoutes(rs: seq<Route>): (out: seq<Route>)
    ensures |out| == |rs|
  {
    SortBy(rs, RouteOrder())
  }

  ghost predicate Ordered(rs: seq<Route>) {
    Sorted(rs, RouteOrder())
  }

  lemma SortRoutesOrdered(rs: seq<Route>)
    ensures Ordered(SortRoutes(rs)) && multiset(SortRoutes(rs)) == multiset(rs)
  {
    RouteOrderWeak();
    SortSorted(rs, RouteOrder());
    SortKeeps(rs, RouteOrder());
  }

  /** `routesForRuntime`, port by port. */
  function PortRoutes(rt: Runtime, port: int): seq<Route> {
    SortRoutes(OnPort(Claimed(rt), port))
  }

  predicate ClaimsPort(rt: Runtime, port: int) {
    exists c :: c in Claimed(rt) && c.port == port
  }

  lemma PortRoutesMembers(rt: Runtime, port: int, r: Route)
    ensures r in PortRoutes(rt, port) <==> PortRoute(port, r) in Claimed(rt)
  {
    OnPortMembers(Claimed(rt), port, r);
    SortRoutesOrdered(OnPort(Claimed(rt), port));
    InMultiset(r, PortRoutes(rt, port), OnPort(Claimed(rt), port));
  }

  lemma PortRoutesEmpty(rt: Runtime, port: int)
    ensures PortRoutes(rt, port) != [] <==> ClaimsPort(rt, port)
  {
    if ClaimsPort(rt, port) {
      var c :| c in Claimed(rt) && c.port == port;
      PortRoutesMembers(rt, port, c.route);
      assert c == PortRoute(port, c.route);
    }
    if PortRoutes(rt, port) != [] {
      PortRoutesMembers(rt, port, PortRoutes(rt, port)[0]);
    }
  }

  method RoutesForRuntime(rt: Runtime) returns (routes: map<int, seq<Route>>)
    ensures forall p :: p in routes <==> ClaimsPort(rt, p)
    ensures forall p :: p in routes ==> routes[p] == PortRoutes(rt, p)
  {
    hide OnPort, SortRoutes, RouteOf, ServiceRoutes, IngressRoutes;
    var claimed := Claimed(rt);
    routes := map[];
    NothingOnPort();
    for i := 0 to |claimed|
      invariant forall p :: p in routes <==> exists j :: 0 <= j < i && claimed[j].port == p
      invariant forall p :: p in routes ==> routes[p] == OnPort(claimed[..i], p)
      invariant forall p :: p !in routes ==> OnPort(claimed[..i], p) == []
    {
      var c := claimed[i];
      assert claimed[..i + 1] == claimed[..i] + [c];
      forall p
        ensures OnPort(claimed[..i + 1], p) == OnPort(claimed[..i], p) + if c.port == p then [c.route] else []
      {
        OnPortSnoc(claimed[..i], c, p);
      }
      var before := if c.port in routes then routes[c.port] else [];
      routes := routes[c.port := before + [c.route]];
    }
    assert claimed[..|claimed|] == claimed;
    routes := map p | p in routes :: SortRoutes(routes[p]);
  }

  // ----------------------------------------------------------------- resolving

  /** The first route of a port's list that matches and whose runtime is known. */
  function FirstMatch(rs: seq<Route>, known: set<string>, host: string, path: string): (i: nat)
    ensures i <= |rs|
    ensures forall j :: 0 <= j < i ==> !(Matches(rs[j], host, path) && rs[j].key.Path() in known)
    ensures i < |rs| ==> Matches(rs[i], host, path) && rs[i].key.Path() in known
  {
    if rs == [] || (Matches(rs[0], host, path) && rs[0].key.Path() in known) then 0
    else 1 + FirstMatch(rs[1..], known, host, path)
  }

  /** r is a longest matching claim. */
  ghost predicate IsLongest(r: Route, claims: multiset<Route>, host: string, path: string) {
    && r in claims && Matches(r, host, path)
    && forall s :: s in claims && Matches(s, host, path) ==> |s.prefix| <= |r.prefix|
  }

  /** First match on an ordered list is longest-prefix match on the claims. */
  lemma FirstIsLongest(rs: seq<Route>, known: set<string>, host: string, path: string)
    requires Ordered(rs)
    requires forall r :: r in rs ==> r.key.Path() in known
    ensures var i := FirstMatch(rs, known, host, path);
            if i < |rs| then IsLongest(rs[i], multiset(rs), host, path)
            else forall s :: s in multiset(rs) ==> !Matches(s, host, path)
  {
    hide Matches;
    var i := FirstMatch(rs, known, host, path);
    forall s | s in multiset(rs) && Matches(s, host, path)
      ensures i < |rs| && |s.prefix| <= |rs[i].prefix|
    {
      assert s in rs;
      var j :| 0 <= j < |rs| && rs[j] == s;
      assert i <= j;
      assert i < j ==> !RouteOrder()(rs[j], rs[i]);
    }
    if i < |rs| {
      assert rs[i] in multiset(rs);
    }
  }

  /** Claims of a port that never tie: at most one service route and nothing beside it, or
      ingress routes that do not clash. */
  ghost predicate Separated(claims: multiset<Route>) {
    forall r, s :: r in claims && s in claims && r != s ==> Apart(r, s)
  }

  /** Two routes of one port that admission lets stand together. */
  predicate Apart(r: Route, s: Route) {
    && r.prefix != "" && s.prefix != ""
    && !(Admission.HostsOverlap(r.host, s.host) && r.prefix == s.prefix)
  }

  predicate CleanPrefix(r: Route) {
    r.prefix == "" || (r.prefix[0] == '/' && !DoubleSlashEnd(r.prefix))
  }

  lemma MatchingHostsOverlap(host: string, a: string, b: string)
    requires HostMatches(host, a) && HostMatches(host, b)
    ensures Admission.HostsOverlap(a, b)
  {
    assert TrimSpace("*") == "*" && Lower("*") == "*";
  }

  /** The longest match is unique on separated claims. */
  lemma LongestUnique(claims: multiset<Route>, host: string, path: string, r: Route, s: Route)
    requires Separated(claims)
    requires forall c :: c in claims ==> CleanPrefix(c)
    requires IsLongest(r, claims, host, path) && IsLongest(s, claims, host, path)
    ensures r == s
  {
    if r != s {
      assert Apart(r, s);
      MatchingHostsOverlap(host, r.host, s.host);
      EqualLengthPrefixes(path, r.prefix, s.prefix);
      assert false;
    }
  }

  /** Whatever the order of two lists, the same separated claims resolve alike. */
  lemma ResolutionDeterminedByClaims(a: seq<Route>, b: seq<Route>, knownA: set<string>, knownB: set<string>,
                                     host: string, path: string)
    requires Ordered(a) && Ordered(b) && multiset(a) == multiset(b)
    requires forall r :: r in a ==> r.key.Path() in knownA
    requires forall r :: r in b ==> r.key.Path() in knownB
    requires Separated(multiset(a)) && (forall c :: c in multiset(a) ==> CleanPrefix(c))
    ensures var i, j := FirstMatch(a, knownA, host, path), FirstMatch(b, knownB, host, path);
            (i < |a| <==> j < |b|) && (i < |a| ==> a[i] == b[j])
  {
    hide Matches, Ordered, Separated, CleanPrefix;
    FirstIsLongest(a, knownA, host, path);
    FirstIsLongest(b, knownB, host, path);
    var i, j := FirstMatch(a, knownA, host, path), FirstMatch(b, knownB, host, path);
    if i < |a| && j < |b| {
      LongestUnique(multiset(a), host, path, a[i], b[j]);
    }
  }
}
