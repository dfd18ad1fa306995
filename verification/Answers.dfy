/** The resolver's answer told from the documents alone: which service of which runtime a request
    reaches, in terms of service ports, ingress ports, hosts and paths. */
module Answers {
  import opened Text
  import opened Runtimes
  import opened Routing
  import opened RouteTable
  import opened Controller
  import opened Invariants
  import opened Serving
  import Admission
  import Docker
  import Runs
  import Safety

  /** The service listens on the port. */
  predicate Listens(rt: Runtime, s: Service, port: int) {
    s in rt.services && s.listenPort == port
  }

  /** A path is the prefix, or goes on below it. */
  predicate Reaches(prefix: string, path: string) {
    || prefix == "/" || path == prefix || prefix + "/" <= path
    || (prefix != "" && prefix[|prefix| - 1] == '/' && prefix <= path)
  }

  /** The ingress and its route admit the request. */
  predicate Leads(rt: Runtime, g: Ingress, r: IngressRoute, port: int, host: string, path: string) {
    && g in rt.ingress && r in g.routes && g.listenPort == port
    && (g.host == "" || g.host == "*" || g.host == host)
    && Reaches(CleanPath(r.path), path)
  }

  /** No runtime has a route for the request with a longer path. */
  ghost predicate Longest(routed: map<string, Runtime>, r: IngressRoute, port: int, host: string, path: string) {
    forall k, g, s :: k in routed && Leads(routed[k], g, s, port, host, path) ==> |CleanPath(s.path)| <= |CleanPath(r.path)|
  }

  /** What a path is cleaned to: without blanks around it, and with a slash in front. */
  lemma CleanPathExactly(path: string)
    ensures var t := TrimSpace(path);
            CleanPath(path) == if t == "" then "/" else if '/' <= t[0] <= '/' then t else "/" + t
  {
  }

  lemma MatchReaches(path: string, prefix: string)
    requires prefix != "" && prefix[0] == '/' && !DoubleSlashEnd(prefix)
    ensures PathMatches(path, prefix) <==> Reaches(prefix, path)
  {
    if prefix != "/" {
      TrimAtMostOne(prefix);
    }
  }

  // ------------------------------------------------------- claims and documents

  /** The claim that an ingress route makes. */
  predicate Stands(c: PathClaim, g: Ingress, r: IngressRoute) {
    c.port == g.listenPort && c.host == g.host && c.path == r.path && c.service == r.service
  }

  lemma {:induction false} ClaimStands(ingress: seq<Ingress>, c: PathClaim) returns (g: Ingress, r: IngressRoute)
    requires c in PathClaims(ingress)
    ensures g in ingress && r in g.routes && Stands(c, g, r)
  {
    var n := |ingress| - 1;
    var last := ingress[n];
    if c in PathClaims(ingress[..n]) {
      g, r := ClaimStands(ingress[..n], c);
    } else {
      var i :| 0 <= i < |last.routes| && RouteClaims(last, last.routes)[i] == c;
      g, r := last, last.routes[i];
    }
  }

  lemma {:induction false} StandingClaim(ingress: seq<Ingress>, g: Ingress, r: IngressRoute) returns (c: PathClaim)
    requires g in ingress && r in g.routes
    ensures c in PathClaims(ingress) && Stands(c, g, r)
  {
    var n := |ingress| - 1;
    if g in ingress[..n] {
      c := StandingClaim(ingress[..n], g, r);
    } else {
      assert g == ingress[n];
      var i :| 0 <= i < |g.routes| && g.routes[i] == r;
      c := RouteClaims(g, g.routes)[i];
      assert c in RouteClaims(g, g.routes);
    }
  }

  /** A claimed route that matches comes from a service that listens or an ingress route that
      leads, whose service it names. */
  lemma ClaimedLeads(rt: Runtime, port: int, x: Route, host: string, path: string)
    requires PortRoute(port, x) in Claimed(rt) && NoDoubleSlash(rt) && Matches(x, host, path)
    ensures x.key == rt.key
    ensures || (x.prefix == "" && exists s :: Listens(rt, s, port) && s.name == x.service)
            || exists g, r :: Leads(rt, g, r, port, host, path) && r.service == x.service && CleanPath(r.path) == x.prefix
  {
    ClaimedCases(rt, port, x);
    if s :| s in rt.services && s.listenPort == port && x == Route(rt.key, s.name, "", "", "") {
      assert Listens(rt, s, port) && s.name == x.service;
    } else {
      var c :| c in Admission.Claims(rt) && PortRoute(port, x) == RouteOf(rt.key, c);
      var g, r := ClaimStands(rt.ingress, c);
      MatchReaches(path, CleanPath(c.path));
      hide CleanPath, PathMatches, Reaches;
      assert Leads(rt, g, r, port, host, path) && r.service == x.service && CleanPath(r.path) == x.prefix;
    }
  }

  lemma ListensClaimed(rt: Runtime, s: Service, port: int, host: string, path: string) returns (x: Route)
    requires Listens(rt, s, port)
    ensures PortRoute(port, x) in Claimed(rt) && Matches(x, host, path)
    ensures x.key == rt.key && x.service == s.name && x.prefix == ""
  {
    var i :| 0 <= i < |rt.services| && rt.services[i] == s;
    x := ServiceRoutes(rt.key, rt.services)[i].route;
    assert Claimed(rt)[i] == PortRoute(port, x);
  }

  lemma LeadsClaimed(rt: Runtime, g: Ingress, r: IngressRoute, port: int, host: string, path: string) returns (x: Route)
    requires Leads(rt, g, r, port, host, path) && NoDoubleSlash(rt)
    ensures PortRoute(port, x) in Claimed(rt) && Matches(x, host, path)
    ensures x.key == rt.key && x.service == r.service && x.prefix == CleanPath(r.path)
  {
    var c := StandingClaim(rt.ingress, g, r);
    assert c in Admission.Claims(rt);
    var cs := PathClaims(rt.ingress);
    var i :| 0 <= i < |cs| && cs[i] == c;
    x := RouteOf(rt.key, c).route;
    assert Claimed(rt)[|rt.services| + i] == PortRoute(port, x);
    MatchReaches(path, CleanPath(c.path));
    hide CleanPath, PathMatches, Reaches;
  }

  lemma ClaimedListed(routes: map<int, seq<Route>>, routed: map<string, Runtime>, k: string, port: int, x: Route)
    requires Rebuilt(routes, routed) && Keyed(routed) && k in routed
    requires PortRoute(port, x) in Claimed(routed[k]) && x.key == routed[k].key
    ensures x in multiset(RoutesAt(routes, port))
  {
    PortRoutesMembers(routed[k], port, x);
    assert multiset(RoutesAt(routes, port))[x] == Share(routed, port, x);
    assert x in multiset(PortRoutes(routed[k], port));
  }

  // ----------------------------------------------------------------- the answer

  /** The table answers as the resolver's theorem says. */
  ghost predicate Resolves(routes: map<int, seq<Route>>, port: int, host: string, path: string, i: nat) {
    var rs := RoutesAt(routes, port);
    && i <= |rs|
    && if i < |rs| then forall s :: IsLongest(s, multiset(rs), host, path) <==> s == rs[i]
       else forall s :: s in multiset(rs) ==> !Matches(s, host, path)
  }

  lemma AnswerLeads(routes: map<int, seq<Route>>, routed: map<string, Runtime>, port: int, host: string, path: string, i: nat)
    requires Rebuilt(routes, routed) && Keyed(routed) && forall k :: k in routed ==> NoDoubleSlash(routed[k])
    requires Resolves(routes, port, host, path, i) && i < |RoutesAt(routes, port)|
    ensures var x := RoutesAt(routes, port)[i];
            && x.key.Path() in routed && routed[x.key.Path()].key == x.key
            && var rt := routed[x.key.Path()];
               || (exists s :: Listens(rt, s, port) && s.name == x.service)
               || (exists g, r :: Leads(rt, g, r, port, host, path) && r.service == x.service
                                  && Longest(routed, r, port, host, path))
  {
    var rs := RoutesAt(routes, port);
    var x := rs[i];
    assert IsLongest(x, multiset(rs), host, path);
    TableRouteIsClaimed(routes, routed, port, x);
    var rt := routed[x.key.Path()];
    ClaimedLeads(rt, port, x, host, path);
    if g, r :| Leads(rt, g, r, port, host, path) && r.service == x.service && CleanPath(r.path) == x.prefix {
      hide Leads, NoDoubleSlash, Rebuilt, Matches;
      forall k, h, s | k in routed && Leads(routed[k], h, s, port, host, path)
        ensures |CleanPath(s.path)| <= |CleanPath(r.path)|
      {
        var y := LeadsClaimed(routed[k], h, s, port, host, path);
        ClaimedListed(routes, routed, k, port, y);
      }
      assert Longest(routed, r, port, host, path);
    }
  }

  lemma NoAnswer(routes: map<int, seq<Route>>, routed: map<string, Runtime>, port: int, host: string, path: string, i: nat, k: string)
    requires Rebuilt(routes, routed) && Keyed(routed) && k in routed && NoDoubleSlash(routed[k])
    requires Resolves(routes, port, host, path, i) && i == |RoutesAt(routes, port)|
    ensures forall s :: !Listens(routed[k], s, port)
    ensures forall g, r :: !Leads(routed[k], g, r, port, host, path)
  {
    hide NoDoubleSlash, Rebuilt, Matches, Leads, Listens;
    forall s
      ensures !Listens(routed[k], s, port)
    {
      if Listens(routed[k], s, port) {
        var x := ListensClaimed(routed[k], s, port, host, path);
        ClaimedListed(routes, routed, k, port, x);
      }
    }
    forall g, r
      ensures !Leads(routed[k], g, r, port, host, path)
    {
      if Leads(routed[k], g, r, port, host, path) {
        var x := LeadsClaimed(routed[k], g, r, port, host, path);
        ClaimedListed(routes, routed, k, port, x);
      }
    }
  }

  /** The longest route's service is the answer. */
  lemma LeadsAnswer(routes: map<int, seq<Route>>, routed: map<string, Runtime>, port: int, host: string, path: string, i: nat,
                    k: string, g: Ingress, r: IngressRoute)
    requires Rebuilt(routes, routed) && Keyed(routed) && Admission.PortSafe(routed)
    requires forall l :: l in routed ==> NoDoubleSlash(routed[l])
    requires Resolves(routes, port, host, path, i)
    requires k in routed && Leads(routed[k], g, r, port, host, path) && Longest(routed, r, port, host, path)
    ensures var rs := RoutesAt(routes, port);
            i < |rs| && rs[i].key == routed[k].key && rs[i].service == r.service
  {
    var rs := RoutesAt(routes, port);
    var x := LeadsClaimed(routed[k], g, r, port, host, path);
    ClaimedListed(routes, routed, k, port, x);
    hide Admission.PortSafe, Rebuilt, Leads, Listens;
    forall y | y in multiset(rs) && Matches(y, host, path)
      ensures |y.prefix| <= |x.prefix|
    {
      TableRouteIsClaimed(routes, routed, port, y);
      ClaimedLeads(routed[y.key.Path()], port, y, host, path);
    }
    assert IsLongest(x, multiset(rs), host, path);
  }

  /** The service that listens on the port is the answer. */
  lemma ListensAnswer(routes: map<int, seq<Route>>, routed: map<string, Runtime>, port: int, host: string, path: string, i: nat,
                      k: string, s: Service)
    requires Rebuilt(routes, routed) && Keyed(routed) && Admission.PortSafe(routed)
    requires Resolves(routes, port, host, path, i) && k in routed && Listens(routed[k], s, port)
    ensures var rs := RoutesAt(routes, port);
            i < |rs| && rs[i].key == routed[k].key && rs[i].service == s.name
  {
    var rs := RoutesAt(routes, port);
    var x := ListensClaimed(routed[k], s, port, host, path);
    ClaimedListed(routes, routed, k, port, x);
    SafeIsSeparated(routes, routed, port);
    hide Admission.PortSafe, Rebuilt, Listens, Matches;
    forall y | y in multiset(rs)
      ensures y == x
    {
      assert y != x ==> Apart(y, x);
    }
    assert IsLongest(x, multiset(rs), host, path);
  }

  /** What a request gets, in every state whose routes are in step with specs that do not clash:
      if there is an answer, it names a service of a runtime that has routes, which listens on
      the port, or to which an ingress route leads whose path is the longest of all; and if
      there is none, nothing listens and nothing leads. */
  lemma AnswersDocuments(w: World, port: int, host: string, path: string)
    requires Inv(w) && InStep(w) && Admission.PortSafe(w.cluster.specs)
    requires forall k :: k in w.routed ==> NoDoubleSlash(w.routed[k])
    ensures var rs := RoutesAt(w.table.routes, port);
            var i := FirstMatch(rs, w.cluster.specs.Keys, host, path);
            if i < |rs| then
              var key, service := rs[i].key, rs[i].service;
              && key.Path() in w.routed && w.routed[key.Path()].key == key
              && var rt := w.routed[key.Path()];
                 && (exists s :: s in rt.services && s.name == service)
                 && (|| (exists s :: Listens(rt, s, port) && s.name == service)
                     || (exists g, r :: Leads(rt, g, r, port, host, path) && r.service == service
                                        && Longest(w.routed, r, port, host, path)))
            else forall k :: k in w.routed ==>
                   (forall s :: !Listens(w.routed[k], s, port)) && (forall g, r :: !Leads(w.routed[k], g, r, port, host, path))
  {
    hide NoDoubleSlash, Admission.PortSafe, Rebuilt, Sound, InStep, FirstMatch, Matches, Leads, Listens, Longest, WellFormed, IsLongest;
    ResolvesLongest(w, port, host, path);
    InStepValid(w);
    var rs := RoutesAt(w.table.routes, port);
    var i := FirstMatch(rs, w.cluster.specs.Keys, host, path);
    assert Resolves(w.table.routes, port, host, path, i);
    if i < |rs| {
      AnswerLeads(w.table.routes, w.routed, port, host, path, i);
      var rt := w.routed[rs[i].key.Path()];
      NamesService(rt, rs[i].service, port, host, path);
    } else {
      forall k | k in w.routed
        ensures (forall s :: !Listens(w.routed[k], s, port)) && (forall g, r :: !Leads(w.routed[k], g, r, port, host, path))
      {
        NoAnswer(w.table.routes, w.routed, port, host, path, i, k);
      }
    }
  }

  lemma InStepValid(w: World)
    requires Inv(w) && InStep(w)
    ensures forall k :: k in w.routed ==> WellFormed(w.routed[k])
  {
    hide WellFormed, Rebuilt;
  }

  /** The service that an answer names is one of the runtime. */
  lemma NamesService(rt: Runtime, service: string, port: int, host: string, path: string)
    requires WellFormed(rt)
    requires || (exists s :: Listens(rt, s, port) && s.name == service)
             || (exists g, r :: Leads(rt, g, r, port, host, path) && r.service == service)
    ensures exists s :: s in rt.services && s.name == service
  {
    if s :| Listens(rt, s, port) && s.name == service {
      assert s in rt.services;
    } else {
      var g, r :| Leads(rt, g, r, port, host, path) && r.service == service;
      assert ValidIngress(rt, g);
    }
  }

  /** And the other way round: whatever listens on the port is the answer, and so is the service
      of a route that leads there, if no route with a longer path does. */
  lemma DocumentsAnswered(w: World, port: int, host: string, path: string, k: string)
    requires Inv(w) && InStep(w) && Admission.PortSafe(w.cluster.specs) && k in w.routed
    requires forall l :: l in w.routed ==> NoDoubleSlash(w.routed[l])
    ensures var rs := RoutesAt(w.table.routes, port);
            var i := FirstMatch(rs, w.cluster.specs.Keys, host, path);
            && (forall s :: Listens(w.routed[k], s, port) ==>
                  i < |rs| && rs[i].key == w.routed[k].key && rs[i].service == s.name)
            && (forall g, r :: Leads(w.routed[k], g, r, port, host, path) && Longest(w.routed, r, port, host, path) ==>
                  i < |rs| && rs[i].key == w.routed[k].key && rs[i].service == r.service)
  {
    hide NoDoubleSlash, Admission.PortSafe, Rebuilt, InStep, FirstMatch, Matches, Leads, Listens, Longest, IsLongest, WellFormed, Keyed;
    InvKeyed(w);
    hide Inv;
    ResolvesLongest(w, port, host, path);
    InStepSafe(w);
    var rs := RoutesAt(w.table.routes, port);
    var i := FirstMatch(rs, w.cluster.specs.Keys, host, path);
    assert Resolves(w.table.routes, port, host, path, i);
    TableAnswers(w.table.routes, w.routed, port, host, path, i, k);
  }

  lemma InvKeyed(w: World)
    requires Inv(w)
    ensures Rebuilt(w.table.routes, w.routed) && Keyed(w.routed)
  {
    hide Rebuilt, WellFormed;
  }

  lemma TableAnswers(routes: map<int, seq<Route>>, routed: map<string, Runtime>, port: int, host: string, path: string, i: nat, k: string)
    requires Rebuilt(routes, routed) && Keyed(routed) && Admission.PortSafe(routed)
    requires forall l :: l in routed ==> NoDoubleSlash(routed[l])
    requires Resolves(routes, port, host, path, i) && k in routed
    ensures var rs := RoutesAt(routes, port);
            && (forall s :: Listens(routed[k], s, port) ==>
                  i < |rs| && rs[i].key == routed[k].key && rs[i].service == s.name)
            && (forall g, r :: Leads(routed[k], g, r, port, host, path) && Longest(routed, r, port, host, path) ==>
                  i < |rs| && rs[i].key == routed[k].key && rs[i].service == r.service)
  {
    hide NoDoubleSlash, Admission.PortSafe, Rebuilt, Matches, Leads, Listens, Longest, Resolves, Keyed;
    var rs := RoutesAt(routes, port);
    forall s | Listens(routed[k], s, port)
      ensures i < |rs| && rs[i].key == routed[k].key && rs[i].service == s.name
    {
      ListensAnswer(routes, routed, port, host, path, i, k, s);
    }
    forall g, r | Leads(routed[k], g, r, port, host, path) && Longest(routed, r, port, host, path)
      ensures i < |rs| && rs[i].key == routed[k].key && rs[i].service == r.service
    {
      LeadsAnswer(routes, routed, port, host, path, i, k, g, r);
    }
  }

  /** A state that answers from the documents: both of the above. */
  ghost predicate InOrder(w: World) {
    Inv(w) && InStep(w) && Admission.PortSafe(w.cluster.specs)
  }

  /** So it is after every run in which no update is overtaken and no clashing spec comes back
      from disk, whatever else fails. */
  lemma RunInOrder(o: Docker.Oracle, cfg: Config, w: World, es: seq<Event>)
    requires InOrder(w) && Runs.RestoringRun(o, cfg, w, es, Safety.Ports())
    requires forall i :: 0 <= i < |es| ==> KeepsUp(o, cfg, Run(o, cfg, w, es[..i]), es[i])
    ensures InOrder(Run(o, cfg, w, es))
  {
    hide Inv, InStep, KeepsUp, Run, Runs.RestoringRun, Admission.PortSafe, Safety.Always;
    RunInvariant(o, cfg, w, es);
    RunInStep(o, cfg, w, es);
    Runs.RunPorts(o, cfg, w, es);
    Runs.AlwaysEnd(w.cluster, Run(o, cfg, w, es).cluster, Safety.Ports());
  }

  // ------------------------------------------------------------- what clashes

  /** The host of an ingress admits the host of a request. */
  predicate Admits(pattern: string, host: string) {
    pattern == "" || pattern == "*" || pattern == host
  }

  /** Without blanks around it, and in lower case. */
  predicate Folded(host: string) {
    TrimSpace(host) == host && Lower(host) == host
  }

  lemma MatchesAsAdmitted(host: string, pattern: string)
    ensures HostMatches(host, pattern) <==> Admits(pattern, host)
  {
  }

  /** Two hosts overlap, as admission has it, if and only if some request host is admitted by
      both, as long as they are folded. */
  lemma OverlapExactly(a: string, b: string)
    requires Folded(a) && Folded(b)
    ensures Admission.HostsOverlap(a, b) <==> exists host :: Admits(a, host) && Admits(b, host)
  {
    assert Admits(a, a) && Admits(b, b) && Admits(a, b) == (a == b || a == "" || a == "*");
    assert Admission.NormalizeHost(a) == if a == "" then "*" else a;
    assert Admission.NormalizeHost(b) == if b == "" then "*" else b;
  }

  /** Otherwise the only thing that can go wrong is that admission sees an overlap where there is
      none: hosts are compared without regard to case, and matched with regard to it. */
  lemma OverlapCovers(a: string, b: string, host: string)
    requires Admits(a, host) && Admits(b, host)
    ensures Admission.HostsOverlap(a, b)
  {
    MatchingHostsOverlap(host, a, b);
  }

  lemma OverlapByCase()
    ensures Admission.HostsOverlap("A", "a") && !exists host :: Admits("A", host) && Admits("a", host)
  {
    assert TrimSpace("A") == "A" && Lower("A") == "a" && TrimSpace("a") == "a" && Lower("a") == "a";
  }

  predicate FoldedHosts(rt: Runtime) {
    forall g :: g in rt.ingress ==> Folded(g.host)
  }

  /** Two ingress routes that some request could take both of with the same path. */
  ghost predicate Rivals(g: Ingress, r: IngressRoute, h: Ingress, s: IngressRoute) {
    && g.listenPort == h.listenPort && CleanPath(r.path) == CleanPath(s.path)
    && exists host :: Admits(g.host, host) && Admits(h.host, host)
  }

  /** Told of the documents, two runtimes are compatible if and only if no port is a service's of
      one and a service's or an ingress's of the other, and no routes of theirs are rivals. */
  lemma CompatibleExactly(a: Runtime, b: Runtime)
    requires FoldedHosts(a) && FoldedHosts(b)
    ensures Admission.Compatible(a, b) <==>
              && (forall s, t :: s in a.services && t in b.services ==> s.listenPort != t.listenPort)
              && (forall s, g :: s in a.services && g in b.ingress ==> s.listenPort != g.listenPort)
              && (forall g, s :: g in a.ingress && s in b.services ==> g.listenPort != s.listenPort)
              && (forall g, r, h, s :: g in a.ingress && r in g.routes && h in b.ingress && s in h.routes ==> !Rivals(g, r, h, s))
  {
    ClaimsRival(a, b);
    hide Admission.Conflicts, Rivals;
    ServicesApart(a, b);
    PortsApartExactly(a, b);
    PortsApartExactly(b, a);
  }

  lemma ServicesApart(a: Runtime, b: Runtime)
    ensures (forall p :: !(Admission.UsesServicePort(a, p) && Admission.UsesServicePort(b, p)))
            <==> forall s, t :: s in a.services && t in b.services ==> s.listenPort != t.listenPort
  {
    forall s, t | s in a.services && t in b.services && s.listenPort == t.listenPort
      ensures exists p :: Admission.UsesServicePort(a, p) && Admission.UsesServicePort(b, p)
    {
      assert Admission.UsesServicePort(a, s.listenPort) && Admission.UsesServicePort(b, s.listenPort);
    }
  }

  lemma PortsApartExactly(a: Runtime, b: Runtime)
    ensures (forall p :: !(Admission.UsesServicePort(a, p) && Admission.UsesIngressPort(b, p)))
            <==> forall s, g :: s in a.services && g in b.ingress ==> s.listenPort != g.listenPort
  {
    forall s, g | s in a.services && g in b.ingress && s.listenPort == g.listenPort
      ensures exists p :: Admission.UsesServicePort(a, p) && Admission.UsesIngressPort(b, p)
    {
      assert Admission.UsesServicePort(a, s.listenPort) && Admission.UsesIngressPort(b, s.listenPort);
    }
  }

  lemma ClaimsRival(a: Runtime, b: Runtime)
    requires FoldedHosts(a) && FoldedHosts(b)
    ensures (forall x, y :: x in Admission.Claims(a) && y in Admission.Claims(b) ==> !Admission.Conflicts(x, y))
            <==> forall g, r, h, s :: g in a.ingress && r in g.routes && h in b.ingress && s in h.routes ==> !Rivals(g, r, h, s)
  {
    hide CleanPath, Admission.HostsOverlap, Folded;
    forall x, y | x in Admission.Claims(a) && y in Admission.Claims(b) && Admission.Conflicts(x, y)
      ensures exists g, r, h, s :: g in a.ingress && r in g.routes && h in b.ingress && s in h.routes && Rivals(g, r, h, s)
    {
      var g, r := ClaimStands(a.ingress, x);
      var h, s := ClaimStands(b.ingress, y);
      OverlapExactly(g.host, h.host);
      assert Rivals(g, r, h, s);
    }
    forall g, r, h, s | g in a.ingress && r in g.routes && h in b.ingress && s in h.routes && Rivals(g, r, h, s)
      ensures exists x, y :: x in Admission.Claims(a) && y in Admission.Claims(b) && Admission.Conflicts(x, y)
    {
      var x := StandingClaim(a.ingress, g, r);
      var y := StandingClaim(b.ingress, h, s);
      OverlapExactly(g.host, h.host);
      assert x in Admission.Claims(a) && y in Admission.Claims(b) && Admission.Conflicts(x, y);
    }
  }

  /** Admission, exactly: a valid runtime joins if and only if it is compatible with every other
      in memory and with itself, and what all containers may use then, as an int64 holds it, is
      within the node. So no compatible candidate for which there is room is turned away. */
  lemma AdmittedExactly(specs: map<string, Runtime>, rt: Runtime, node: Admission.Node)
    requires Sound(specs) && WellFormed(rt)
    ensures Admitted(specs, rt, node) <==>
              && (forall k :: k in specs && k != rt.key.Path() ==> Admission.Compatible(rt, specs[k]))
              && Admission.SelfSafe(rt)
              && Admission.Room(Admission.Allocatable(node),
                                Admission.Wrapped(Admission.Demand(specs[rt.key.Path() := rt])))
  {
    hide WellFormed, Admission.ClashFree, Admission.Compatible, Admission.SelfSafe, Admission.Total, Admission.Demand,
      Admission.RuntimeRequest, Admission.Allocatable, Admission.Wrapped, Admission.OwnClaimsApart;
    var path := rt.key.Path();
    OthersCompatible(specs, path, rt);
    SelfSafeExactly(rt);
    Safety.SoundStaffed(specs, path, rt);
    Admission.TotalUpdate(specs, path, rt);
    Safety.PlusFlips(Admission.Total(specs - {path}), Admission.RuntimeRequest(rt));
  }

  lemma OthersCompatible(specs: map<string, Runtime>, path: string, rt: Runtime)
    requires Sound(specs)
    ensures (forall k :: k in specs - {path} ==> Admission.ClashFree(rt, (specs - {path})[k]))
            <==> forall k :: k in specs && k != path ==> Admission.Compatible(rt, specs[k])
  {
    hide Admission.ClashFree, Admission.Compatible, WellFormed;
    forall k | k in specs
      ensures Admission.ClashFree(rt, specs[k]) <==> Admission.Compatible(rt, specs[k])
    {
      Safety.WellFormedRouted(specs[k]);
      Admission.ClashFreeIsCompatible(rt, specs[k]);
    }
    assert forall k :: k in specs - {path} <==> k in specs && k != path;
  }

  lemma SelfSafeExactly(rt: Runtime)
    requires WellFormed(rt)
    ensures Admission.SelfSafe(rt) <==> Admission.OwnClaimsApart(Admission.Claims(rt))
  {
    if Admission.OwnClaimsApart(Admission.Claims(rt)) {
      Safety.WellFormedSelfSafe(rt);
    }
  }
}
