/** Runtime documents after normalization, and the part of their validation that the
    controller relies on: names, ports, selectors and routes. */
module Runtimes {
  import opened Text
  import Quantities
  import opened Sorting

  datatype Key = Key(namespace: string, name: string) {
    /** `RuntimeKey.String()` */
    function Path(): string {
      namespace + "/" + name
    }
  }

  /** A port given by number or by name. */
  datatype PortRef = Number(value: int) | Named(name: string)

  datatype ContainerPort = ContainerPort(name: string, port: int)

  datatype Strategy = Recreate | RollingUpdate(maxUnavailable: int, maxSurge: int)

  /** specHash stands for the digest of the hashed fields; equal digests are not assumed
      to come from equal deployments. */
  datatype Deployment = Deployment(
    name: string,
    revision: string,
    replicas: int,
    strategy: Strategy,
    selector: map<string, string>,
    ports: seq<ContainerPort>,
    cpus: string,
    memory: string,
    pids: int,
    specHash: string)

  datatype Service = Service(
    name: string,
    selector: map<string, string>,
    port: int,
    listenPort: int,
    targetPort: PortRef)

  datatype IngressRoute = IngressRoute(path: string, service: string)

  datatype Ingress = Ingress(name: string, host: string, listenPort: int, routes: seq<IngressRoute>)

  datatype Runtime = Runtime(
    key: Key,
    generation: int,
    network: string,
    deployments: seq<Deployment>,
    services: seq<Service>,
    ingress: seq<Ingress>)

  /** One ingress route with everything it inherits from its ingress. */
  datatype PathClaim = PathClaim(port: int, ingress: string, host: string, path: string, service: string)

  /** A ready container behind a service, with the port it is reached on. */
  datatype Endpoint = Endpoint(container: string, port: int)

  predicate LabelChar(c: char) {
    'a' <= c <= 'z' || IsDigit(c) || c == '-'
  }

  predicate DnsLabel(s: string) {
    && 0 < |s| <= 63
    && (forall i :: 0 <= i < |s| ==> LabelChar(s[i]))
    && s[0] != '-' && s[|s| - 1] != '-'
  }

  predicate Alphanumeric(c: char) {
    'a' <= c <= 'z' || '0' <= c <= '9'
  }

  /** A label, as the regular expression has it: up to 63 letters, digits and hyphens, with a letter
      or digit at either end. */
  lemma DnsLabelExactly(s: string)
    ensures DnsLabel(s) <==>
              1 <= |s| <= 63 && Alphanumeric(s[0]) && Alphanumeric(s[|s| - 1])
              && forall i :: 1 <= i < |s| - 1 ==> Alphanumeric(s[i]) || s[i] == '-'
  {
    if DnsLabel(s) {
      assert LabelChar(s[0]) && LabelChar(s[|s| - 1]);
    }
  }

  lemma DnsLabelSlashFree(s: string)
    requires DnsLabel(s)
    ensures SlashFree(s)
  {
    forall i | 0 <= i < |s|
      ensures s[i] != '/'
    {
      assert LabelChar(s[i]);
    }
  }

  predicate ValidKey(key: Key) {
    DnsLabel(key.namespace) && DnsLabel(key.name)
  }

  /** A valid key is told from every other key by its text: '/' is no label character. */
  lemma KeyPathInjective(a: Key, b: Key)
    requires ValidKey(a) && a.Path() == b.Path()
    ensures a == b
  {
    DnsLabelSlashFree(a.namespace);
    DnsLabelSlashFree(a.name);
    var p, i, j := a.Path(), |a.namespace|, |b.namespace|;
    assert p == b.namespace + "/" + b.name && p[j] == '/';
    forall k | 0 <= k < |p| && k != i
      ensures p[k] != '/'
    {
      assert p[k] == if k < i then a.namespace[k] else a.name[k - i - 1];
    }
    assert a.namespace == p[..i] && a.name == p[i + 1..];
    assert b.namespace == p[..j] && b.name == p[j + 1..];
  }

  // ---- selection ----

  function Label(labels: map<string, string>, key: string): string {
    if key in labels then labels[key] else ""
  }

  predicate LabelsMatch(labels: map<string, string>, selector: map<string, string>) {
    && selector != map[]
    && forall key :: key in selector ==> TrimSpace(Label(labels, key)) == TrimSpace(selector[key])
  }

  function ByName(): (Deployment, Deployment) -> bool {
    (a: Deployment, b: Deployment) => Less(a.name, b.name)
  }

  function Selects(selector: map<string, string>): Deployment -> bool {
    (d: Deployment) => LabelsMatch(d.selector, selector)
  }

  /** `matchingDeployments`: the selected deployments in name order. */
  function Matching(rt: Runtime, selector: map<string, string>): (ds: seq<Deployment>) {
    SortBy(Filter(rt.deployments, Selects(selector)), ByName())
  }

  lemma MatchingExactly(rt: Runtime, selector: map<string, string>, d: Deployment)
    ensures d in Matching(rt, selector) <==> d in rt.deployments && LabelsMatch(d.selector, selector)
  {
    var picked := Filter(rt.deployments, Selects(selector));
    FilterMembers(rt.deployments, Selects(selector), d);
    SortKeeps(picked, ByName());
    InMultiset(d, Matching(rt, selector), picked);
  }

  /** The port of the first selected deployment, in name order, that declares the name. */
  function NamedPort(name: string, ds: seq<Deployment>): (port: int)
    ensures port >= 0
  {
    if ds == [] then 0
    else
      var here := PortOf(name, ds[0].ports);
      if here > 0 then here else NamedPort(name, ds[1..])
  }

  function PortOf(name: string, ports: seq<ContainerPort>): (port: int)
    ensures port >= 0
  {
    if ports == [] then 0
    else if ports[0].name == name && ports[0].port > 0 then ports[0].port
    else PortOf(name, ports[1..])
  }

  /** `resolveServiceTargetPort`; 0 is its error. */
  function TargetPort(service: Service, ds: seq<Deployment>): (port: int)
    ensures port >= 0
  {
    match service.targetPort
    case Number(n) => if n > 0 then n else 0
    case Named(raw) => if TrimSpace(raw) == "" then 0 else NamedPort(TrimSpace(raw), ds)
  }

  // ---- claims ----

  /** `cleanIngressPath` */
  function CleanPath(path: string): (p: string)
    ensures p != "" && p[0] == '/'
  {
    var t := TrimSpace(path);
    if t == "" then "/" else if t[0] != '/' then "/" + t else t
  }

  function RouteClaims(g: Ingress, routes: seq<IngressRoute>): (cs: seq<PathClaim>)
    ensures |cs| == |routes|
    ensures forall i :: 0 <= i < |cs| ==>
              cs[i] == PathClaim(g.listenPort, g.name, g.host, routes[i].path, routes[i].service)
  {
    seq(|routes|, i requires 0 <= i < |routes| =>
      PathClaim(g.listenPort, g.name, g.host, routes[i].path, routes[i].service))
  }

  /** All ingress routes of a runtime in document order. */
  function PathClaims(ingress: seq<Ingress>): (cs: seq<PathClaim>) {
    if ingress == [] then []
    else
      var last := ingress[|ingress| - 1];
      PathClaims(ingress[..|ingress| - 1]) + RouteClaims(last, last.routes)
  }

  lemma {:induction false} ClaimsHavePorts(ingress: seq<Ingress>, c: PathClaim)
    requires c in PathClaims(ingress)
    ensures exists i :: 0 <= i < |ingress| && ingress[i].listenPort == c.port
  {
    var n := |ingress| - 1;
    var last := ingress[n];
    if c in PathClaims(ingress[..n]) {
      ClaimsHavePorts(ingress[..n], c);
    } else {
      assert c in RouteClaims(last, last.routes);
    }
  }

  lemma {:induction false} PortsHaveClaims(ingress: seq<Ingress>, i: nat)
    requires i < |ingress| && ingress[i].routes != []
    ensures exists c :: c in PathClaims(ingress) && c.port == ingress[i].listenPort
  {
    var n := |ingress| - 1;
    if i < n {
      PortsHaveClaims(ingress[..n], i);
      var c :| c in PathClaims(ingress[..n]) && c.port == ingress[i].listenPort;
      assert c in PathClaims(ingress);
    } else {
      var c := RouteClaims(ingress[n], ingress[n].routes)[0];
      assert c in PathClaims(ingress);
    }
  }

  // ---- validation ----

  predicate ValidStrategy(s: Strategy) {
    s.RollingUpdate? ==> s.maxUnavailable >= 0 && s.maxSurge >= 0 && s.maxUnavailable + s.maxSurge > 0
  }

  predicate ValidResources(d: Deployment) {
    && (d.cpus == "" || Quantities.CpuLimit(Lower(TrimSpace(d.cpus))))
    && (d.memory == "" || Quantities.MemoryLimit(Lower(TrimSpace(d.memory))))
    && d.pids >= 0
  }

  predicate ValidDeployment(d: Deployment) {
    && DnsLabel(d.name) && d.replicas >= 0 && ValidStrategy(d.strategy) && ValidResources(d)
    && forall p :: p in d.ports ==> p.port > 0
  }

  predicate ValidService(rt: Runtime, s: Service) {
    && DnsLabel(s.name) && s.selector != map[]
    && s.port > 0 && s.listenPort > 0
    && Matching(rt, s.selector) != []
    && TargetPort(s, Matching(rt, s.selector)) > 0
  }

  predicate ValidIngress(rt: Runtime, g: Ingress) {
    && DnsLabel(g.name) && g.listenPort > 0 && g.routes != []
    && (forall s :: s in rt.services ==> s.listenPort != g.listenPort)
    && (forall r :: r in g.routes ==>
          r.path != "" && r.path[0] == '/' && exists s :: s in rt.services && s.name == r.service)
  }

  predicate DistinctDeployments(ds: seq<Deployment>) {
    forall i, j :: 0 <= i < j < |ds| ==> ds[i].name != ds[j].name
  }

  predicate DistinctServices(ss: seq<Service>) {
    forall i, j :: 0 <= i < j < |ss| ==> ss[i].name != ss[j].name && ss[i].listenPort != ss[j].listenPort
  }

  /** What validation accepts. */
  predicate WellFormed(rt: Runtime) {
    && ValidKey(rt.key) && rt.network != ""
    && rt.deployments != [] && rt.services != []
    && (forall d :: d in rt.deployments ==> ValidDeployment(d))
    && DistinctDeployments(rt.deployments)
    && (forall s :: s in rt.services ==> ValidService(rt, s))
    && DistinctServices(rt.services)
    && (forall g :: g in rt.ingress ==> ValidIngress(rt, g))
  }

  method ValidateRuntime(rt: Runtime) returns (ok: bool)
    ensures ok <==> WellFormed(rt)
  {
    if !ValidKey(rt.key) || rt.network == "" || rt.deployments == [] || rt.services == [] {
      return false;
    }
    ok := ValidateDeployments(rt.deployments);
    if !ok {
      return;
    }
    var serviceListenPorts;
    ok, serviceListenPorts := ValidateServices(rt);
    if !ok {
      return;
    }
    ok := ValidateIngresses(rt, serviceListenPorts);
  }

  method ValidateDeployments(ds: seq<Deployment>) returns (ok: bool)
    ensures ok <==> DistinctDeployments(ds) && forall d :: d in ds ==> ValidDeployment(d)
  {
    hide ValidDeployment;
    var deployments: set<string> := {};
    for i := 0 to |ds|
      invariant forall name :: name in deployments <==> exists j :: 0 <= j < i && ds[j].name == name
      invariant forall j, k :: 0 <= j < k < i ==> ds[j].name != ds[k].name
      invariant forall j :: 0 <= j < i ==> ValidDeployment(ds[j])
    {
      if !ValidDeployment(ds[i]) || ds[i].name in deployments {
        assert ds[i] in ds;
        return false;
      }
      deployments := deployments + {ds[i].name};
    }
    return true;
  }

  method ValidateServices(rt: Runtime) returns (ok: bool, ports: set<int>)
    ensures ok <==> DistinctServices(rt.services) && forall s :: s in rt.services ==> ValidService(rt, s)
    ensures ok ==> forall p :: p in ports <==> exists s :: s in rt.services && s.listenPort == p
  {
    hide ValidService;
    var ss := rt.services;
    var names: set<string> := {};
    ports := {};
    for i := 0 to |ss|
      invariant forall p :: p in ports <==> exists j :: 0 <= j < i && ss[j].listenPort == p
      invariant forall name :: name in names <==> exists j :: 0 <= j < i && ss[j].name == name
      invariant forall j, k :: 0 <= j < k < i ==> ss[j].name != ss[k].name && ss[j].listenPort != ss[k].listenPort
      invariant forall j :: 0 <= j < i ==> ValidService(rt, ss[j])
    {
      if !ValidService(rt, ss[i]) || ss[i].name in names || ss[i].listenPort in ports {
        assert ss[i] in rt.services;
        return false, ports;
      }
      ports := ports + {ss[i].listenPort};
      names := names + {ss[i].name};
    }
    return true, ports;
  }

  method ValidateIngresses(rt: Runtime, serviceListenPorts: set<int>) returns (ok: bool)
    requires forall p :: p in serviceListenPorts <==> exists s :: s in rt.services && s.listenPort == p
    ensures ok <==> forall g :: g in rt.ingress ==> ValidIngress(rt, g)
  {
    for i := 0 to |rt.ingress|
      invariant forall j :: 0 <= j < i ==> ValidIngress(rt, rt.ingress[j])
    {
      var g := rt.ingress[i];
      assert g in rt.ingress;
      if !DnsLabel(g.name) || g.listenPort <= 0 || g.listenPort in serviceListenPorts || g.routes == [] {
        return false;
      }
      var routed := ValidateRoutes(rt, g.routes);
      if !routed {
        return false;
      }
    }
    return true;
  }

  method ValidateRoutes(rt: Runtime, routes: seq<IngressRoute>) returns (ok: bool)
    ensures ok <==> forall r :: r in routes ==>
                      r.path != "" && r.path[0] == '/' && exists s :: s in rt.services && s.name == r.service
  {
    for i := 0 to |routes|
      invariant forall j :: 0 <= j < i ==>
                  routes[j].path != "" && routes[j].path[0] == '/' && exists s :: s in rt.services && s.name == routes[j].service
    {
      if routes[i].path == "" || routes[i].path[0] != '/' {
        return false;
      }
      if !exists s :: s in rt.services && s.name == routes[i].service {
        return false;
      }
    }
    return true;
  }
}
