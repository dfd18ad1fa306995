/** Scheduler Lite: which runtimes may join those in memory. Port and ingress claims must
    not clash, and the node must have room. */
module Admission {
  import opened Text
  import opened Runtimes
  import opened Quantities

  // ------------------------------------------------------------ port claims

  function NormalizeHost(host: string): string {
    var h := Lower(TrimSpace(host));
    if h == "" then "*" else h
  }

  predicate HostsOverlap(a: string, b: string) {
    NormalizeHost(a) == "*" || NormalizeHost(b) == "*" || NormalizeHost(a) == NormalizeHost(b)
  }

  /** `ingressRouteConflicts` */
  predicate Conflicts(a: PathClaim, b: PathClaim) {
    a.port == b.port && HostsOverlap(a.host, b.host) && CleanPath(a.path) == CleanPath(b.path)
  }

  predicate UsesServicePort(rt: Runtime, port: int) {
    exists s :: s in rt.services && s.listenPort == port
  }

  predicate UsesIngressPort(rt: Runtime, port: int) {
    exists g :: g in rt.ingress && g.listenPort == port
  }

  function Claims(rt: Runtime): seq<PathClaim> {
    PathClaims(rt.ingress)
  }

  /** No clash between two runtimes; symmetric by construction. */
  ghost predicate Compatible(a: Runtime, b: Runtime) {
    && (forall p :: !(UsesServicePort(a, p) && UsesServicePort(b, p)))
    && (forall p :: !(UsesServicePort(a, p) && UsesIngressPort(b, p)))
    && (forall p :: !(UsesIngressPort(a, p) && UsesServicePort(b, p)))
    && (forall x, y :: x in Claims(a) && y in Claims(b) ==> !Conflicts(x, y))
  }

  /** No clash inside one runtime. */
  ghost predicate SelfSafe(rt: Runtime) {
    && DistinctServices(rt.services)
    && (forall p :: !(UsesServicePort(rt, p) && UsesIngressPort(rt, p)))
    && OwnClaimsApart(Claims(rt))
  }

  ghost predicate OwnClaimsApart(cs: seq<PathClaim>) {
    forall i, j :: 0 <= i < j < |cs| ==> !Conflicts(cs[j], cs[i])
  }

  /** The safety property: over all runtimes in memory no two claims clash. */
  ghost predicate PortSafe(specs: map<string, Runtime>) {
    && (forall k :: k in specs ==> SelfSafe(specs[k]))
    && (forall k, l :: k in specs && l in specs && k != l ==> Compatible(specs[k], specs[l]))
  }

  // The three tests the admission loop makes of the candidate, against services, against
  // ingress routes of others, and between its own routes.

  ghost predicate ClashFree(c: Runtime, e: Runtime) {
    && (forall s :: s in c.services ==> !UsesServicePort(e, s.listenPort))
    && (forall s, x :: s in c.services && x in Claims(e) ==> x.port != s.listenPort)
    && (forall g :: g in c.ingress ==> !UsesServicePort(e, g.listenPort))
    && (forall x, y :: x in Claims(c) && y in Claims(e) ==> !Conflicts(x, y))
  }

  /** For validated runtimes the tests the loop makes are the symmetric notion. */
  lemma ClashFreeIsCompatible(c: Runtime, e: Runtime)
    requires forall g :: g in e.ingress ==> g.routes != []
    ensures ClashFree(c, e) <==> Compatible(c, e)
  {
    if ClashFree(c, e) {
      forall p | UsesServicePort(c, p) && UsesIngressPort(e, p)
        ensures false
      {
        var i :| 0 <= i < |e.ingress| && e.ingress[i].listenPort == p;
        PortsHaveClaims(e.ingress, i);
      }
    }
    if Compatible(c, e) {
      forall s, x | s in c.services && x in Claims(e)
        ensures x.port != s.listenPort
      {
        ClaimsHavePorts(e.ingress, x);
        assert UsesIngressPort(e, x.port);
        assert UsesServicePort(c, s.listenPort);
      }
      forall s | s in c.services
        ensures !UsesServicePort(e, s.listenPort)
      {
        assert UsesServicePort(c, s.listenPort);
      }
      forall g | g in c.ingress
        ensures !UsesServicePort(e, g.listenPort)
      {
        assert UsesIngressPort(c, g.listenPort);
      }
    }
  }

  lemma CompatibleSymmetric(a: Runtime, b: Runtime)
    ensures Compatible(a, b) <==> Compatible(b, a)
  {
    if Compatible(a, b) {
      CompatibleFlips(a, b);
    }
    if Compatible(b, a) {
      CompatibleFlips(b, a);
    }
  }

  lemma CompatibleFlips(a: Runtime, b: Runtime)
    requires Compatible(a, b)
    ensures Compatible(b, a)
  {
    forall x, y | x in Claims(b) && y in Claims(a)
      ensures !Conflicts(x, y)
    {
      assert !Conflicts(y, x);
    }
  }

  /** `validateGlobalPortConflicts`: true is its nil error. */
  method ValidateGlobalPortConflicts(candidate: Runtime, existing: seq<Runtime>) returns (ok: bool)
    ensures ok <==> (forall e :: e in existing ==> ClashFree(candidate, e)) && OwnClaimsApart(Claims(candidate))
  {
    var servicePorts, ingressClaims := CollectClaims(existing);
    var serviceOk := CheckServices(candidate.services, servicePorts, ingressClaims);
    var portsOk := CheckIngressPorts(candidate.ingress, servicePorts);
    var routesOk := CheckRoutes(Claims(candidate), ingressClaims);
    ok := serviceOk && portsOk && routesOk;
    hide Conflicts;
    if ok {
      forall e | e in existing
        ensures ClashFree(candidate, e)
      {
        assert forall s :: s in candidate.services ==> !UsesServicePort(e, s.listenPort);
      }
    }
  }

  method CollectClaims(existing: seq<Runtime>) returns (servicePorts: set<int>, ingressClaims: seq<PathClaim>)
    ensures forall p :: p in servicePorts <==> exists e :: e in existing && UsesServicePort(e, p)
    ensures forall c :: c in ingressClaims <==> exists e :: e in existing && c in Claims(e)
  {
    servicePorts, ingressClaims := {}, [];
    for i := 0 to |existing|
      invariant forall p :: p in servicePorts <==> exists j :: 0 <= j < i && UsesServicePort(existing[j], p)
      invariant forall c :: c in ingressClaims <==> exists j :: 0 <= j < i && c in Claims(existing[j])
    {
      var ports := ServicePorts(existing[i].services);
      servicePorts := servicePorts + ports;
      ingressClaims := ingressClaims + Claims(existing[i]);
    }
  }

  method ServicePorts(services: seq<Service>) returns (ports: set<int>)
    ensures forall p :: p in ports <==> exists s :: s in services && s.listenPort == p
  {
    ports := {};
    for i := 0 to |services|
      invariant forall p :: p in ports <==> exists j :: 0 <= j < i && services[j].listenPort == p
    {
      ports := ports + {services[i].listenPort};
    }
  }

  method CheckServices(services: seq<Service>, servicePorts: set<int>, ingressClaims: seq<PathClaim>)
    returns (ok: bool)
    ensures ok <==> (forall s :: s in services ==>
                       s.listenPort !in servicePorts && forall c :: c in ingressClaims ==> c.port != s.listenPort)
  {
    for i := 0 to |services|
      invariant forall j :: 0 <= j < i ==>
                  services[j].listenPort !in servicePorts
                  && forall c :: c in ingressClaims ==> c.port != services[j].listenPort
    {
      if services[i].listenPort in servicePorts
         || exists c :: c in ingressClaims && c.port == services[i].listenPort {
        return false;
      }
    }
    return true;
  }

  method CheckIngressPorts(ingress: seq<Ingress>, servicePorts: set<int>) returns (ok: bool)
    ensures ok <==> forall g :: g in ingress ==> g.listenPort !in servicePorts
  {
    for i := 0 to |ingress|
      invariant forall j :: 0 <= j < i ==> ingress[j].listenPort !in servicePorts
    {
      if ingress[i].listenPort in servicePorts {
        return false;
      }
    }
    return true;
  }

  method CheckRoutes(claims: seq<PathClaim>, ingressClaims: seq<PathClaim>) returns (ok: bool)
    ensures ok <==> (forall x, y :: x in claims && y in ingressClaims ==> !Conflicts(x, y)) && OwnClaimsApart(claims)
  {
    hide Conflicts;
    for i := 0 to |claims|
      invariant forall j, y :: 0 <= j < i && y in ingressClaims ==> !Conflicts(claims[j], y)
      invariant forall j, k :: 0 <= j < k < i ==> !Conflicts(claims[k], claims[j])
    {
      if exists y :: y in ingressClaims && Conflicts(claims[i], y) {
        return false;
      }
      if exists j :: 0 <= j < i && Conflicts(claims[i], claims[j]) {
        return false;
      }
    }
    return true;
  }

  // --------------------------------------------------------------- capacity

  datatype Request = Request(milli: int, memory: int, pids: int)

  datatype Resources = Resources(cpus: string, memory: string, pids: int)

  datatype Node = Node(capacity: Resources, allocatable: Resources)

  function OrZero(r: Option<int>): int {
    if r.Some? then r.value else 0
  }

  /** What a deployment asks for in unbounded arithmetic; an unreadable quantity counts as zero. */
  function DeploymentRequest(d: Deployment): (r: Request) {
    Request(
      OrZero(CpuMilli(d.cpus)) * d.replicas,
      OrZero(MemoryBytes(d.memory)) * d.replicas,
      d.pids * d.replicas)
  }

  function Plus(a: Request, b: Request): Request {
    Request(a.milli + b.milli, a.memory + b.memory, a.pids + b.pids)
  }

  /** The int64 the program holds for an exact quantity. */
  function Wrapped(r: Request): Request {
    Request(Wrap64(r.milli), Wrap64(r.memory), Wrap64(r.pids))
  }

  const NOTHING := Request(0, 0, 0)

  function DeploymentsRequest(ds: seq<Deployment>): (r: Request) {
    if ds == [] then NOTHING
    else Plus(DeploymentsRequest(ds[..|ds| - 1]), DeploymentRequest(ds[|ds| - 1]))
  }

  function RuntimeRequest(rt: Runtime): (r: Request) {
    DeploymentsRequest(rt.deployments)
  }

  ghost function SumOf(specs: map<string, Runtime>, f: Runtime -> Request): (r: Request)
    decreases |specs|
  {
    if specs == map[] then NOTHING
    else
      var k :| k in specs;
      Plus(f(specs[k]), SumOf(specs - {k}, f))
  }

  /** The order of summation does not matter. */
  lemma {:induction false} SumOfAny(specs: map<string, Runtime>, f: Runtime -> Request, k: string)
    requires k in specs
    ensures SumOf(specs, f) == Plus(f(specs[k]), SumOf(specs - {k}, f))
    decreases |specs|
  {
    var l :| l in specs && SumOf(specs, f) == Plus(f(specs[l]), SumOf(specs - {l}, f));
    if l != k {
      var withoutL, withoutK := specs - {l}, specs - {k};
      SumOfAny(withoutL, f, k);
      SumOfAny(withoutK, f, l);
      assert withoutL - {k} == withoutK - {l};
      assert withoutL[k] == specs[k] && withoutK[l] == specs[l];
      PlusSwap(f(specs[k]), f(specs[l]), SumOf(withoutL - {k}, f));
    }
  }

  lemma PlusSwap(a: Request, b: Request, c: Request)
    ensures Plus(b, Plus(a, c)) == Plus(a, Plus(b, c))
  {
  }

  lemma {:induction false} SumOfAlike(specs: map<string, Runtime>, f: Runtime -> Request, g: Runtime -> Request)
    requires forall k :: k in specs ==> f(specs[k]) == g(specs[k])
    ensures SumOf(specs, f) == SumOf(specs, g)
    decreases |specs|
  {
    if specs != map[] {
      var k :| k in specs;
      SumOfAny(specs, f, k);
      SumOfAny(specs, g, k);
      assert |specs - {k}| < |specs| by { assert (specs - {k}).Keys == specs.Keys - {k}; }
      SumOfAlike(specs - {k}, f, g);
    }
  }

  /** What the runtimes in memory ask for, as the program sums it. */
  ghost function Total(specs: map<string, Runtime>): (r: Request) {
    SumOf(specs, RuntimeRequest)
  }

  lemma TotalOf(specs: map<string, Runtime>, k: string)
    requires k in specs
    ensures Total(specs) == Plus(RuntimeRequest(specs[k]), Total(specs - {k}))
  {
    SumOfAny(specs, RuntimeRequest, k);
    hide SumOf;
  }

  lemma TotalUpdate(specs: map<string, Runtime>, k: string, rt: Runtime)
    ensures Total(specs[k := rt]) == Plus(RuntimeRequest(rt), Total(specs - {k}))
  {
    hide Total, RuntimeRequest;
    var updated := specs[k := rt];
    TotalOf(updated, k);
    assert updated - {k} == specs - {k};
  }

  // ------------------------------------------------------ container by container

  /** What one container of a deployment may use: the limits it is started with, as read. */
  function Limits(d: Deployment): Request {
    Request(OrZero(CpuMilli(d.cpus)), OrZero(MemoryBytes(d.memory)), d.pids)
  }

  /** What the containers of replicas 1 to k may use together. */
  function Held(d: Deployment, k: int): (r: Request)
    decreases k
  {
    if k <= 0 then NOTHING else Plus(Held(d, k - 1), Limits(d))
  }

  function HeldEach(ds: seq<Deployment>): (r: Request) {
    if ds == [] then NOTHING else Plus(HeldEach(ds[..|ds| - 1]), Held(ds[|ds| - 1], ds[|ds| - 1].replicas))
  }

  /** What all containers of a runtime may use together. */
  function HeldBy(rt: Runtime): (r: Request) {
    HeldEach(rt.deployments)
  }

  /** What all containers of the runtimes in memory may use together, one by one. */
  ghost function Demand(specs: map<string, Runtime>): (r: Request) {
    SumOf(specs, HeldBy)
  }

  lemma DemandOf(specs: map<string, Runtime>, k: string)
    requires k in specs
    ensures Demand(specs) == Plus(HeldBy(specs[k]), Demand(specs - {k}))
  {
    SumOfAny(specs, HeldBy, k);
    hide SumOf;
  }

  /** A deployment asks for what its containers may use, no more and no less. */
  lemma {:induction false} AskedIsHeld(d: Deployment, k: nat)
    ensures DeploymentRequest(d.(replicas := k)) == Held(d.(replicas := k), k)
    ensures k > 0 ==> DeploymentRequest(d.(replicas := k)) == Plus(DeploymentRequest(d.(replicas := k - 1)), Limits(d))
  {
    hide CpuMilli, MemoryBytes;
    if k > 0 {
      AskedIsHeld(d, k - 1);
      HeldAlike(d, k, k - 1, k - 1);
    }
  }

  lemma {:induction false} HeldAlike(d: Deployment, m: int, n: int, k: nat)
    ensures Held(d.(replicas := m), k) == Held(d.(replicas := n), k)
    decreases k
  {
    hide CpuMilli, MemoryBytes;
    if k > 0 {
      HeldAlike(d, m, n, k - 1);
    }
  }

  ghost predicate Staffed(rt: Runtime) {
    forall d :: d in rt.deployments ==> d.replicas >= 0
  }

  lemma {:induction false} EachAskedIsHeld(ds: seq<Deployment>)
    requires forall d :: d in ds ==> d.replicas >= 0
    ensures DeploymentsRequest(ds) == HeldEach(ds)
  {
    hide DeploymentRequest, Held;
    if ds != [] {
      var d := ds[|ds| - 1];
      EachAskedIsHeld(ds[..|ds| - 1]);
      AskedIsHeld(d, d.replicas);
      assert d.(replicas := d.replicas) == d;
    }
  }

  lemma RequestIsHeld(rt: Runtime)
    requires Staffed(rt)
    ensures RuntimeRequest(rt) == HeldBy(rt)
  {
    EachAskedIsHeld(rt.deployments);
  }

  /** What the program sums is what the containers may use. */
  lemma TotalIsDemand(specs: map<string, Runtime>)
    requires forall k :: k in specs ==> Staffed(specs[k])
    ensures Total(specs) == Demand(specs)
  {
    forall k | k in specs
      ensures RuntimeRequest(specs[k]) == HeldBy(specs[k])
    {
      RequestIsHeld(specs[k]);
    }
    hide RuntimeRequest, HeldBy, SumOf;
    SumOfAlike(specs, RuntimeRequest, HeldBy);
  }

  lemma WrapShift(n: int) returns (turns: int)
    ensures Wrap64(n) == n - turns * TURN
  {
    turns := (n + MAX_INT64 + 1) / TURN;
  }

  lemma WrapUnique(n: int, turns: int)
    requires -MAX_INT64 - 1 <= n - turns * TURN <= MAX_INT64
    ensures Wrap64(n) == n - turns * TURN
  {
    var t := WrapShift(n);
  }

  const TURN := 0x1_0000_0000_0000_0000

  /** int64 addition loses nothing more than the exact sum does. */
  lemma WrapAdd(a: int, b: int)
    ensures Wrap64(Wrap64(a) + b) == Wrap64(a + b)
    ensures Wrap64(a + Wrap64(b)) == Wrap64(a + b)
  {
    hide Wrap64;
    var s := WrapShift(a);
    var t := WrapShift(b);
    var u := WrapShift(a + b);
    WrapUnique(Wrap64(a) + b, u - s);
    WrapUnique(a + Wrap64(b), u - t);
  }

  /** `ResourceRequest.Add` on int64 fields. */
  function Add(a: Request, b: Request): Request {
    Wrapped(Plus(a, b))
  }

  lemma AddWrapped(a: Request, b: Request)
    ensures Add(Wrapped(a), Wrapped(b)) == Wrapped(Plus(a, b))
    ensures Add(Wrapped(a), b) == Wrapped(Plus(a, b))
  {
    hide Wrap64;
    WrapAdd(a.milli, b.milli);
    WrapAdd(a.memory, b.memory);
    WrapAdd(a.pids, b.pids);
    WrapAdd(a.milli, Wrap64(b.milli));
    WrapAdd(a.memory, Wrap64(b.memory));
    WrapAdd(a.pids, Wrap64(b.pids));
  }

  method RuntimeResourceRequest(rt: Runtime) returns (request: Request)
    ensures request == Wrapped(RuntimeRequest(rt))
    ensures Staffed(rt) ==> request == Wrapped(HeldBy(rt))
  {
    hide Wrap64, CpuMilli, MemoryBytes;
    request := NOTHING;
    var ds := rt.deployments;
    assert NOTHING == Wrapped(NOTHING) by { WrapAdd(0, 0); ZeroFits(); }
    for i := 0 to |ds|
      invariant request == Wrapped(DeploymentsRequest(ds[..i]))
    {
      var d := ds[i];
      var cpus := ParseCPUMilli(d.cpus);
      var memory := ParseMemoryBytes(d.memory);
      var asked := Request(OrZero(cpus) * d.replicas, OrZero(memory) * d.replicas, d.pids * d.replicas);
      AddWrapped(DeploymentsRequest(ds[..i]), asked);
      assert ds[..i + 1][..i] == ds[..i];
      request := Add(request, Wrapped(asked));
    }
    assert ds[..|ds|] == ds;
    if Staffed(rt) {
      RequestIsHeld(rt);
    }
  }

  lemma ZeroFits()
    ensures Wrapped(NOTHING) == NOTHING
  {
  }

  function NodeRequest(r: Resources): Request {
    Request(OrZero(CpuMilli(r.cpus)), OrZero(MemoryBytes(r.memory)), r.pids)
  }

  function Allocatable(node: Node): Request {
    if NodeRequest(node.allocatable) == NOTHING then NodeRequest(node.capacity) else NodeRequest(node.allocatable)
  }

  function Max0(n: int): int {
    if n > 0 then n else 0
  }

  /** `ResourceRequest.Sub`, clamped at zero. */
  function Sub(a: Request, b: Request): Request {
    Request(Max0(Wrap64(a.milli - b.milli)), Max0(Wrap64(a.memory - b.memory)), Max0(Wrap64(a.pids - b.pids)))
  }

  /** An allocatable quantity of zero is not enforced. */
  predicate Fits(allocatable: Request, requested: Request) {
    && (allocatable.milli > 0 ==> requested.milli <= allocatable.milli)
    && (allocatable.memory > 0 ==> requested.memory <= allocatable.memory)
    && (allocatable.pids > 0 ==> requested.pids <= allocatable.pids)
  }

  datatype ResourceSnapshot = ResourceSnapshot(allocatable: Request, requested: Request, available: Request)

  ghost function Values(specs: map<string, Runtime>, keys: seq<string>): (rts: seq<Runtime>)
    requires forall k :: k in keys ==> k in specs
  {
    seq(|keys|, i requires 0 <= i < |keys| => specs[keys[i]])
  }

  function Sum(rts: seq<Runtime>): (r: Request) {
    if rts == [] then NOTHING
    else Plus(Sum(rts[..|rts| - 1]), RuntimeRequest(rts[|rts| - 1]))
  }

  method ResourceSnapshotFor(node: Node, runtimes: seq<Runtime>) returns (snapshot: ResourceSnapshot)
    ensures snapshot.allocatable == Allocatable(node)
    ensures snapshot.requested == Wrapped(Sum(runtimes))
    ensures snapshot.available == Sub(Allocatable(node), Wrapped(Sum(runtimes)))
  {
    hide Wrap64, RuntimeRequest;
    var requested := NOTHING;
    assert NOTHING == Wrapped(NOTHING) by { ZeroFits(); }
    for i := 0 to |runtimes|
      invariant requested == Wrapped(Sum(runtimes[..i]))
    {
      var request := RuntimeResourceRequest(runtimes[i]);
      AddWrapped(Sum(runtimes[..i]), RuntimeRequest(runtimes[i]));
      assert runtimes[..i + 1][..i] == runtimes[..i];
      requested := Add(requested, request);
    }
    assert runtimes[..|runtimes|] == runtimes;
    snapshot := ResourceSnapshot(Allocatable(node), requested, Sub(Allocatable(node), requested));
  }

  method ValidateNodeCapacity(candidate: Runtime, existing: seq<Runtime>, node: Node) returns (ok: bool)
    ensures ok <==> Fits(Allocatable(node), Wrapped(Plus(Sum(existing), RuntimeRequest(candidate))))
  {
    var all := existing + [candidate];
    var snapshot := ResourceSnapshotFor(node, all);
    assert all[..|all| - 1] == existing;
    ok := Fits(snapshot.allocatable, snapshot.requested);
  }

  /** In every enforced dimension the exact quantity is no more than an int64 holds. */
  predicate InRange(allocatable: Request, r: Request) {
    && (allocatable.milli > 0 ==> r.milli <= MAX_INT64)
    && (allocatable.memory > 0 ==> r.memory <= MAX_INT64)
    && (allocatable.pids > 0 ==> r.pids <= MAX_INT64)
  }

  /** No more than what is allocatable, in every enforced dimension. */
  predicate Room(allocatable: Request, r: Request) {
    && (allocatable.milli > 0 ==> r.milli <= allocatable.milli)
    && (allocatable.memory > 0 ==> r.memory <= allocatable.memory)
    && (allocatable.pids > 0 ==> r.pids <= allocatable.pids)
  }

  predicate NonNegative(allocatable: Request, r: Request) {
    && (allocatable.milli > 0 ==> r.milli >= 0)
    && (allocatable.memory > 0 ==> r.memory >= 0)
    && (allocatable.pids > 0 ==> r.pids >= 0)
  }

  lemma AllocatableFits(node: Node)
    ensures Allocatable(node).milli <= MAX_INT64 && Allocatable(node).memory <= MAX_INT64
  {
    hide CpuMilli, MemoryBytes, NodeRequest;
    NodeRequestFits(node.allocatable);
    NodeRequestFits(node.capacity);
  }

  /** What the capacity test is worth, exactly: once it has let a total pass, the total is
      within what is allocatable if and only if it fits int64 in every enforced dimension; and
      no total that is within is turned away. */
  lemma CapacityExact(node: Node, total: Request)
    requires Allocatable(node).pids <= MAX_INT64
    ensures Fits(Allocatable(node), Wrapped(total)) ==>
              (Room(Allocatable(node), total) <==> InRange(Allocatable(node), total))
    ensures NonNegative(Allocatable(node), total) && Room(Allocatable(node), total) ==> Fits(Allocatable(node), Wrapped(total))
  {
    AllocatableFits(node);
    hide Allocatable;
  }

  /** With the exact total within what is allocatable, "available" is the plain difference:
      it is never clamped. */
  lemma AvailableExact(node: Node, total: Request)
    requires Room(Allocatable(node), total) && NonNegative(Allocatable(node), total)
    requires Allocatable(node).pids <= MAX_INT64
    ensures var a, left := Allocatable(node), Sub(Allocatable(node), Wrapped(total));
            && (a.milli > 0 ==> left.milli == a.milli - total.milli)
            && (a.memory > 0 ==> left.memory == a.memory - total.memory)
            && (a.pids > 0 ==> left.pids == a.pids - total.pids)
  {
    AllocatableFits(node);
    hide Allocatable;
  }

  /** What is allocatable: what the node says, or its capacity if it says nothing. */
  lemma AllocatableExactly(node: Node)
    ensures var a, c := node.allocatable, node.capacity;
            var said := OrZero(CpuMilli(a.cpus)) != 0 || OrZero(MemoryBytes(a.memory)) != 0 || a.pids != 0;
            var from := if said then a else c;
            Allocatable(node) == Request(OrZero(CpuMilli(from.cpus)), OrZero(MemoryBytes(from.memory)), from.pids)
  {
    hide CpuMilli, MemoryBytes;
  }

  /** What is left is never negative. */
  lemma SubExactly(a: Request, b: Request)
    requires -MAX_INT64 <= a.milli - b.milli <= MAX_INT64 && -MAX_INT64 <= a.memory - b.memory <= MAX_INT64
    requires -MAX_INT64 <= a.pids - b.pids <= MAX_INT64
    ensures var left := Sub(a, b);
            && left.milli == (if a.milli >= b.milli then a.milli - b.milli else 0)
            && left.memory == (if a.memory >= b.memory then a.memory - b.memory else 0)
            && left.pids == (if a.pids >= b.pids then a.pids - b.pids else 0)
  {
  }

  lemma NodeRequestFits(r: Resources)
    ensures NodeRequest(r).milli <= MAX_INT64 && NodeRequest(r).memory <= MAX_INT64
  {
  }
}
