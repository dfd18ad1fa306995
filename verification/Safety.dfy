/** What one Apply or Remove keeps of memory at every write, whatever fails: that no two runtimes
    claim the same port or route, and, apart from that, that what they ask for fits the node. A
    spec on disk but not in memory is a way out of both, sums beyond int64 of the latter. */
module Safety {
  import opened Runtimes
  import opened RouteTable
  import opened Statuses
  import opened Docker
  import opened Controller
  import opened Effects
  import opened Invariants
  import opened Admission
  import Restarts
  import Rollout
  import Endpoints
  import Quantities

  // ------------------------------------------------------------ safe specs

  type Specs = map<string, Runtime>

  /** No two of the specs clash. */
  ghost function Ports(): Specs -> bool {
    (specs: Specs) => PortSafe(specs)
  }

  /** What all containers of the runtimes may use is within the node, in exact arithmetic, in
      every enforced dimension. */
  ghost predicate Fitted(specs: Specs, node: Node) {
    && (forall k :: k in specs ==> NonNegative(Allocatable(node), HeldBy(specs[k])))
    && Room(Allocatable(node), Demand(specs))
  }

  ghost function Capacity(node: Node): Specs -> bool {
    (specs: Specs) => Fitted(specs, node)
  }

  lemma {:induction false} DemandNonNegative(specs: Specs, allocatable: Request)
    requires forall k :: k in specs ==> NonNegative(allocatable, HeldBy(specs[k]))
    ensures NonNegative(allocatable, Demand(specs))
    decreases |specs|
  {
    hide HeldBy;
    if specs != map[] {
      var k :| k in specs;
      DemandOf(specs, k);
      hide Demand;
      assert |specs - {k}| < |specs| by { assert (specs - {k}).Keys == specs.Keys - {k}; }
      DemandNonNegative(specs - {k}, allocatable);
    } else {
      assert Demand(specs) == NOTHING;
    }
  }

  lemma FittedLess(specs: Specs, path: string, node: Node)
    requires Fitted(specs, node)
    ensures Fitted(specs - {path}, node)
  {
    hide Demand, HeldBy, Allocatable;
    if path in specs {
      DemandOf(specs, path);
    } else {
      assert specs - {path} == specs;
    }
  }

  lemma PortSafeLess(specs: Specs, path: string)
    requires PortSafe(specs)
    ensures PortSafe(specs - {path})
  {
    hide Compatible, SelfSafe;
  }

  lemma WellFormedSelfSafe(rt: Runtime)
    requires WellFormed(rt) && OwnClaimsApart(Admission.Claims(rt))
    ensures SelfSafe(rt)
  {
    hide Conflicts, ValidService, ValidDeployment;
    forall p | UsesServicePort(rt, p)
      ensures !UsesIngressPort(rt, p)
    {
      forall g | g in rt.ingress
        ensures g.listenPort != p
      {
        assert ValidIngress(rt, g);
      }
    }
  }

  lemma WellFormedRouted(rt: Runtime)
    requires WellFormed(rt)
    ensures forall g :: g in rt.ingress ==> g.routes != []
  {
    forall g | g in rt.ingress
      ensures g.routes != []
    {
      assert ValidIngress(rt, g);
    }
  }

  lemma PortSafeUpdate(specs: map<string, Runtime>, rt: Runtime)
    requires PortSafe(specs) && Sound(specs) && WellFormed(rt)
    requires var others := specs - {rt.key.Path()}; forall k :: k in others ==> ClashFree(rt, others[k])
    requires OwnClaimsApart(Admission.Claims(rt))
    ensures PortSafe(specs[rt.key.Path() := rt])
  {
    WellFormedSelfSafe(rt);
    var path := rt.key.Path();
    var others := specs - {path};
    forall k | k in specs && k != path
      ensures Compatible(rt, specs[k]) && Compatible(specs[k], rt)
    {
      assert k in others && WellFormed(specs[k]);
      WellFormedRouted(specs[k]);
      ClashFreeIsCompatible(rt, specs[k]);
      CompatibleSymmetric(rt, specs[k]);
    }
    hide Compatible, SelfSafe, WellFormed, ClashFree, OwnClaimsApart;
  }

  lemma PlusFlips(a: Request, b: Request)
    ensures Plus(a, b) == Plus(b, a)
  {
  }

  lemma SoundStaffed(specs: Specs, path: string, rt: Runtime)
    requires Sound(specs) && WellFormed(rt)
    ensures Total(specs[path := rt]) == Demand(specs[path := rt])
  {
    var later := specs[path := rt];
    forall k | k in later
      ensures Staffed(later[k])
    {
      WellFormedStaffed(later[k]);
    }
    hide WellFormed, Total, Demand;
    TotalIsDemand(later);
  }

  lemma WellFormedStaffed(rt: Runtime)
    requires WellFormed(rt)
    ensures Staffed(rt)
  {
    forall d | d in rt.deployments
      ensures d.replicas >= 0
    {
      assert ValidDeployment(d);
    }
  }

  /** What admission says of capacity, exactly: an admitted runtime leaves what all containers may
      use within the node if and only if that fits int64 in every enforced dimension. */
  lemma AdmittedFitsExactly(specs: Specs, rt: Runtime, node: Node)
    requires Sound(specs) && WellFormed(rt)
    requires Admitted(specs, rt, node) && Allocatable(node).pids <= Quantities.MAX_INT64
    ensures var demand := Demand(specs[rt.key.Path() := rt]);
            Room(Allocatable(node), demand) <==> InRange(Allocatable(node), demand)
  {
    hide Allocatable, Wrapped, Total, Demand, RuntimeRequest, ClashFree, OwnClaimsApart, WellFormed;
    SoundStaffed(specs, rt.key.Path(), rt);
    TotalUpdate(specs, rt.key.Path(), rt);
    PlusFlips(Total(specs - {rt.key.Path()}), RuntimeRequest(rt));
    CapacityExact(node, Total(specs[rt.key.Path() := rt]));
  }

  /** The limits of rt have been read as they stand, and once it has joined, the exact sums fit
      int64. */
  ghost predicate Countable(specs: Specs, rt: Runtime, node: Node) {
    && NonNegative(Allocatable(node), HeldBy(rt))
    && InRange(Allocatable(node), Demand(specs[rt.key.Path() := rt]))
  }

  /** A valid document asks for a negative quantity only where a CPU limit is misread, which
      Quantities.CpuOverflow describes. */
  lemma {:induction false} ReadNonNegative(ds: seq<Deployment>)
    requires forall d :: d in ds ==> ValidDeployment(d) && OrZero(Quantities.CpuMilli(d.cpus)) >= 0
    ensures var r := HeldEach(ds); r.milli >= 0 && r.memory >= 0 && r.pids >= 0
  {
    if ds != [] {
      var d := ds[|ds| - 1];
      ReadNonNegative(ds[..|ds| - 1]);
      MemoryNonNegative(d);
      hide ValidDeployment, Quantities.CpuMilli, Quantities.MemoryBytes;
      HeldNonNegative(d, d.replicas);
    }
  }

  lemma MemoryNonNegative(d: Deployment)
    requires ValidDeployment(d)
    ensures OrZero(Quantities.MemoryBytes(d.memory)) >= 0 && d.pids >= 0 && d.replicas >= 0
  {
    if d.memory != "" {
      hide Quantities.MemoryBytes, Quantities.MemoryLimit;
      Quantities.MemoryExact(d.memory);
    }
  }

  lemma {:induction false} HeldNonNegative(d: Deployment, k: nat)
    requires OrZero(Quantities.CpuMilli(d.cpus)) >= 0 && OrZero(Quantities.MemoryBytes(d.memory)) >= 0 && d.pids >= 0
    ensures var r := Held(d, k); r.milli >= 0 && r.memory >= 0 && r.pids >= 0
  {
    hide Quantities.CpuMilli, Quantities.MemoryBytes;
    if k > 0 {
      HeldNonNegative(d, k - 1);
    }
  }

  lemma FittedUpdate(specs: Specs, rt: Runtime, node: Node)
    requires Sound(specs) && WellFormed(rt)
    requires Fitted(specs, node) && Admitted(specs, rt, node) && Allocatable(node).pids <= Quantities.MAX_INT64
    ensures Fitted(specs[rt.key.Path() := rt], node) <==> Countable(specs, rt, node)
  {
    hide Admitted, Allocatable, Demand, HeldBy, NonNegative, WellFormed, Sound, InRange, Room;
    AdmittedFitsExactly(specs, rt, node);
    var path, later := rt.key.Path(), specs[rt.key.Path() := rt];
    assert later[path] == rt && forall k :: k in later && k != path ==> k in specs && later[k] == specs[k];
  }

  /** Admission keeps memory free of clashes, whatever the sums come to. */
  lemma AdmittedIsSafe(specs: Specs, rt: Runtime, node: Node)
    requires PortSafe(specs) && Sound(specs) && WellFormed(rt) && Admitted(specs, rt, node)
    ensures PortSafe(specs[rt.key.Path() := rt])
  {
    hide WellFormed, PortSafe, ClashFree, OwnClaimsApart, Allocatable, Total, Wrapped, Fits;
    PortSafeUpdate(specs, rt);
  }

  // ------------------------------------------------- what is written on the way

  /** Every snapshot between two states shows the specs a or the specs b. */
  ghost predicate Shows(c: Cluster, e: Cluster, a: map<string, Runtime>, b: map<string, Runtime>) {
    && c.trace <= e.trace
    && forall i :: |c.trace| <= i < |e.trace| ==> e.trace[i].specs == a || e.trace[i].specs == b
  }

  lemma ShowsTransitive(c: Cluster, d: Cluster, e: Cluster, a: map<string, Runtime>, b: map<string, Runtime>)
    requires Shows(c, d, a, b) && Shows(d, e, a, b)
    ensures Shows(c, e, a, b)
  {
    forall i | |c.trace| <= i < |e.trace|
      ensures e.trace[i].specs == a || e.trace[i].specs == b
    {
      if i < |d.trace| {
        assert e.trace[i] == d.trace[i];
      }
    }
  }

  lemma ShowsWrite(c: Cluster, rt: Runtime, status: Status, b: map<string, Runtime>)
    ensures Shows(c, Write(c, rt, status), c.specs[rt.key.Path() := rt], b)
    ensures Shows(c, Write(c, rt, status), b, c.specs[rt.key.Path() := rt])
  {
  }

  lemma ShowsPass(c: Cluster, e: Cluster, rt: Runtime, names: set<string>, b: map<string, Runtime>)
    requires Pass(c, e, rt, names)
    ensures Shows(c, e, c.specs, b) && e.specs == c.specs
  {
    hide Within, StatusesKept;
  }

  lemma ShowsSilence(c: Cluster, e: Cluster, a: map<string, Runtime>, b: map<string, Runtime>)
    requires e.trace == c.trace
    ensures Shows(c, e, a, b)
  {
  }

  lemma ShowsFailed(o: Oracle, w: World, rt: Runtime, a: map<string, Runtime>, b: map<string, Runtime>)
    requires a == w.cluster.specs[rt.key.Path() := rt]
    ensures var v := RecordFailed(o, w, rt); Shows(w.cluster, v.cluster, a, b) && v.cluster.specs == a
  {
    hide NewStatus;
  }

  lemma {:induction false} RemovalShows(o: Oracle, c: Cluster, names: seq<string>, a: map<string, Runtime>, b: map<string, Runtime>)
    requires c.specs == a
    ensures var e := Rollout.RemoveEach(o, c, names).cluster; Shows(c, e, a, b) && e.specs == a
  {
    if names != [] {
      RemovalShows(o, c, names[..|names| - 1], a, b);
    }
  }

  lemma PurgeShows(o: Oracle, c: Cluster, names: set<string>, a: map<string, Runtime>, b: map<string, Runtime>)
    requires c.specs == a
    ensures var e := Purge(o, c, names).cluster; Shows(c, e, a, b) && e.specs == a
  {
    var listed := ListNames(o, c, names);
    if listed.value.Some? {
      RemovalShows(o, listed.cluster, listed.value.value, a, b);
      hide Rollout.RemoveEach;
    }
  }

  lemma RestoreShows(o: Oracle, w: World, rt: Runtime, status: Status, a: map<string, Runtime>, b: map<string, Runtime>)
    requires b == w.cluster.specs[rt.key.Path() := rt]
    ensures var v := Restore(o, w, rt, status).world; Shows(w.cluster, v.cluster, a, b) && v.cluster.specs == b
  {
    var written := Write(w.cluster, rt, status);
    ShowsWrite(w.cluster, rt, status, a);
    var v := Restore(o, w, rt, status).world;
    assert v.cluster.trace == written.trace && v.cluster.specs == written.specs;
    hide Shows, Restore;
    ShowsSilence(written, v.cluster, a, b);
    ShowsTransitive(w.cluster, written, v.cluster, a, b);
  }

  lemma RollbackShows(o: Oracle, w: World, failed: Runtime, prior: Prior, a: map<string, Runtime>, b: map<string, Runtime>)
    requires prior.Prior? && w.cluster.specs == a && b == a[prior.rt.key.Path() := prior.rt]
    ensures var v := Rollback(o, w, failed, prior).world; Shows(w.cluster, v.cluster, a, b) && v.cluster.specs == b
    ensures Rollback(o, w, failed, prior).ending in {RolledBack, RollbackFailed}
  {
    var cleaned := Cleanup(o, w.cluster, failed).cluster;
    if failed.generation > 0 {
      PurgeShows(o, w.cluster, OfGeneration(w.cluster.containers, failed.key, failed.generation), a, b);
    } else {
      ShowsSilence(w.cluster, cleaned, a, b);
    }
    assert cleaned.specs == a;
    hide Cleanup, NewStatus, CachedEndpoints, Restore, Shows;
    var status := if prior.status.Some? then prior.status.value
                  else NewStatus(prior.rt, Running, CachedEndpoints(w.table, prior.rt), false);
    RestoreShows(o, w.(cluster := cleaned), prior.rt, status, a, b);
    ShowsTransitive(w.cluster, cleaned, Rollback(o, w, failed, prior).world.cluster, a, b);
  }

  lemma FinishShows(o: Oracle, w: World, rt: Runtime, found: Discovered)
    ensures var r := Finish(o, w, rt, found);
            && r.world.cluster.trace == w.cluster.trace && r.world.cluster.specs == w.cluster.specs
            && r.ending in {SaveFailed, Applied}
  {
    hide NewStatus;
  }

  lemma PublishShows(o: Oracle, w: World, rt: Runtime, found: Discovered, a: map<string, Runtime>, b: map<string, Runtime>)
    requires w.cluster.specs == a && a[rt.key.Path() := rt] == a
    ensures var r := Publish(o, w, rt, found);
            && Shows(w.cluster, r.world.cluster, a, b) && r.world.cluster.specs == a
            && r.ending in {BindFailed, SaveFailed, Applied}
  {
    hide Binding, RecordFailed, Finish, Shows;
    var bound := Binding(o, w, rt, found);
    BindingShows(o, w, rt, found, a, b);
    var stopped := bound.world.(table := StopPorts(bound.world.table, bound.stops));
    FinishShows(o, stopped, rt, found);
    if bound.ok {
      ShowsStill(w.cluster, bound.world.cluster, Finish(o, stopped, rt, found).world.cluster, a, b);
    } else {
      ShowsFailed(o, bound.world, rt, a, b);
      ShowsTransitive(w.cluster, bound.world.cluster, RecordFailed(o, bound.world, rt).cluster, a, b);
    }
  }

  lemma BindingShows(o: Oracle, w: World, rt: Runtime, found: Discovered, a: map<string, Runtime>, b: map<string, Runtime>)
    requires w.cluster.specs == a && a[rt.key.Path() := rt] == a
    ensures var bound := Binding(o, w, rt, found).world.cluster; Shows(w.cluster, bound, a, b) && bound.specs == a
  {
    hide Replace, StartPorts, Ascending, RouteMap;
    assert Shows(w.cluster, Rewrite(w.cluster, rt), a, b);
  }

  lemma ShowsStill(c: Cluster, d: Cluster, e: Cluster, a: map<string, Runtime>, b: map<string, Runtime>)
    requires Shows(c, d, a, b) && e.trace == d.trace
    ensures Shows(c, e, a, b)
  {
  }

  lemma DiscoveringShows(o: Oracle, w: World, rt: Runtime, a: map<string, Runtime>, b: map<string, Runtime>)
    requires w.cluster.specs == a && a[rt.key.Path() := rt] == a
    ensures var r := Discovering(o, w, rt);
            && Shows(w.cluster, r.world.cluster, a, b) && r.world.cluster.specs == a
            && r.ending in {EndpointsFailed, BindFailed, SaveFailed, Applied}
  {
    Endpoints.RefreshOnlyReads(o, w.cluster, rt, |rt.services|);
    var found := Endpoints.Refresh(o, w.cluster, rt, |rt.services|);
    var seen := w.(cluster := found.cluster);
    ShowsSilence(w.cluster, found.cluster, a, b);
    hide Endpoints.Refresh, Publish, RecordFailed, Shows;
    if found.value.None? {
      ShowsFailed(o, seen, rt, a, b);
    } else {
      PublishShows(o, seen, rt, found.value.value, a, b);
    }
    ShowsTransitive(w.cluster, found.cluster, Discovering(o, w, rt).world.cluster, a, b);
  }

  /** What memory ends up with after the rollout has begun. */
  ghost function Left(ending: Ending, a: map<string, Runtime>, b: map<string, Runtime>): map<string, Runtime> {
    if ending == RolledBack || ending == RollbackFailed then b else a
  }

  lemma RollingShows(o: Oracle, cfg: Config, w: World, rt: Runtime, prior: Prior, a: map<string, Runtime>, b: map<string, Runtime>)
    requires Current(w.cluster, rt) && w.cluster.specs == a
    requires if prior.Prior? then b == a[prior.rt.key.Path() := prior.rt] else b == a
    ensures var r := Rolling(o, cfg, w, rt, prior);
            Shows(w.cluster, r.world.cluster, a, b) && r.world.cluster.specs == Left(r.ending, a, b)
  {
    ReconcileEffect(o, cfg.selfHeal, w.cluster, rt);
    var out := Rollout.Reconcile(o, cfg.selfHeal, w.cluster, rt);
    ShowsPass(w.cluster, out.cluster, rt, NamesOfAll(rt), b);
    assert a[rt.key.Path() := rt] == a;
    hide Rollout.Reconcile, Pass, Shows, Discovering, Rollback, RecordFailed;
    var rolled := w.(cluster := out.cluster);
    if out.ok {
      DiscoveringShows(o, rolled, rt, a, b);
    } else if prior.Prior? {
      RollbackShows(o, rolled, rt, prior, a, b);
    } else {
      ShowsFailed(o, rolled, rt, a, b);
    }
    ShowsTransitive(w.cluster, out.cluster, Rolling(o, cfg, w, rt, prior).world.cluster, a, b);
  }

  lemma StartShows(o: Oracle, w: World, rt: Runtime, b: map<string, Runtime>)
    ensures var phase := if rt.key.Path() in w.cluster.specs then Updating else Pending;
            var network := EnsureNetwork(o, WritePhase(w.cluster, rt, phase)).cluster;
            var starting := WritePhase(network, rt, Starting);
            var a := w.cluster.specs[rt.key.Path() := rt];
            && Shows(w.cluster, network, a, b) && Shows(w.cluster, starting, a, b)
            && network.specs == a && starting.specs == a && Current(starting, rt)
            && a[rt.key.Path() := rt] == a
  {
    hide NewStatus;
  }

  lemma CarryShows(o: Oracle, cfg: Config, w: World, rt: Runtime, prior: Prior, a: map<string, Runtime>, b: map<string, Runtime>)
    requires a == w.cluster.specs[rt.key.Path() := rt]
    requires if prior.Prior? then b == w.cluster.specs[rt.key.Path() := prior.rt] && prior.rt.key.Path() == rt.key.Path() else b == a
    ensures var r := Carry(o, cfg, w, rt, prior);
            Shows(w.cluster, r.world.cluster, a, b) && r.world.cluster.specs == Left(r.ending, a, b)
  {
    hide WritePhase, EnsureNetwork, Rolling, RecordFailed, Shows, Current;
    StartShows(o, w, rt, b);
    var phase := if rt.key.Path() in w.cluster.specs then Updating else Pending;
    var network := EnsureNetwork(o, WritePhase(w.cluster, rt, phase));
    if prior.Prior? {
      assert a[prior.rt.key.Path() := prior.rt] == b;
    }
    if network.ok {
      var starting := WritePhase(network.cluster, rt, Starting);
      RollingShows(o, cfg, w.(cluster := starting), rt, prior, a, b);
      ShowsTransitive(w.cluster, starting, Carry(o, cfg, w, rt, prior).world.cluster, a, b);
    } else {
      ShowsFailed(o, w.(cluster := network.cluster), rt, a, b);
      ShowsTransitive(w.cluster, network.cluster, Carry(o, cfg, w, rt, prior).world.cluster, a, b);
    }
  }

  // ------------------------------------------------------------- one Apply

  /** The specs are good at the end, and at every write on the way. */
  ghost predicate Always(c: Cluster, e: Cluster, good: Specs -> bool) {
    && c.trace <= e.trace && good(e.specs)
    && forall i :: |c.trace| <= i < |e.trace| ==> good(e.trace[i].specs)
  }

  lemma ShowsAlways(c: Cluster, e: Cluster, a: Specs, b: Specs, good: Specs -> bool)
    requires Shows(c, e, a, b) && good(a) && good(b) && (e.specs == a || e.specs == b)
    ensures Always(c, e, good)
  {
  }

  /** A spec that would come back from disk leaves memory good. */
  ghost predicate Restorable(w: World, path: string, good: Specs -> bool) {
    path in w.cluster.specs || path !in w.store || good(w.cluster.specs[path := w.store[path]])
  }

  ghost predicate Accepted(cfg: Config, w: World, rt: Runtime) {
    && WellFormed(WithGeneration(w.cluster.specs, rt))
    && Admitted(w.cluster.specs, WithGeneration(w.cluster.specs, rt), cfg.node)
  }

  lemma AcceptedCarries(o: Oracle, cfg: Config, w: World, rt: Runtime, filed: Option<Status>)
    requires Accepted(cfg, w, rt)
    ensures var p := Previous(o, w, rt.key.Path(), filed);
            Apply(o, cfg, w, rt, filed)
            == Carry(o, cfg, w.(cluster := p.cluster), WithGeneration(w.cluster.specs, rt), p.prior)
    ensures WithGeneration(w.cluster.specs, rt).key == rt.key
  {
    hide WellFormed, Admitted, Carry, Previous;
  }

  /** An accepted Apply carries on with the generation it gave and the prior state it found. */
  lemma ApplyIsCarry(o: Oracle, cfg: Config, w: World, rt: Runtime, filed: Option<Status>)
    returns (v: World, given: Runtime, prior: Prior)
    requires Inv(w) && Accepted(cfg, w, rt)
    ensures Apply(o, cfg, w, rt, filed) == Carry(o, cfg, v, given, prior)
    ensures given == WithGeneration(w.cluster.specs, rt) && given.key == rt.key
    ensures v == w.(cluster := w.cluster.(tick := v.cluster.tick, now := v.cluster.now))
    ensures prior.Prior? ==> prior.rt.key.Path() == rt.key.Path()
    ensures var path := rt.key.Path();
            if path in w.cluster.specs then
              v == w && path in w.cluster.statuses
              && prior == Prior(w.cluster.specs[path], Quantities.Some(w.cluster.statuses[path]))
            else
              (prior.Prior? ==> path in w.store && prior == Prior(w.store[path], filed))
              && (path in w.store && o.disk(w.cluster.tick) == Done ==> prior.Prior?)
              && v.cluster.tick == w.cluster.tick + 1
  {
    AcceptedCarries(o, cfg, w, rt, filed);
    PriorWellFormed(o, w, rt.key.Path(), filed);
    hide Accepted, Apply, Carry, WithGeneration, WellFormed, Sound, Rebuilt;
    var p := Previous(o, w, rt.key.Path(), filed);
    v, given, prior := w.(cluster := p.cluster), WithGeneration(w.cluster.specs, rt), p.prior;
  }

  /** What memory may be put back to after a failed update. */
  ghost predicate Alternative(w: World, path: string, a: map<string, Runtime>, b: map<string, Runtime>) {
    if path in w.cluster.specs then b == w.cluster.specs
    else b == a || (path in w.store && b == w.cluster.specs[path := w.store[path]])
  }

  lemma Rewritten(specs: map<string, Runtime>, path: string)
    requires path in specs
    ensures specs[path := specs[path]] == specs
  {
  }

  lemma ApplyShows(o: Oracle, cfg: Config, w: World, rt: Runtime, filed: Option<Status>) returns (b: map<string, Runtime>)
    requires Inv(w) && Accepted(cfg, w, rt)
    ensures var a := w.cluster.specs[rt.key.Path() := WithGeneration(w.cluster.specs, rt)];
            var r := Apply(o, cfg, w, rt, filed);
            && Alternative(w, rt.key.Path(), a, b)
            && Shows(w.cluster, r.world.cluster, a, b) && r.world.cluster.specs == Left(r.ending, a, b)
  {
    hide Inv, Accepted, Carry, Apply, WithGeneration, Shows;
    var path, specs := rt.key.Path(), w.cluster.specs;
    var v, given, prior := ApplyIsCarry(o, cfg, w, rt, filed);
    assert v.cluster.specs == specs && v.cluster.trace == w.cluster.trace;
    var a := specs[path := given];
    b := a;
    if prior.Prior? {
      b := specs[path := prior.rt];
      if path in specs {
        Rewritten(specs, path);
      }
    }
    CarryShows(o, cfg, v, given, prior, a, b);
    ShowsFrom(w.cluster, v.cluster, Carry(o, cfg, v, given, prior).world.cluster, a, b);
  }

  lemma AcceptedKeeps(o: Oracle, cfg: Config, w: World, rt: Runtime, filed: Option<Status>, good: Specs -> bool)
    requires Inv(w) && Accepted(cfg, w, rt) && good(w.cluster.specs)
    requires good(w.cluster.specs[rt.key.Path() := WithGeneration(w.cluster.specs, rt)])
    requires Restorable(w, rt.key.Path(), good)
    ensures Always(w.cluster, Apply(o, cfg, w, rt, filed).world.cluster, good)
  {
    hide Inv, Accepted, Apply, WithGeneration, Always, Shows;
    var b := ApplyShows(o, cfg, w, rt, filed);
    var a := w.cluster.specs[rt.key.Path() := WithGeneration(w.cluster.specs, rt)];
    ShowsAlways(w.cluster, Apply(o, cfg, w, rt, filed).world.cluster, a, b, good);
  }

  lemma AcceptedPorts(cfg: Config, w: World, rt: Runtime)
    requires Inv(w) && PortSafe(w.cluster.specs) && Accepted(cfg, w, rt)
    ensures PortSafe(w.cluster.specs[rt.key.Path() := WithGeneration(w.cluster.specs, rt)])
  {
    var given := WithGeneration(w.cluster.specs, rt);
    assert given.key == rt.key;
    hide PortSafe, WellFormed, Admitted, Sound, Rebuilt, WithGeneration;
    AdmittedIsSafe(w.cluster.specs, given, cfg.node);
  }

  lemma AcceptedFits(cfg: Config, w: World, rt: Runtime)
    requires Inv(w) && Fitted(w.cluster.specs, cfg.node) && Accepted(cfg, w, rt)
    requires Allocatable(cfg.node).pids <= Quantities.MAX_INT64
    ensures var given := WithGeneration(w.cluster.specs, rt);
            Fitted(w.cluster.specs[rt.key.Path() := given], cfg.node) <==> Countable(w.cluster.specs, given, cfg.node)
  {
    var given := WithGeneration(w.cluster.specs, rt);
    assert given.key == rt.key;
    hide Fitted, WellFormed, Admitted, WithGeneration, Countable, Allocatable, Sound, Rebuilt;
    FittedUpdate(w.cluster.specs, given, cfg.node);
  }

  lemma ShowsFrom(c: Cluster, d: Cluster, e: Cluster, a: map<string, Runtime>, b: map<string, Runtime>)
    requires Shows(d, e, a, b) && c.trace == d.trace
    ensures Shows(c, e, a, b)
  {
  }

  /** An engine that lists nothing. */
  ghost function Unlisted(): Oracle {
    Oracle((op, t) => if op == List then Refused else Works, (t, s) => SomeOrder(s), t => 0, t => true, t => Done)
  }

  lemma {:induction false} UnlistedFails(cfg: Restarts.SelfHeal, c: Cluster, rt: Runtime, ds: seq<Deployment>)
    requires ds != []
    ensures !Rollout.EnsureAll(Unlisted(), cfg, c, rt, ds).ok
  {
    var o, d := Unlisted(), ds[|ds| - 1];
    var before := Rollout.EnsureAll(o, cfg, c, rt, ds[..|ds| - 1]);
    if before.ok {
      hide Rollout.EnsureReplicas;
      var replicas := Rollout.EnsureReplicas(o, cfg, before.cluster, rt, d, Rollout.Replicas(d));
      assert !Rollout.RemoveExtra(o, replicas.cluster, rt, d).ok;
    }
  }

  /** On such an engine an update of a runtime found on disk goes back to what is on disk. */
  lemma UnlistedGoesBack(cfg: Config, w: World, rt: Runtime, filed: Option<Status>)
    requires Inv(w) && rt.key.Path() !in w.cluster.specs && rt.key.Path() in w.store && Accepted(cfg, w, rt)
    ensures var path := rt.key.Path();
            Apply(Unlisted(), cfg, w, rt, filed).world.cluster.specs == w.cluster.specs[path := w.store[path]]
  {
    var o, path := Unlisted(), rt.key.Path();
    var v, given, prior := ApplyIsCarry(o, cfg, w, rt, filed);
    GivenDeploys(cfg, w, rt);
    hide Inv, Accepted, Apply, Carry, WithGeneration;
    assert o.disk(w.cluster.tick) == Done;
    hide Unlisted;
    UnlistedCarries(cfg, v, given, prior);
  }

  lemma GivenDeploys(cfg: Config, w: World, rt: Runtime)
    requires Accepted(cfg, w, rt)
    ensures WithGeneration(w.cluster.specs, rt).deployments != []
  {
  }

  lemma UnlistedCarries(cfg: Config, w: World, rt: Runtime, prior: Prior)
    requires rt.key.Path() !in w.cluster.specs && prior.Prior? && prior.rt.key.Path() == rt.key.Path() && rt.deployments != []
    ensures Carry(Unlisted(), cfg, w, rt, prior).world.cluster.specs == w.cluster.specs[rt.key.Path() := prior.rt]
  {
    var o := Unlisted();
    var begun := WritePhase(w.cluster, rt, Pending);
    var network := EnsureNetwork(o, begun);
    assert network.ok && network.cluster.specs == begun.specs;
    var starting := WritePhase(network.cluster, rt, Starting);
    CurrentAfterWrite(network.cluster, rt, Starting);
    assert starting.specs == w.cluster.specs[rt.key.Path() := rt];
    hide NewStatus, Unlisted, Rolling, EnsureNetwork, WritePhase, Current;
    UnlistedFails(cfg.selfHeal, starting, rt, rt.deployments);
    UnlistedRolls(cfg, w.(cluster := starting), rt, prior);
    assert starting.specs[rt.key.Path() := prior.rt] == w.cluster.specs[rt.key.Path() := prior.rt];
  }

  lemma UnlistedRolls(cfg: Config, w: World, rt: Runtime, prior: Prior)
    requires !Rollout.Reconcile(Unlisted(), cfg.selfHeal, w.cluster, rt).ok && prior.Prior? && Current(w.cluster, rt)
    ensures Rolling(Unlisted(), cfg, w, rt, prior).world.cluster.specs == w.cluster.specs[prior.rt.key.Path() := prior.rt]
  {
    var o := Unlisted();
    ReconcileEffect(o, cfg.selfHeal, w.cluster, rt);
    var out := Rollout.Reconcile(o, cfg.selfHeal, w.cluster, rt);
    assert out.cluster.specs == w.cluster.specs;
    hide Rollout.Reconcile, Rollback, Discovering, RecordFailed, Pass;
    RollbackShows(o, w.(cluster := out.cluster), rt, prior, w.cluster.specs, w.cluster.specs[prior.rt.key.Path() := prior.rt]);
  }

  /** An engine without a network. */
  ghost function NetworkBlind(): Oracle {
    Oracle((op, t) => if op == Network then Refused else Works, (t, s) => SomeOrder(s), t => 0, t => true, t => Done)
  }

  lemma NetworkBlindFails(cfg: Config, w: World, rt: Runtime, filed: Option<Status>)
    requires Accepted(cfg, w, rt)
    ensures Apply(NetworkBlind(), cfg, w, rt, filed).ending == NetworkFailed
    ensures Apply(NetworkBlind(), cfg, w, rt, filed).world.cluster.containers == w.cluster.containers
  {
    hide Accepted, Apply, WithGeneration, Carry, NetworkBlind;
    var o, given := NetworkBlind(), WithGeneration(w.cluster.specs, rt);
    AcceptedCarries(o, cfg, w, rt, filed);
    var p := Previous(o, w, rt.key.Path(), filed);
    assert p.cluster.containers == w.cluster.containers;
    hide Previous;
    BlindCarry(cfg, w.(cluster := p.cluster), given, p.prior);
  }

  lemma BlindCarry(cfg: Config, w: World, rt: Runtime, prior: Prior)
    ensures var r := Carry(NetworkBlind(), cfg, w, rt, prior);
            r.ending == NetworkFailed && r.world.cluster.containers == w.cluster.containers
  {
    hide NewStatus, Rolling;
  }

  /** What an accepted Apply keeps of memory, exactly and for any property of specs: it holds at
      every write, whatever fails, if and only if it holds with the candidate in memory, and
      the runtime is in memory already, or no spec of it is on disk, or it holds with that spec
      in memory too, because it may be rolled back to. */
  lemma ApplyKeepsExactly(cfg: Config, w: World, rt: Runtime, filed: Option<Status>, good: Specs -> bool)
    requires Inv(w) && Accepted(cfg, w, rt) && good(w.cluster.specs)
    ensures (forall o: Oracle :: Always(w.cluster, Apply(o, cfg, w, rt, filed).world.cluster, good))
            <==> good(w.cluster.specs[rt.key.Path() := WithGeneration(w.cluster.specs, rt)]) && Restorable(w, rt.key.Path(), good)
  {
    hide Inv, Accepted, Apply, WithGeneration, Shows, NetworkBlind, Unlisted;
    var path, a := rt.key.Path(), w.cluster.specs[rt.key.Path() := WithGeneration(w.cluster.specs, rt)];
    NetworkBlindFails(cfg, w, rt, filed);
    var b := ApplyShows(NetworkBlind(), cfg, w, rt, filed);
    assert Apply(NetworkBlind(), cfg, w, rt, filed).world.cluster.specs == a;
    if good(a) && Restorable(w, path, good) {
      forall o: Oracle
        ensures Always(w.cluster, Apply(o, cfg, w, rt, filed).world.cluster, good)
      {
        AcceptedKeeps(o, cfg, w, rt, filed, good);
      }
    } else if good(a) {
      UnlistedGoesBack(cfg, w, rt, filed);
      assert !Always(w.cluster, Apply(Unlisted(), cfg, w, rt, filed).world.cluster, good);
    } else {
      assert !Always(w.cluster, Apply(NetworkBlind(), cfg, w, rt, filed).world.cluster, good);
    }
  }

  /** Ports: an accepted update keeps memory free of clashes at every write, whatever fails and
      whatever the sums come to, if and only if a spec found on disk only would. */
  lemma ApplyPortsExactly(cfg: Config, w: World, rt: Runtime, filed: Option<Status>)
    requires Inv(w) && PortSafe(w.cluster.specs) && Accepted(cfg, w, rt)
    ensures (forall o: Oracle :: Always(w.cluster, Apply(o, cfg, w, rt, filed).world.cluster, Ports()))
            <==> Restorable(w, rt.key.Path(), Ports())
  {
    hide Inv, PortSafe, Accepted, Apply, Always, Restorable, WithGeneration;
    AcceptedPorts(cfg, w, rt);
    ApplyKeepsExactly(cfg, w, rt, filed, Ports());
  }

  /** Capacity: an accepted update keeps memory within the node at every write, whatever fails,
      if and only if the new sums fit int64, and a spec found on disk only would fit too. */
  lemma ApplyFitsExactly(cfg: Config, w: World, rt: Runtime, filed: Option<Status>)
    requires Inv(w) && Fitted(w.cluster.specs, cfg.node) && Accepted(cfg, w, rt)
    requires Allocatable(cfg.node).pids <= Quantities.MAX_INT64
    ensures (forall o: Oracle :: Always(w.cluster, Apply(o, cfg, w, rt, filed).world.cluster, Capacity(cfg.node)))
            <==> Countable(w.cluster.specs, WithGeneration(w.cluster.specs, rt), cfg.node)
                 && Restorable(w, rt.key.Path(), Capacity(cfg.node))
  {
    hide Inv, Fitted, Accepted, Apply, Always, Restorable, WithGeneration, Countable, Allocatable;
    AcceptedFits(cfg, w, rt);
    ApplyKeepsExactly(cfg, w, rt, filed, Capacity(cfg.node));
  }

  // ------------------------------------------------------------ one Remove

  /** The specs while a runtime that is being removed is marked so. */
  ghost function Marked(w: World, path: string, found: Option<Runtime>): map<string, Runtime> {
    if found.Some? then w.cluster.specs[path := found.value] else w.cluster.specs - {path}
  }

  lemma ForgetShows(c: Cluster, path: string, found: Option<Runtime>)
    requires found.Some? ==> found.value.key.Path() == path
    ensures var noted := if found.Some? then WritePhase(c, found.value, Terminating) else c;
            var gone := Forget(noted, path);
            var b := if found.Some? then c.specs[path := found.value] else c.specs - {path};
            && Shows(c, gone, c.specs - {path}, b) && gone.specs == c.specs - {path}
            && (found.Some? ==> |gone.trace| > |c.trace| && gone.trace[|c.trace|].specs == b)
  {
    hide NewStatus;
    if found.Some? {
      assert c.specs[path := found.value] - {path} == c.specs - {path};
    }
  }

  lemma RemoveShows(o: Oracle, w: World, key: Key)
    requires Inv(w) && key.name != ""
    ensures var rt := Lookup(o, w, key.Path());
            var b := Marked(w, key.Path(), rt.value);
            var v := Remove(o, w, key).world;
            && Shows(w.cluster, v.cluster, w.cluster.specs - {key.Path()}, b)
            && v.cluster.specs == w.cluster.specs - {key.Path()}
            && (rt.value.Some? ==> |v.cluster.trace| > |w.cluster.trace| && v.cluster.trace[|w.cluster.trace|].specs == b)
  {
    var path := key.Path();
    var rt := Lookup(o, w, path);
    assert rt.value.Some? ==> rt.value.value.key.Path() == path by {
      hide WellFormed, Rebuilt;
    }
    assert rt.cluster.specs == w.cluster.specs && rt.cluster.trace == w.cluster.trace;
    hide Inv, NewStatus, Drop, Purge, Forget, WritePhase, Lookup;
    var a, b := w.cluster.specs - {path}, Marked(w, path, rt.value);
    var noted := if rt.value.Some? then WritePhase(rt.cluster, rt.value.value, Terminating) else rt.cluster;
    var gone := Forget(noted, path);
    ForgetShows(rt.cluster, path, rt.value);
    ShowsFrom(w.cluster, rt.cluster, gone, a, b);
    if rt.value.Some? {
      var names := OwnedAll(gone.containers, rt.value.value.key);
      PurgeShows(o, gone, names, a, b);
      FirstShown(w.cluster, gone, Purge(o, gone, names).cluster, a, b);
    }
    hide Shows;
    RemoveEnds(o, w, key, gone);
  }

  lemma FirstShown(c: Cluster, d: Cluster, e: Cluster, a: map<string, Runtime>, b: map<string, Runtime>)
    requires Shows(c, d, a, b) && Shows(d, e, a, b) && |d.trace| > |c.trace|
    ensures Shows(c, e, a, b) && |e.trace| > |c.trace| && e.trace[|c.trace|] == d.trace[|c.trace|]
  {
    ShowsTransitive(c, d, e, a, b);
  }

  /** After the purge, only files are written. */
  lemma RemoveEnds(o: Oracle, w: World, key: Key, gone: Cluster)
    requires key.name != ""
    requires var rt := Lookup(o, w, key.Path());
             gone == Forget(if rt.value.Some? then WritePhase(rt.cluster, rt.value.value, Terminating) else rt.cluster, key.Path())
    ensures var rt := Lookup(o, w, key.Path());
            var purged := if rt.value.Some? then Purge(o, gone, OwnedAll(gone.containers, rt.value.value.key)).cluster else gone;
            var v := Remove(o, w, key).world.cluster;
            v.trace == purged.trace && v.specs == purged.specs
  {
    hide NewStatus, Drop, Purge, Forget, WritePhase, Lookup, OwnedAll;
  }

  /** Remove writes the spec it is about to delete once more. What it keeps of memory, exactly,
      is what holds without the runtime, under the same condition on the spec on disk. */
  lemma RemoveKeepsExactly(w: World, key: Key, good: Specs -> bool)
    requires Inv(w) && key.name != "" && good(w.cluster.specs)
    ensures (forall o: Oracle :: Always(w.cluster, Remove(o, w, key).world.cluster, good))
            <==> good(w.cluster.specs - {key.Path()}) && Restorable(w, key.Path(), good)
  {
    hide Inv, Remove, Unlisted;
    var o, path := Unlisted(), key.Path();
    RemoveShows(o, w, key);
    var e := Remove(o, w, key).world.cluster;
    if good(w.cluster.specs - {path}) && Restorable(w, path, good) {
      forall o: Oracle
        ensures Always(w.cluster, Remove(o, w, key).world.cluster, good)
      {
        RemovalKeeps(o, w, key, good);
      }
    } else if good(w.cluster.specs - {path}) {
      UnlistedFinds(w, path);
      assert !good(e.trace[|w.cluster.trace|].specs);
      assert !Always(w.cluster, e, good);
    } else {
      assert !Always(w.cluster, e, good);
    }
  }

  lemma UnlistedFinds(w: World, path: string)
    requires path !in w.cluster.specs && path in w.store
    ensures Lookup(Unlisted(), w, path).value == Quantities.Some(w.store[path])
  {
  }

  lemma RemovalKeeps(o: Oracle, w: World, key: Key, good: Specs -> bool)
    requires Inv(w) && key.name != "" && good(w.cluster.specs)
    requires good(w.cluster.specs - {key.Path()}) && Restorable(w, key.Path(), good)
    ensures Always(w.cluster, Remove(o, w, key).world.cluster, good)
  {
    hide Inv, Remove, Shows, Always;
    var path := key.Path();
    RemoveShows(o, w, key);
    var rt := Lookup(o, w, path);
    var b := Marked(w, path, rt.value);
    if path in w.cluster.specs {
      assert w.cluster.specs[path := w.cluster.specs[path]] == w.cluster.specs;
    }
    ShowsAlways(w.cluster, Remove(o, w, key).world.cluster, w.cluster.specs - {path}, b, good);
  }

  lemma RemovePortsExactly(w: World, key: Key)
    requires Inv(w) && key.name != "" && PortSafe(w.cluster.specs)
    ensures (forall o: Oracle :: Always(w.cluster, Remove(o, w, key).world.cluster, Ports()))
            <==> Restorable(w, key.Path(), Ports())
  {
    hide Inv, PortSafe, Remove, Always, Restorable;
    PortSafeLess(w.cluster.specs, key.Path());
    RemoveKeepsExactly(w, key, Ports());
  }

  lemma RemoveFitsExactly(w: World, key: Key, node: Node)
    requires Inv(w) && key.name != "" && Fitted(w.cluster.specs, node)
    ensures (forall o: Oracle :: Always(w.cluster, Remove(o, w, key).world.cluster, Capacity(node)))
            <==> Restorable(w, key.Path(), Capacity(node))
  {
    hide Inv, Fitted, Remove, Always, Restorable;
    FittedLess(w.cluster.specs, key.Path(), node);
    RemoveKeepsExactly(w, key, Capacity(node));
  }
}
