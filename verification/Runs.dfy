/** The safety of memory over whole runs, and what a bystander may rely on in every state. */
module Runs {
  import opened Runtimes
  import opened RouteTable
  import opened Statuses
  import opened Docker
  import opened Controller
  import opened Effects
  import opened Invariants
  import opened Admission
  import opened Safety
  import Rollout
  import Endpoints
  import Quantities

  // ----------------------------------------------------------------- resync

  lemma ResyncOneShows(o: Oracle, cfg: Config, w: World, rt: Runtime)
    requires Current(w.cluster, rt)
    ensures var v := ResyncOne(o, cfg, w, rt).world;
            Shows(w.cluster, v.cluster, w.cluster.specs, w.cluster.specs) && v.cluster.specs == w.cluster.specs
  {
    var specs := w.cluster.specs;
    ReconcileEffect(o, cfg.selfHeal, w.cluster, rt);
    var out := Rollout.Reconcile(o, cfg.selfHeal, w.cluster, rt);
    ShowsPass(w.cluster, out.cluster, rt, NamesOfAll(rt), specs);
    Endpoints.RefreshOnlyReads(o, out.cluster, rt, |rt.services|);
    var found := Endpoints.Refresh(o, out.cluster, rt, |rt.services|);
    assert specs[rt.key.Path() := rt] == specs;
    hide Rollout.Reconcile, Endpoints.Refresh, Pass, RecordFailed, NewStatus, PutEndpoints;
    var v := ResyncOne(o, cfg, w, rt).world;
    if !out.ok {
      ShowsFailed(o, w.(cluster := out.cluster), rt, specs, specs);
      ShowsTransitive(w.cluster, out.cluster, v.cluster, specs, specs);
    } else if found.value.None? {
      ShowsFailed(o, w.(cluster := found.cluster), rt, specs, specs);
      ShowsTransitive(w.cluster, found.cluster, v.cluster, specs, specs);
    } else {
      assert v.cluster.trace == out.cluster.trace && v.cluster.specs == specs;
    }
  }

  lemma {:induction false} ResyncEachShows(o: Oracle, cfg: Config, w: World, rts: seq<Runtime>)
    requires forall rt :: rt in rts ==> Current(w.cluster, rt)
    ensures var v := ResyncEach(o, cfg, w, rts).world;
            Shows(w.cluster, v.cluster, w.cluster.specs, w.cluster.specs) && v.cluster.specs == w.cluster.specs
  {
    hide ResyncOne, Shows;
    if rts == [] {
      ShowsSilence(w.cluster, w.cluster, w.cluster.specs, w.cluster.specs);
    } else {
      var u, rt := rts[..|rts| - 1], rts[|rts| - 1];
      assert forall r :: r in u ==> r in rts;
      ResyncEachShows(o, cfg, w, u);
      var before := ResyncEach(o, cfg, w, u);
      if before.ok {
        assert rt in rts;
        ResyncOneShows(o, cfg, before.world, rt);
        ShowsTransitive(w.cluster, before.world.cluster, ResyncOne(o, cfg, before.world, rt).world.cluster,
                        w.cluster.specs, w.cluster.specs);
      }
    }
  }

  // --------------------------------------------------------------- all runs

  /** What a property of specs asks of a step: that it survives the candidate that is accepted,
      or the loss of what is removed, and a spec that is on disk but not in memory. */
  ghost predicate Guarded(cfg: Config, w: World, e: Event, good: Specs -> bool) {
    match e
    case Applying(rt, filed) =>
      Accepted(cfg, w, rt) ==>
        Keeps(good, w.cluster.specs, w.cluster.specs[rt.key.Path() := WithGeneration(w.cluster.specs, rt)])
        && Restorable(w, rt.key.Path(), good)
    case Removing(key) =>
      key.name != "" ==> Keeps(good, w.cluster.specs, w.cluster.specs - {key.Path()}) && Restorable(w, key.Path(), good)
    case _ => true
  }

  ghost predicate Keeps(good: Specs -> bool, a: Specs, b: Specs) {
    good(a) ==> good(b)
  }

  lemma RejectedIsSilent(o: Oracle, cfg: Config, w: World, rt: Runtime, filed: Option<Status>)
    requires !Accepted(cfg, w, rt)
    ensures var r := Apply(o, cfg, w, rt, filed);
            && r.ending in {Invalid, Denied}
            && r.world == w.(cluster := r.world.cluster)
            && r.world.cluster == w.cluster.(tick := r.world.cluster.tick, now := r.world.cluster.now)
            && w.cluster.now <= r.world.cluster.now
  {
    hide WellFormed, Admitted, Carry;
  }

  /** Why a candidate is turned away: it is invalid, or valid and not admitted; and nothing else
      ends like that. */
  lemma RejectedExactly(o: Oracle, cfg: Config, w: World, rt: Runtime, filed: Option<Status>)
    requires Inv(w)
    ensures var ending, given := Apply(o, cfg, w, rt, filed).ending, WithGeneration(w.cluster.specs, rt);
            && (ending == Invalid <==> !WellFormed(given))
            && (ending == Denied <==> WellFormed(given) && !Admitted(w.cluster.specs, given, cfg.node))
  {
    hide WellFormed, Admitted, WithGeneration, Carry, Inv;
    if Accepted(cfg, w, rt) {
      var v, given, prior := ApplyIsCarry(o, cfg, w, rt, filed);
      EndsOtherwise(o, cfg, v, given, prior);
    }
  }

  lemma EndsOtherwise(o: Oracle, cfg: Config, w: World, rt: Runtime, prior: Prior)
    ensures Carry(o, cfg, w, rt, prior).ending !in {Invalid, Denied}
  {
    hide WritePhase, EnsureNetwork, Rolling, RecordFailed;
    var phase := if rt.key.Path() in w.cluster.specs then Updating else Pending;
    var network := EnsureNetwork(o, WritePhase(w.cluster, rt, phase));
    RollingEndsOtherwise(o, cfg, w.(cluster := WritePhase(network.cluster, rt, Starting)), rt, prior);
  }

  lemma RollingEndsOtherwise(o: Oracle, cfg: Config, w: World, rt: Runtime, prior: Prior)
    ensures Rolling(o, cfg, w, rt, prior).ending !in {Invalid, Denied}
  {
    hide Rollout.Reconcile, Endpoints.Refresh, RecordFailed, Finish, Binding, Cleanup, Restore, NewStatus, CachedEndpoints;
    var out := Rollout.Reconcile(o, cfg.selfHeal, w.cluster, rt);
    var found := Endpoints.Refresh(o, out.cluster, rt, |rt.services|);
    if found.value.Some? {
      var b := Binding(o, w.(cluster := found.cluster), rt, found.value.value);
      FinishShows(o, b.world.(table := StopPorts(b.world.table, b.stops)), rt, found.value.value);
    }
  }

  lemma AlwaysStill(c: Cluster, e: Cluster, good: Specs -> bool)
    requires good(c.specs) && e.trace == c.trace && e.specs == c.specs
    ensures Always(c, e, good)
  {
  }

  lemma StepKeeps(o: Oracle, cfg: Config, w: World, e: Event, good: Specs -> bool)
    requires Inv(w) && good(w.cluster.specs) && Guarded(cfg, w, e, good)
    ensures Always(w.cluster, Step(o, cfg, w, e).cluster, good)
  {
    hide Inv, Accepted, Apply, Remove, ResyncEach, Restorable, WithGeneration;
    match e
    case Applying(rt, filed) =>
      if Accepted(cfg, w, rt) {
        AcceptedKeeps(o, cfg, w, rt, filed, good);
      } else {
        RejectedIsSilent(o, cfg, w, rt, filed);
      }
    case Removing(key) =>
      if key.name == "" {
        AlwaysStill(w.cluster, w.cluster, good);
        NamelessRemoval(o, w, key);
      } else {
        RemovalKeeps(o, w, key, good);
      }
    case Resyncing =>
      SoundOfInv(w);
      InMemoryCurrent(w.cluster);
      ResyncEachShows(o, cfg, w, InMemory(w.cluster.specs));
      ShowsAlways(w.cluster, Resync(o, cfg, w).world.cluster, w.cluster.specs, w.cluster.specs, good);
    case Stopping => AlwaysStill(w.cluster, Shutdown(o, w).world.cluster, good);
    case Elsewhere(m, pause) =>
  }

  lemma SoundOfInv(w: World)
    requires Inv(w)
    ensures Sound(w.cluster.specs)
  {
  }

  lemma NamelessRemoval(o: Oracle, w: World, key: Key)
    requires key.name == ""
    ensures Remove(o, w, key).world == w
  {
  }

  ghost predicate GuardedRun(o: Oracle, cfg: Config, w: World, es: seq<Event>, good: Specs -> bool) {
    forall i :: 0 <= i < |es| ==> Guarded(cfg, Run(o, cfg, w, es[..i]), es[i], good)
  }

  lemma GuardedPrefix(o: Oracle, cfg: Config, w: World, es: seq<Event>, good: Specs -> bool)
    requires GuardedRun(o, cfg, w, es, good) && es != []
    ensures GuardedRun(o, cfg, w, es[..|es| - 1], good)
    ensures Guarded(cfg, Run(o, cfg, w, es[..|es| - 1]), es[|es| - 1], good)
  {
    hide Guarded, Run;
    var u := es[..|es| - 1];
    forall i | 0 <= i < |u|
      ensures Guarded(cfg, Run(o, cfg, w, u[..i]), u[i], good)
    {
      assert u[..i] == es[..i];
    }
  }

  lemma AlwaysTransitive(c: Cluster, d: Cluster, e: Cluster, good: Specs -> bool)
    requires Always(c, d, good) && Always(d, e, good)
    ensures Always(c, e, good)
  {
    forall i | |c.trace| <= i < |e.trace|
      ensures good(e.trace[i].specs)
    {
      if i < |d.trace| {
        assert e.trace[i] == d.trace[i];
      }
    }
  }

  lemma AlwaysEnd(c: Cluster, e: Cluster, good: Specs -> bool)
    requires Always(c, e, good)
    ensures good(e.specs)
  {
  }

  /** Any property of specs that every step of a run keeps holds at every write of the run. */
  lemma {:induction false} RunKeeps(o: Oracle, cfg: Config, w: World, es: seq<Event>, good: Specs -> bool)
    requires Inv(w) && good(w.cluster.specs) && GuardedRun(o, cfg, w, es, good)
    ensures Always(w.cluster, Run(o, cfg, w, es).cluster, good)
    decreases |es|
  {
    hide Inv, Always, Guarded, GuardedRun, Step;
    if es == [] {
      AlwaysStill(w.cluster, w.cluster, good);
    } else {
      GuardedPrefix(o, cfg, w, es, good);
      var u, e := es[..|es| - 1], es[|es| - 1];
      RunKeeps(o, cfg, w, u, good);
      var v := Run(o, cfg, w, u);
      AlwaysEnd(w.cluster, v.cluster, good);
      RunInvariant(o, cfg, w, u);
      StepKeeps(o, cfg, v, e, good);
      AlwaysTransitive(w.cluster, v.cluster, Step(o, cfg, v, e).cluster, good);
    }
  }

  // ------------------------------------------------------ ports and capacity

  /** A spec that the step may bring back from disk leaves memory good. */
  ghost predicate Restores(cfg: Config, w: World, e: Event, good: Specs -> bool) {
    match e
    case Applying(rt, filed) => Accepted(cfg, w, rt) ==> Restorable(w, rt.key.Path(), good)
    case Removing(key) => key.name != "" ==> Restorable(w, key.Path(), good)
    case _ => true
  }

  /** What is accepted can be counted. */
  ghost predicate Counted(cfg: Config, w: World, e: Event) {
    e.Applying? && Accepted(cfg, w, e.rt) ==>
      Countable(w.cluster.specs, WithGeneration(w.cluster.specs, e.rt), cfg.node)
  }

  ghost predicate RestoringRun(o: Oracle, cfg: Config, w: World, es: seq<Event>, good: Specs -> bool) {
    forall i :: 0 <= i < |es| ==> Restores(cfg, Run(o, cfg, w, es[..i]), es[i], good)
  }

  ghost predicate CountedRun(o: Oracle, cfg: Config, w: World, es: seq<Event>) {
    forall i :: 0 <= i < |es| ==> Counted(cfg, Run(o, cfg, w, es[..i]), es[i])
  }

  lemma PortsGuarded(cfg: Config, w: World, e: Event)
    requires Inv(w) && Restores(cfg, w, e, Ports())
    ensures Guarded(cfg, w, e, Ports())
  {
    hide Inv, Accepted, PortSafe, Restorable, WithGeneration;
    match e
    case Applying(rt, filed) =>
      if Accepted(cfg, w, rt) && PortSafe(w.cluster.specs) {
        AcceptedPorts(cfg, w, rt);
      }
    case Removing(key) =>
      if PortSafe(w.cluster.specs) {
        PortSafeLess(w.cluster.specs, key.Path());
      }
    case _ =>
  }

  lemma CapacityGuarded(cfg: Config, w: World, e: Event)
    requires Inv(w) && Restores(cfg, w, e, Capacity(cfg.node)) && Counted(cfg, w, e)
    requires Allocatable(cfg.node).pids <= Quantities.MAX_INT64
    ensures Guarded(cfg, w, e, Capacity(cfg.node))
  {
    hide Accepted, Fitted, Restorable, WithGeneration, Countable, Allocatable, Inv;
    match e
    case Applying(rt, filed) =>
      if Accepted(cfg, w, rt) && Fitted(w.cluster.specs, cfg.node) {
        AcceptedFits(cfg, w, rt);
      }
    case Removing(key) =>
      if Fitted(w.cluster.specs, cfg.node) {
        FittedLess(w.cluster.specs, key.Path(), cfg.node);
      }
    case _ =>
  }

  /** Ports over whole runs: at every write to memory, whatever fails and whatever the sums come
      to, no two runtimes clash, unless a spec comes back from disk that does. */
  lemma RunPorts(o: Oracle, cfg: Config, w: World, es: seq<Event>)
    requires Inv(w) && PortSafe(w.cluster.specs) && RestoringRun(o, cfg, w, es, Ports())
    ensures Always(w.cluster, Run(o, cfg, w, es).cluster, Ports())
  {
    hide Inv, PortSafe, Always, Restores, Guarded, Run;
    forall i | 0 <= i < |es|
      ensures Guarded(cfg, Run(o, cfg, w, es[..i]), es[i], Ports())
    {
      RunInvariant(o, cfg, w, es[..i]);
      PortsGuarded(cfg, Run(o, cfg, w, es[..i]), es[i]);
    }
    RunKeeps(o, cfg, w, es, Ports());
  }

  /** Capacity over whole runs: as long as what is accepted can be counted, at every write to
      memory the sums stay within what is allocatable, unless a spec comes back from disk that
      does not fit. */
  lemma RunFits(o: Oracle, cfg: Config, w: World, es: seq<Event>)
    requires Inv(w) && Fitted(w.cluster.specs, cfg.node) && Allocatable(cfg.node).pids <= Quantities.MAX_INT64
    requires RestoringRun(o, cfg, w, es, Capacity(cfg.node)) && CountedRun(o, cfg, w, es)
    ensures Always(w.cluster, Run(o, cfg, w, es).cluster, Capacity(cfg.node))
  {
    hide Inv, Fitted, Always, Restores, Guarded, Run, Allocatable, Counted;
    forall i | 0 <= i < |es|
      ensures Guarded(cfg, Run(o, cfg, w, es[..i]), es[i], Capacity(cfg.node))
    {
      RunInvariant(o, cfg, w, es[..i]);
      CapacityGuarded(cfg, Run(o, cfg, w, es[..i]), es[i]);
    }
    RunKeeps(o, cfg, w, es, Capacity(cfg.node));
  }

  /** What the snapshot reports as available is what is allocatable less what all containers may
      use. */
  ghost predicate ExactlyAvailable(specs: Specs, node: Node) {
    var a, held, left := Allocatable(node), Demand(specs), Sub(Allocatable(node), Wrapped(Total(specs)));
    && (a.milli > 0 ==> 0 <= left.milli == a.milli - held.milli)
    && (a.memory > 0 ==> 0 <= left.memory == a.memory - held.memory)
    && (a.pids > 0 ==> 0 <= left.pids == a.pids - held.pids)
  }

  lemma FittedAvailable(specs: Specs, node: Node)
    requires Sound(specs) && Fitted(specs, node) && Allocatable(node).pids <= Quantities.MAX_INT64
    ensures ExactlyAvailable(specs, node)
  {
    forall k | k in specs
      ensures Staffed(specs[k])
    {
      WellFormedStaffed(specs[k]);
    }
    hide HeldBy, Allocatable, Total, Demand, Wrapped, Sub, WellFormed;
    TotalIsDemand(specs);
    DemandNonNegative(specs, Allocatable(node));
    AvailableExact(node, Demand(specs));
  }

  /** So it is at the end of every such run. */
  lemma RunAvailable(o: Oracle, cfg: Config, w: World, es: seq<Event>)
    requires Inv(w) && Fitted(w.cluster.specs, cfg.node) && Allocatable(cfg.node).pids <= Quantities.MAX_INT64
    requires RestoringRun(o, cfg, w, es, Capacity(cfg.node)) && CountedRun(o, cfg, w, es)
    ensures ExactlyAvailable(Run(o, cfg, w, es).cluster.specs, cfg.node)
  {
    RunInvariant(o, cfg, w, es);
    SoundOfInv(Run(o, cfg, w, es));
    hide Inv, Fitted, RestoringRun, CountedRun, Run, ExactlyAvailable, Allocatable, Always, Sound;
    RunFits(o, cfg, w, es);
    AlwaysEnd(w.cluster, Run(o, cfg, w, es).cluster, Capacity(cfg.node));
    FittedAvailable(Run(o, cfg, w, es).cluster.specs, cfg.node);
  }

  /** Why the sums must fit int64: 2^61 replicas of one CPU wrap to nothing, and any node has
      room for that. */
  lemma OverflowFits(node: Node, d: Deployment)
    requires d.cpus == "1" && d.memory == "" && d.pids == 0 && d.replicas == 0x2000_0000_0000_0000
    requires 0 < Allocatable(node).milli <= Quantities.MAX_INT64
    ensures Wrapped(DeploymentRequest(d)) == NOTHING
    ensures Fits(Allocatable(node), Wrapped(DeploymentRequest(d))) && !Fits(Allocatable(node), DeploymentRequest(d))
  {
    OneCpu();
    hide Quantities.CpuMilli, Allocatable;
    assert DeploymentRequest(d) == Request(1000 * 0x2000_0000_0000_0000, 0, 0);
  }

  lemma OneCpu()
    ensures Quantities.CpuMilli("1") == Quantities.Some(1000)
    ensures Quantities.MemoryBytes("") == Quantities.Some(0)
  {
  }

  // ------------------------------------------------- files in step with memory

  /** No spec is on disk only. */
  ghost predicate Synced(w: World) {
    w.store.Keys <= w.cluster.specs.Keys
  }

  /** Nothing enters or leaves the store but the runtime's own file. */
  ghost predicate OwnFile(w: World, v: World, path: string) {
    v.store.Keys <= w.store.Keys + {path}
  }

  lemma FinishFile(o: Oracle, w: World, rt: Runtime, found: Discovered)
    ensures OwnFile(w, Finish(o, w, rt, found).world, rt.key.Path())
  {
    hide NewStatus;
  }

  lemma PublishFile(o: Oracle, w: World, rt: Runtime, found: Discovered)
    ensures OwnFile(w, Publish(o, w, rt, found).world, rt.key.Path())
  {
    hide Replace, StartPorts, Ascending, RouteMap, Finish, NewStatus;
    var rep := Replace(w.table, rt, found, RouteMap(rt));
    var c := Rewrite(w.cluster, rt);
    var up := StartPorts(rep.table, Ascending(rep.starts), o.bind, c.tick);
    var routed := w.(cluster := Skip(c, up.attempts), table := up.table, routed := w.routed[rt.key.Path() := rt]);
    FinishFile(o, routed.(table := StopPorts(up.table, rep.stops)), rt, found);
  }

  lemma RollbackFile(o: Oracle, w: World, failed: Runtime, prior: Prior)
    requires prior.Prior?
    ensures OwnFile(w, Rollback(o, w, failed, prior).world, prior.rt.key.Path())
  {
    hide Cleanup, NewStatus, CachedEndpoints;
  }

  lemma CarryFile(o: Oracle, cfg: Config, w: World, rt: Runtime, prior: Prior)
    requires prior.Prior? ==> prior.rt.key.Path() == rt.key.Path()
    ensures OwnFile(w, Carry(o, cfg, w, rt, prior).world, rt.key.Path())
  {
    hide WritePhase, EnsureNetwork, Rolling, NewStatus;
    var phase := if rt.key.Path() in w.cluster.specs then Updating else Pending;
    var network := EnsureNetwork(o, WritePhase(w.cluster, rt, phase));
    if network.ok {
      RollingFile(o, cfg, w.(cluster := WritePhase(network.cluster, rt, Starting)), rt, prior);
    }
  }

  lemma RollingFile(o: Oracle, cfg: Config, w: World, rt: Runtime, prior: Prior)
    requires prior.Prior? ==> prior.rt.key.Path() == rt.key.Path()
    ensures OwnFile(w, Rolling(o, cfg, w, rt, prior).world, rt.key.Path())
  {
    hide Rollout.Reconcile, Endpoints.Refresh, Publish, Rollback, NewStatus;
    var out := Rollout.Reconcile(o, cfg.selfHeal, w.cluster, rt);
    var rolled := w.(cluster := out.cluster);
    if out.ok {
      var found := Endpoints.Refresh(o, rolled.cluster, rt, |rt.services|);
      if found.value.Some? {
        PublishFile(o, rolled.(cluster := found.cluster), rt, found.value.value);
      }
    } else if prior.Prior? {
      RollbackFile(o, rolled, rt, prior);
    }
  }

  lemma ApplyFile(o: Oracle, cfg: Config, w: World, rt: Runtime, filed: Option<Status>)
    requires Inv(w) && Accepted(cfg, w, rt)
    ensures OwnFile(w, Apply(o, cfg, w, rt, filed).world, rt.key.Path())
  {
    hide Inv, Accepted, Apply, Carry, WithGeneration;
    var v, given, prior := ApplyIsCarry(o, cfg, w, rt, filed);
    CarryFile(o, cfg, v, given, prior);
  }

  lemma ApplySynced(o: Oracle, cfg: Config, w: World, rt: Runtime, filed: Option<Status>)
    requires Inv(w) && Synced(w)
    ensures Synced(Apply(o, cfg, w, rt, filed).world)
  {
    if Accepted(cfg, w, rt) {
      hide Inv, Accepted, Apply, Carry, WithGeneration, Shows;
      var b := ApplyShows(o, cfg, w, rt, filed);
      ApplyFile(o, cfg, w, rt, filed);
    } else {
      RejectedIsSilent(o, cfg, w, rt, filed);
    }
  }

  lemma RemoveFile(o: Oracle, w: World, key: Key)
    ensures var r := Remove(o, w, key);
            r.world.store.Keys <= w.store.Keys && (r.ok ==> key.Path() !in r.world.store)
  {
    hide Lookup, WritePhase, Forget, Drop, Purge, OwnedAll;
  }

  lemma RemoveSynced(o: Oracle, w: World, key: Key)
    requires Inv(w) && Synced(w) && Remove(o, w, key).ok
    ensures Synced(Remove(o, w, key).world)
  {
    RemoveFile(o, w, key);
    hide Inv, Remove;
    NamelessFails(o, w, key);
    RemoveShows(o, w, key);
  }

  lemma NamelessFails(o: Oracle, w: World, key: Key)
    ensures Remove(o, w, key).ok ==> key.name != ""
  {
  }

  lemma {:induction false} ResyncFiles(o: Oracle, cfg: Config, w: World, rts: seq<Runtime>)
    ensures forall path :: path in ResyncEach(o, cfg, w, rts).world.store ==>
              path in w.store || exists rt :: rt in rts && rt.key.Path() == path
  {
    hide ResyncOne;
    if rts != [] {
      var u, rt := rts[..|rts| - 1], rts[|rts| - 1];
      ResyncFiles(o, cfg, w, u);
      assert rts == u + [rt];
      var before := ResyncEach(o, cfg, w, u);
      if before.ok {
        ResyncOneFile(o, cfg, before.world, rt);
      }
    }
  }

  lemma ResyncOneFile(o: Oracle, cfg: Config, w: World, rt: Runtime)
    ensures OwnFile(w, ResyncOne(o, cfg, w, rt).world, rt.key.Path())
  {
    hide Rollout.Reconcile, Endpoints.Refresh, NewStatus, PutEndpoints;
  }

  lemma ResyncSynced(o: Oracle, cfg: Config, w: World)
    requires Inv(w) && Synced(w)
    ensures Synced(Resync(o, cfg, w).world)
  {
    SoundOfInv(w);
    InMemoryCurrent(w.cluster);
    hide Inv, ResyncEach;
    ResyncEachShows(o, cfg, w, InMemory(w.cluster.specs));
    ResyncFiles(o, cfg, w, InMemory(w.cluster.specs));
  }

  /** A step of an ordinary run: what is removed is removed completely. */
  ghost predicate Ordinary(o: Oracle, w: World, e: Event) {
    e.Removing? ==> Remove(o, w, e.key).ok
  }

  lemma OrdinaryStep(o: Oracle, cfg: Config, w: World, e: Event)
    requires Inv(w) && Synced(w) && Ordinary(o, w, e)
    ensures Synced(Step(o, cfg, w, e))
  {
    hide Inv, Accepted, Apply, Remove, Resync;
    match e
    case Applying(rt, filed) => ApplySynced(o, cfg, w, rt, filed);
    case Removing(key) => RemoveSynced(o, w, key);
    case Resyncing => ResyncSynced(o, cfg, w);
    case _ =>
  }

  ghost predicate OrdinaryRun(o: Oracle, cfg: Config, w: World, es: seq<Event>) {
    forall i :: 0 <= i < |es| ==> Ordinary(o, Run(o, cfg, w, es[..i]), es[i])
  }

  lemma {:induction false} OrdinarySynced(o: Oracle, cfg: Config, w: World, es: seq<Event>, k: nat)
    requires Inv(w) && Synced(w) && OrdinaryRun(o, cfg, w, es) && k <= |es|
    ensures Synced(Run(o, cfg, w, es[..k]))
  {
    hide Inv, Ordinary, Step, Synced;
    if k > 0 {
      OrdinarySynced(o, cfg, w, es, k - 1);
      assert es[..k][..k - 1] == es[..k - 1];
      RunInvariant(o, cfg, w, es[..k - 1]);
      OrdinaryStep(o, cfg, Run(o, cfg, w, es[..k - 1]), es[k - 1]);
    }
  }

  lemma OrdinaryRestores(o: Oracle, cfg: Config, w: World, es: seq<Event>, good: Specs -> bool)
    requires Inv(w) && Synced(w) && OrdinaryRun(o, cfg, w, es)
    ensures RestoringRun(o, cfg, w, es, good)
  {
    hide Inv, OrdinaryRun, Accepted, Run;
    forall i | 0 <= i < |es|
      ensures Restores(cfg, Run(o, cfg, w, es[..i]), es[i], good)
    {
      OrdinarySynced(o, cfg, w, es, i);
    }
  }

  /** On a node that starts with no spec on disk only, memory is free of clashes at every write
      of every run whose removals complete, whichever other calls fail and whatever is asked
      for. */
  lemma OrdinaryRunPorts(o: Oracle, cfg: Config, w: World, es: seq<Event>)
    requires Inv(w) && Synced(w) && PortSafe(w.cluster.specs) && OrdinaryRun(o, cfg, w, es)
    ensures Always(w.cluster, Run(o, cfg, w, es).cluster, Ports())
  {
    hide Inv, Synced, PortSafe, OrdinaryRun, RestoringRun, Always, Run;
    OrdinaryRestores(o, cfg, w, es, Ports());
    RunPorts(o, cfg, w, es);
  }

  /** And it is within the node, as long as what is accepted can be counted. */
  lemma OrdinaryRunFits(o: Oracle, cfg: Config, w: World, es: seq<Event>)
    requires Inv(w) && Synced(w) && Fitted(w.cluster.specs, cfg.node) && Allocatable(cfg.node).pids <= Quantities.MAX_INT64
    requires OrdinaryRun(o, cfg, w, es) && CountedRun(o, cfg, w, es)
    ensures Always(w.cluster, Run(o, cfg, w, es).cluster, Capacity(cfg.node))
  {
    hide Inv, Synced, Fitted, OrdinaryRun, CountedRun, RestoringRun, Always, Run, Allocatable;
    OrdinaryRestores(o, cfg, w, es, Capacity(cfg.node));
    RunFits(o, cfg, w, es);
  }
}
