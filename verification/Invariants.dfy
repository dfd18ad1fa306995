/** What holds in every state that any run of the controller reaches, whatever fails: the
    route table is the sorted union of what the routed runtimes claim, and each of those
    runtimes is known. */
module Invariants {
  import opened Runtimes
  import opened Routing
  import opened RouteTable
  import opened Statuses
  import opened Docker
  import opened Controller
  import opened Effects
  import Rollout
  import Endpoints
  import Quantities

  ghost predicate Sound(specs: map<string, Runtime>) {
    Keyed(specs) && forall k :: k in specs ==> WellFormed(specs[k])
  }

  ghost predicate Inv(w: World) {
    && Sound(w.cluster.specs) && Sound(w.store)
    && w.cluster.statuses.Keys == w.cluster.specs.Keys
    && Keyed(w.routed) && w.routed.Keys <= w.cluster.specs.Keys
    && Rebuilt(w.table.routes, w.routed)
  }

  lemma SoundUpdate(specs: map<string, Runtime>, rt: Runtime)
    requires Sound(specs) && WellFormed(rt)
    ensures Sound(specs[rt.key.Path() := rt])
  {
    hide WellFormed;
    WellFormedKey(rt);
  }

  lemma WellFormedKey(rt: Runtime)
    requires WellFormed(rt)
    ensures ValidKey(rt.key)
  {
  }

  lemma SoundLess(specs: map<string, Runtime>, path: string)
    requires Sound(specs)
    ensures Sound(specs - {path})
  {
    hide WellFormed;
  }

  lemma InvWrite(w: World, rt: Runtime, status: Status)
    requires Inv(w) && WellFormed(rt)
    ensures Inv(w.(cluster := Write(w.cluster, rt, status)))
  {
    SoundUpdate(w.cluster.specs, rt);
    hide Sound, Rebuilt, WellFormed;
  }

  /** A change of the cluster that leaves the specs and the set of statuses alone. */
  ghost predicate SameSpecs(c: Cluster, e: Cluster) {
    e.specs == c.specs && e.statuses.Keys == c.statuses.Keys
  }

  lemma InvCluster(w: World, c: Cluster)
    requires Inv(w) && SameSpecs(w.cluster, c)
    ensures Inv(w.(cluster := c))
  {
    hide Sound, Rebuilt;
  }

  lemma InvStore(w: World, c: Cluster, store: map<string, Runtime>)
    requires Inv(w) && SameSpecs(w.cluster, c) && Sound(store)
    ensures Inv(w.(cluster := c, store := store))
  {
    hide Sound, Rebuilt;
  }

  lemma InvSave(o: Oracle, w: World, rt: Runtime)
    requires Inv(w) && WellFormed(rt)
    ensures Inv(SaveRuntime(o, w, rt).world)
  {
    SoundUpdate(w.store, rt);
    SoundLess(w.store, rt.key.Path());
    hide Inv, Sound, WellFormed;
    var t := Tick(o, w.cluster);
    InvCluster(w, t);
    InvStore(w, t, w.store[rt.key.Path() := rt]);
    InvStore(w, t, w.store - {rt.key.Path()});
  }

  lemma InvOther(o: Oracle, w: World)
    requires Inv(w)
    ensures Inv(SaveOther(o, w).world)
  {
    InvCluster(w, Tick(o, w.cluster));
  }

  lemma InvFailed(o: Oracle, w: World, rt: Runtime)
    requires Inv(w) && WellFormed(rt)
    ensures Inv(RecordFailed(o, w, rt))
  {
    hide Inv, WellFormed, NewStatus;
    InvWrite(w, rt, NewStatus(rt, Failed, map[], true));
    var noted := w.(cluster := Write(w.cluster, rt, NewStatus(rt, Failed, map[], true)));
    InvSave(o, noted, rt);
    InvOther(o, SaveRuntime(o, noted, rt).world);
  }

  lemma PassSame(c: Cluster, e: Cluster, rt: Runtime, names: set<string>)
    requires Pass(c, e, rt, names) && rt.key.Path() in c.statuses
    ensures SameSpecs(c, e)
  {
    hide Within;
  }

  lemma InvReconcile(o: Oracle, cfg: Config, w: World, rt: Runtime)
    requires Inv(w) && Current(w.cluster, rt)
    ensures Inv(w.(cluster := Rollout.Reconcile(o, cfg.selfHeal, w.cluster, rt).cluster))
    ensures Current(Rollout.Reconcile(o, cfg.selfHeal, w.cluster, rt).cluster, rt)
  {
    ReconcileEffect(o, cfg.selfHeal, w.cluster, rt);
    var e := Rollout.Reconcile(o, cfg.selfHeal, w.cluster, rt).cluster;
    PassSame(w.cluster, e, rt, NamesOfAll(rt));
    hide Pass, Sound, Rebuilt, Rollout.Reconcile;
    InvCluster(w, e);
  }

  lemma InvRefresh(o: Oracle, w: World, rt: Runtime)
    requires Inv(w)
    ensures Inv(w.(cluster := Endpoints.Refresh(o, w.cluster, rt, |rt.services|).cluster))
    ensures SameSpecs(w.cluster, Endpoints.Refresh(o, w.cluster, rt, |rt.services|).cluster)
  {
    Endpoints.RefreshOnlyReads(o, w.cluster, rt, |rt.services|);
    hide Endpoints.Refresh, Inv;
    InvCluster(w, Endpoints.Refresh(o, w.cluster, rt, |rt.services|).cluster);
  }

  lemma {:induction false} RemovalSame(o: Oracle, c: Cluster, names: seq<string>)
    ensures var e := Rollout.RemoveEach(o, c, names).cluster; e.specs == c.specs && e.statuses == c.statuses
  {
    if names != [] {
      RemovalSame(o, c, names[..|names| - 1]);
    }
  }

  lemma PurgeSame(o: Oracle, c: Cluster, names: set<string>)
    ensures var e := Purge(o, c, names).cluster; e.specs == c.specs && e.statuses == c.statuses
  {
    var listed := ListNames(o, c, names);
    if listed.value.Some? {
      RemovalSame(o, listed.cluster, listed.value.value);
    }
  }

  lemma InvRestore(o: Oracle, w: World, rt: Runtime, status: Status)
    requires Inv(w) && WellFormed(rt)
    ensures Inv(Restore(o, w, rt, status).world)
  {
    hide Inv, WellFormed, SaveRuntime, Write;
    InvWrite(w, rt, status);
    var noted := w.(cluster := Write(w.cluster, rt, status));
    InvSave(o, noted, rt);
    InvOther(o, SaveRuntime(o, noted, rt).world);
  }

  lemma InvRollback(o: Oracle, w: World, failed: Runtime, prior: Prior)
    requires Inv(w) && prior.Prior? && WellFormed(prior.rt)
    ensures Inv(Rollback(o, w, failed, prior).world)
  {
    var cleaned := Cleanup(o, w.cluster, failed).cluster;
    if failed.generation > 0 {
      PurgeSame(o, w.cluster, OfGeneration(w.cluster.containers, failed.key, failed.generation));
    }
    assert SameSpecs(w.cluster, cleaned);
    hide Inv, WellFormed, NewStatus, Cleanup, CachedEndpoints, Restore;
    var status := if prior.status.Some? then prior.status.value
                  else NewStatus(prior.rt, Running, CachedEndpoints(w.table, prior.rt), false);
    InvCluster(w, cleaned);
    InvRestore(o, w.(cluster := cleaned), prior.rt, status);
  }

  lemma InvRewrite(w: World, rt: Runtime, calls: nat)
    requires Inv(w) && Current(w.cluster, rt)
    ensures Inv(w.(cluster := Skip(Rewrite(w.cluster, rt), calls)))
    ensures Rewrite(w.cluster, rt).specs == w.cluster.specs
  {
    assert w.cluster.specs[rt.key.Path() := rt] == w.cluster.specs;
    hide Sound, Rebuilt;
  }

  lemma InvRoutes(w: World, rt: Runtime, t: Table)
    requires Inv(w) && Current(w.cluster, rt)
    requires t.routes == Appended(WithoutKey(w.table.routes, rt.key), RouteMap(rt))
    ensures Inv(w.(table := t, routed := w.routed[rt.key.Path() := rt]))
  {
    ReplaceKeepsRebuilt(w.table.routes, w.routed, rt, RouteMap(rt));
    hide Rebuilt, WellFormed, Appended, WithoutKey, RouteMap;
  }

  lemma InvFinish(o: Oracle, w: World, rt: Runtime, found: Discovered)
    requires Inv(w) && Current(w.cluster, rt)
    ensures Inv(Finish(o, w, rt, found).world)
  {
    var path := rt.key.Path();
    assert WellFormed(rt);
    hide Sound, Rebuilt, WellFormed, NewStatus, SaveRuntime;
    var done := w.(cluster := w.cluster.(statuses := w.cluster.statuses[path := NewStatus(rt, Running, found, false)]));
    InvCluster(w, done.cluster);
    hide Inv;
    InvSave(o, done, rt);
    var spec := SaveRuntime(o, done, rt).world;
    InvOther(o, spec);
    InvOther(o, SaveOther(o, spec).world);
  }

  lemma InvPublish(o: Oracle, w: World, rt: Runtime, found: Discovered)
    requires Inv(w) && Current(w.cluster, rt)
    ensures Inv(Publish(o, w, rt, found).world)
  {
    var rep := Replace(w.table, rt, found, RouteMap(rt));
    var c := Rewrite(w.cluster, rt);
    var up := StartPorts(rep.table, Ascending(rep.starts), o.bind, c.tick);
    StartPortsEffect(rep.table, Ascending(rep.starts), o.bind, c.tick);
    InvRewrite(w, rt, up.attempts);
    var w1 := w.(cluster := Skip(c, up.attempts));
    assert rep.table.routes == Appended(WithoutKey(w.table.routes, rt.key), RouteMap(rt));
    assert Current(w1.cluster, rt) && WellFormed(rt);
    hide Inv, WellFormed, StartPorts, Ascending, Appended, WithoutKey, RouteMap, Replace;
    InvRoutes(w1, rt, up.table);
    InvRoutes(w1, rt, StopPorts(up.table, rep.stops));
    var routed := w1.(table := up.table, routed := w.routed[rt.key.Path() := rt]);
    if !up.ok {
      InvFailed(o, routed, rt);
    } else {
      InvFinish(o, routed.(table := StopPorts(up.table, rep.stops)), rt, found);
    }
  }

  lemma InvDiscovering(o: Oracle, w: World, rt: Runtime)
    requires Inv(w) && Current(w.cluster, rt)
    ensures Inv(Discovering(o, w, rt).world)
  {
    InvRefresh(o, w, rt);
    var found := Endpoints.Refresh(o, w.cluster, rt, |rt.services|);
    assert Current(found.cluster, rt) && WellFormed(rt);
    hide Inv, WellFormed, Endpoints.Refresh, Publish, RecordFailed;
    if found.value.None? {
      InvFailed(o, w.(cluster := found.cluster), rt);
    } else {
      InvPublish(o, w.(cluster := found.cluster), rt, found.value.value);
    }
  }

  lemma InvRolling(o: Oracle, cfg: Config, w: World, rt: Runtime, prior: Prior)
    requires Inv(w) && Current(w.cluster, rt) && (prior.Prior? ==> WellFormed(prior.rt))
    ensures Inv(Rolling(o, cfg, w, rt, prior).world)
  {
    InvReconcile(o, cfg, w, rt);
    assert WellFormed(rt);
    hide Inv, WellFormed, Rollout.Reconcile, Discovering, RecordFailed, Rollback;
    var out := Rollout.Reconcile(o, cfg.selfHeal, w.cluster, rt);
    var rolled := w.(cluster := out.cluster);
    if out.ok {
      InvDiscovering(o, rolled, rt);
    } else if prior.Prior? {
      InvRollback(o, rolled, rt, prior);
    } else {
      InvFailed(o, rolled, rt);
    }
  }

  lemma CurrentAfterWrite(c: Cluster, rt: Runtime, phase: Phase)
    ensures Current(WritePhase(c, rt, phase), rt)
  {
  }

  lemma InvCarry(o: Oracle, cfg: Config, w: World, rt: Runtime, prior: Prior)
    requires Inv(w) && WellFormed(rt) && (prior.Prior? ==> WellFormed(prior.rt))
    ensures Inv(Carry(o, cfg, w, rt, prior).world)
  {
    var phase := if rt.key.Path() in w.cluster.specs then Updating else Pending;
    var begun := WritePhase(w.cluster, rt, phase);
    InvWrite(w, rt, NewStatus(rt, phase, map[], false));
    var network := EnsureNetwork(o, begun);
    var w1 := w.(cluster := begun);
    assert SameSpecs(begun, network.cluster);
    hide Inv, WellFormed, NewStatus, Rolling, RecordFailed, EnsureNetwork;
    assert Inv(w1);
    InvCluster(w1, network.cluster);
    var w2 := w1.(cluster := network.cluster);
    if !network.ok {
      InvFailed(o, w2, rt);
    } else {
      InvWrite(w2, rt, NewStatus(rt, Starting, map[], false));
      CurrentAfterWrite(network.cluster, rt, Starting);
      InvRolling(o, cfg, w2.(cluster := WritePhase(network.cluster, rt, Starting)), rt, prior);
    }
  }

  lemma PriorWellFormed(o: Oracle, w: World, path: string, filed: Option<Status>)
    requires Inv(w)
    ensures var p := Previous(o, w, path, filed);
            && SameSpecs(w.cluster, p.cluster) && p.cluster == p.cluster.(tick := p.cluster.tick)
            && (p.prior.Prior? ==> WellFormed(p.prior.rt) && p.prior.rt.key.Path() == path)
  {
    hide WellFormed, Rebuilt;
  }

  lemma InvApply(o: Oracle, cfg: Config, w: World, rt: Runtime, filed: Option<Status>)
    requires Inv(w)
    ensures Inv(Apply(o, cfg, w, rt, filed).world)
  {
    PriorWellFormed(o, w, rt.key.Path(), filed);
    var p := Previous(o, w, rt.key.Path(), filed);
    hide Inv, WellFormed, Admitted, Carry, Previous;
    InvCluster(w, p.cluster);
    var given := WithGeneration(w.cluster.specs, rt);
    if WellFormed(given) {
      InvCarry(o, cfg, w.(cluster := p.cluster), given, p.prior);
    }
  }

  lemma InvForget(w: World, key: Key)
    requires Inv(w)
    ensures Inv(w.(cluster := Forget(w.cluster, key.Path()), table := Drop(w.table, key), routed := w.routed - {key.Path()}))
  {
    RemoveKeepsRebuilt(w.table.routes, w.routed, key);
    SoundLess(w.cluster.specs, key.Path());
    hide Rebuilt, WellFormed, WithoutKey, DropEndpoints;
    var v := w.(cluster := Forget(w.cluster, key.Path()), table := Drop(w.table, key), routed := w.routed - {key.Path()});
    assert v.table.routes == WithoutKey(w.table.routes, key);
    assert Keyed(v.routed);
  }

  lemma InvDelete(o: Oracle, w: World, key: Key)
    requires Inv(w)
    ensures Inv(DeleteRuntime(o, w, key).world)
  {
    SoundLess(w.store, key.Path());
    hide Inv, Sound;
    var t := Tick(o, w.cluster);
    InvCluster(w, t);
    InvStore(w, t, w.store - {key.Path()});
  }

  /** The part of Remove after the entries are gone. */
  lemma InvRemoved(o: Oracle, w: World, key: Key, names: Option<set<string>>)
    requires Inv(w)
    ensures var purged := if names.Some? then Purge(o, w.cluster, names.value) else Outcome(w.cluster, true);
            var cleared := w.(cluster := purged.cluster);
            var deleted := DeleteRuntime(o, cleared, key);
            && Inv(cleared) && Inv(deleted.world) && Inv(SaveOther(o, deleted.world).world)
  {
    if names.Some? {
      PurgeSame(o, w.cluster, names.value);
    }
    var purged := if names.Some? then Purge(o, w.cluster, names.value) else Outcome(w.cluster, true);
    var cleared := w.(cluster := purged.cluster);
    hide Inv, Purge;
    InvCluster(w, purged.cluster);
    InvDelete(o, cleared, key);
    InvOther(o, DeleteRuntime(o, cleared, key).world);
  }

  lemma InvRemove(o: Oracle, w: World, key: Key)
    requires Inv(w)
    ensures Inv(Remove(o, w, key).world)
  {
    var path := key.Path();
    var rt := Lookup(o, w, path);
    assert SameSpecs(w.cluster, rt.cluster) && (rt.value.Some? ==> WellFormed(rt.value.value)) by {
      hide WellFormed, Rebuilt;
    }
    hide Inv, WellFormed, Lookup, Purge, DeleteRuntime, Forget, Drop, NewStatus;
    InvCluster(w, rt.cluster);
    var w1 := w.(cluster := rt.cluster);
    if rt.value.Some? {
      InvWrite(w1, rt.value.value, NewStatus(rt.value.value, Terminating, map[], false));
    }
    var noted := if rt.value.Some? then WritePhase(rt.cluster, rt.value.value, Terminating) else rt.cluster;
    var w2 := w1.(cluster := noted);
    InvForget(w2, key);
    var gone := w.(cluster := Forget(noted, path), table := Drop(w.table, key), routed := w.routed - {path});
    InvRemoved(o, gone, key,
      if rt.value.Some? then Quantities.Some(OwnedAll(gone.cluster.containers, rt.value.value.key)) else Quantities.None);
  }

  lemma InvStatus(w: World, rt: Runtime, status: Status, found: map<string, seq<Endpoint>>)
    requires Inv(w) && Current(w.cluster, rt)
    ensures Inv(w.(cluster := w.cluster.(statuses := w.cluster.statuses[rt.key.Path() := status]),
                   table := w.table.(endpoints := found)))
  {
    hide Sound, Rebuilt;
  }

  lemma InvResyncOne(o: Oracle, cfg: Config, w: World, rt: Runtime)
    requires Inv(w) && Current(w.cluster, rt)
    ensures Inv(ResyncOne(o, cfg, w, rt).world)
  {
    InvReconcile(o, cfg, w, rt);
    var out := Rollout.Reconcile(o, cfg.selfHeal, w.cluster, rt);
    var rolled := w.(cluster := out.cluster);
    InvRefresh(o, rolled, rt);
    var found := Endpoints.Refresh(o, out.cluster, rt, |rt.services|);
    var seen := w.(cluster := found.cluster);
    CurrentWellFormed(w, rt);
    assert Current(seen.cluster, rt);
    hide Inv, WellFormed, Rollout.Reconcile, Endpoints.Refresh, RecordFailed, NewStatus, PutEndpoints;
    if !out.ok {
      InvFailed(o, rolled, rt);
    } else if found.value.None? {
      InvFailed(o, seen, rt);
    } else {
      var status := NewStatus(rt, Running, found.value.value, false);
      var cached := PutEndpoints(w.table.endpoints, rt.key, found.value.value);
      InvStatus(seen, rt, status, cached);
      InvOther(o, seen.(cluster := seen.cluster.(statuses := seen.cluster.statuses[rt.key.Path() := status]),
                        table := seen.table.(endpoints := cached)));
    }
  }

  lemma CurrentWellFormed(w: World, rt: Runtime)
    requires Inv(w) && Current(w.cluster, rt)
    ensures WellFormed(rt)
  {
    hide WellFormed, Rebuilt;
  }

  lemma StatusThere(w: World, rt: Runtime)
    requires Inv(w) && Current(w.cluster, rt)
    ensures rt.key.Path() in w.cluster.statuses
  {
  }

  /** A turn that succeeds changes neither the specs nor which statuses there are. */
  lemma ResyncOneSame(o: Oracle, cfg: Config, w: World, rt: Runtime)
    requires Current(w.cluster, rt) && rt.key.Path() in w.cluster.statuses && ResyncOne(o, cfg, w, rt).ok
    ensures SameSpecs(w.cluster, ResyncOne(o, cfg, w, rt).world.cluster)
  {
    ReconcileEffect(o, cfg.selfHeal, w.cluster, rt);
    var out := Rollout.Reconcile(o, cfg.selfHeal, w.cluster, rt);
    PassSame(w.cluster, out.cluster, rt, NamesOfAll(rt));
    Endpoints.RefreshOnlyReads(o, out.cluster, rt, |rt.services|);
    hide Rollout.Reconcile, Endpoints.Refresh, RecordFailed, NewStatus, PutEndpoints, Pass;
  }

  lemma {:induction false} InvResyncEach(o: Oracle, cfg: Config, w: World, rts: seq<Runtime>)
    requires Inv(w) && forall rt :: rt in rts ==> Current(w.cluster, rt)
    ensures Inv(ResyncEach(o, cfg, w, rts).world)
    ensures ResyncEach(o, cfg, w, rts).ok ==> SameSpecs(w.cluster, ResyncEach(o, cfg, w, rts).world.cluster)
  {
    hide Inv, ResyncOne;
    if rts != [] {
      var u, rt := rts[..|rts| - 1], rts[|rts| - 1];
      assert forall r :: r in u ==> r in rts;
      InvResyncEach(o, cfg, w, u);
      var before := ResyncEach(o, cfg, w, u);
      if before.ok {
        assert rt in rts;
        InvResyncOne(o, cfg, before.world, rt);
        StatusThere(before.world, rt);
        if ResyncOne(o, cfg, before.world, rt).ok {
          ResyncOneSame(o, cfg, before.world, rt);
        }
      }
    }
  }

  lemma InMemoryCurrent(c: Cluster)
    requires Sound(c.specs)
    ensures forall rt :: rt in InMemory(c.specs) ==> Current(c, rt)
  {
    hide WellFormed;
    forall rt | rt in InMemory(c.specs)
      ensures Current(c, rt)
    {
      var i :| 0 <= i < |InMemory(c.specs)| && InMemory(c.specs)[i] == rt;
      assert InOrder(c.specs.Keys)[i] in InOrder(c.specs.Keys);
    }
  }

  lemma InvShutdown(o: Oracle, w: World)
    requires Inv(w)
    ensures Inv(Shutdown(o, w).world)
  {
    hide Sound, ClaimsPort, PortRoutes;
    var v := w.(table := w.table.(routes := map[], servers := map[]), routed := map[]);
    assert Rebuilt(v.table.routes, v.routed);
    InvOther(o, v);
  }

  lemma InvStep(o: Oracle, cfg: Config, w: World, e: Event)
    requires Inv(w)
    ensures Inv(Step(o, cfg, w, e))
  {
    match e
    case Applying(rt, filed) => InvApply(o, cfg, w, rt, filed);
    case Removing(key) => InvRemove(o, w, key);
    case Resyncing =>
      InMemoryCurrent(w.cluster);
      InvResyncEach(o, cfg, w, InMemory(w.cluster.specs));
    case Stopping => InvShutdown(o, w);
    case Elsewhere(m, pause) => InvCluster(w, SetContainers(w.cluster.(now := w.cluster.now + pause), m));
  }

  /** Incremental equals rebuilt, in every reachable state: each port's list is the sorted
      union of what the routed runtimes claim on it, no list is empty, and every runtime in
      the table is in memory, so the resolver never skips a route for want of its spec. */
  lemma {:induction false} RunInvariant(o: Oracle, cfg: Config, w: World, es: seq<Event>)
    requires Inv(w)
    ensures Inv(Run(o, cfg, w, es))
    decreases |es|
  {
    hide Inv, Step;
    if es != [] {
      RunInvariant(o, cfg, w, es[..|es| - 1]);
      InvStep(o, cfg, Run(o, cfg, w, es[..|es| - 1]), es[|es| - 1]);
    }
  }

  /** A controller that has just been started, on whatever files and containers it finds. */
  ghost predicate Initial(w: World) {
    && w.cluster.specs == map[] && w.cluster.statuses == map[] && w.routed == map[]
    && w.table.routes == map[] && w.table.servers == map[] && w.table.endpoints == map[]
    && Sound(w.store)
  }

  lemma InitialInvariant(w: World)
    requires Initial(w)
    ensures Inv(w) && ListenersMatch(w.table)
  {
    hide ClaimsPort, PortRoutes, WellFormed;
  }
}
