/** What a step that succeeds has achieved: memory, disk, routes, cache and containers agree. */
module Success {
  import opened Runtimes
  import opened RouteTable
  import opened Statuses
  import opened Docker
  import opened Controller
  import opened Effects
  import opened Invariants
  import opened Safety
  import opened Reconciliation
  import opened Recovery
  import opened Rollbacks
  import Rollout
  import Sorting
  import Endpoints
  import Runs
  import Serving
  import Dating

  // ---------------------------------------------------------------- applied

  /** The runtime is in memory, on disk and in the table, as what was applied, with a status
      of its own; its cache entries are those of its services. */
  ghost predicate Established(v: World, rt: Runtime) {
    var path := rt.key.Path();
    && path in v.cluster.specs && v.cluster.specs[path] == rt
    && path in v.store && v.store[path] == rt
    && path in v.routed && v.routed[path] == rt
    && path in v.cluster.statuses && v.cluster.statuses[path].observedGeneration == rt.generation
    && forall s :: s in rt.services ==> EndpointKey(rt.key, s.name) in v.table.endpoints
  }

  lemma FinishEstablishes(o: Oracle, w: World, rt: Runtime, found: Discovered)
    requires Current(w.cluster, rt) && rt.key.Path() in w.routed && w.routed[rt.key.Path()] == rt
    requires forall s :: s in rt.services ==> EndpointKey(rt.key, s.name) in w.table.endpoints
    requires Finish(o, w, rt, found).ending == Applied
    ensures Established(Finish(o, w, rt, found).world, rt)
    ensures Finish(o, w, rt, found).world.store == w.store[rt.key.Path() := rt]
  {
    hide NewStatus, EndpointKey;
    var status := NewStatus(rt, Running, found, false);
    assert status.observedGeneration == rt.generation;
  }

  lemma {:induction false} RefreshCovers(o: Oracle, c: Cluster, rt: Runtime, k: nat)
    requires k <= |rt.services| && Endpoints.Refresh(o, c, rt, k).value.Some?
    ensures forall i :: 0 <= i < k ==> rt.services[i].name in Endpoints.Refresh(o, c, rt, k).value.value
  {
    hide Endpoints.Discover;
    if k > 0 {
      RefreshCovers(o, c, rt, k - 1);
    }
  }

  lemma BindingCaches(o: Oracle, w: World, rt: Runtime, found: Discovered)
    requires forall s :: s in rt.services ==> s.name in found
    ensures forall s :: s in rt.services ==> EndpointKey(rt.key, s.name) in Binding(o, w, rt, found).world.table.endpoints
  {
    var rep := Replace(w.table, rt, found, RouteMap(rt));
    StartPortsEffect(rep.table, Ascending(rep.starts), o.bind, Rewrite(w.cluster, rt).tick);
    hide StartPorts, Ascending, RouteMap, EndpointKey, Appended, WithoutKey, DropEndpoints;
  }

  lemma BindingRoutes(o: Oracle, w: World, rt: Runtime, found: Discovered)
    ensures var v := Binding(o, w, rt, found).world;
            Current(v.cluster, rt) && rt.key.Path() in v.routed && v.routed[rt.key.Path()] == rt && v.store == w.store
  {
    hide Replace, StartPorts, Ascending, RouteMap;
  }

  lemma PublishEstablishes(o: Oracle, w: World, rt: Runtime, found: Discovered)
    requires forall s :: s in rt.services ==> s.name in found
    requires Publish(o, w, rt, found).ending == Applied
    ensures Established(Publish(o, w, rt, found).world, rt)
    ensures Publish(o, w, rt, found).world.store == w.store[rt.key.Path() := rt]
  {
    BindingCaches(o, w, rt, found);
    BindingRoutes(o, w, rt, found);
    var b := Binding(o, w, rt, found);
    hide Binding, Finish, Established, EndpointKey;
    FinishEstablishes(o, b.world.(table := StopPorts(b.world.table, b.stops)), rt, found);
  }

  lemma RollingEstablishes(o: Oracle, cfg: Config, w: World, rt: Runtime, prior: Prior)
    requires Rolling(o, cfg, w, rt, prior).ending == Applied
    ensures Established(Rolling(o, cfg, w, rt, prior).world, rt)
    ensures Rolling(o, cfg, w, rt, prior).world.store == w.store[rt.key.Path() := rt]
  {
    hide Rollout.Reconcile, Endpoints.Refresh, Publish, RecordFailed, Established, Rollback;
    var out := Rollout.Reconcile(o, cfg.selfHeal, w.cluster, rt);
    if !out.ok && prior.Prior? {
      RollbackShows(o, w.(cluster := out.cluster), rt, prior, out.cluster.specs, out.cluster.specs[prior.rt.key.Path() := prior.rt]);
    } else if out.ok {
      var found := Endpoints.Refresh(o, out.cluster, rt, |rt.services|);
      if found.value.Some? {
        RefreshCovers(o, out.cluster, rt, |rt.services|);
        PublishEstablishes(o, w.(cluster := found.cluster), rt, found.value.value);
      }
    }
  }

  lemma AppliedFiles(o: Oracle, cfg: Config, w: World, rt: Runtime, filed: Option<Status>)
    requires Inv(w) && Apply(o, cfg, w, rt, filed).ending == Applied
    ensures var v, given := Apply(o, cfg, w, rt, filed).world, WithGeneration(w.cluster.specs, rt);
            Accepted(cfg, w, rt) && Established(v, given) && v.store == w.store[rt.key.Path() := given]
  {
    hide Inv, Accepted, Apply, WithGeneration, WritePhase, EnsureNetwork, Rolling, RecordFailed, Established;
    if Accepted(cfg, w, rt) {
      var v, given, prior := ApplyIsCarry(o, cfg, w, rt, filed);
      var phase := if given.key.Path() in v.cluster.specs then Updating else Pending;
      var network := EnsureNetwork(o, WritePhase(v.cluster, given, phase));
      if network.ok {
        RollingEstablishes(o, cfg, v.(cluster := WritePhase(network.cluster, given, Starting)), given, prior);
      }
    } else {
      Runs.RejectedIsSilent(o, cfg, w, rt, filed);
    }
  }

  /** An Apply that reports success has put the runtime everywhere it belongs, and has left
      every other runtime where it was. */
  lemma AppliedIsEstablished(o: Oracle, cfg: Config, w: World, rt: Runtime, filed: Option<Status>)
    requires Inv(w) && Apply(o, cfg, w, rt, filed).ending == Applied
    ensures var v, given, path := Apply(o, cfg, w, rt, filed).world, WithGeneration(w.cluster.specs, rt), rt.key.Path();
            && Established(v, given)
            && v.cluster.specs == w.cluster.specs[path := given]
            && v.store == w.store[path := given]
            && v.routed == w.routed[path := given]
  {
    var r, given := Apply(o, cfg, w, rt, filed), WithGeneration(w.cluster.specs, rt);
    AppliedFiles(o, cfg, w, rt, filed);
    assert given.key == rt.key;
    hide Inv, Accepted, Apply, WithGeneration, Established, Serving.Published, Shows;
    var _ := ApplyShows(o, cfg, w, rt, filed);
    Serving.ApplyTable(o, cfg, w, rt, filed);
    Serving.PublishedRouted(o, w, r.world, given, true);
  }

  // ----------------------------------------------------------------- failed

  predicate Fails(e: Ending) {
    e == NetworkFailed || e == RolloutFailed || e == EndpointsFailed || e == BindFailed
  }

  /** Memory holds the runtime, reported as failed throughout. */
  ghost predicate ReportedFailed(v: World, rt: Runtime) {
    && Current(v.cluster, rt) && rt.key.Path() in v.cluster.statuses
    && var s := v.cluster.statuses[rt.key.Path()];
       && s.observedGeneration == rt.generation && s.phase == Failed
       && forall d :: d in s.deployments ==> d.phase == Failed
  }

  /** No file operation fails. */
  ghost predicate Files(o: Oracle) {
    forall t :: o.disk(t) == Done
  }

  lemma RecordReports(o: Oracle, w: World, rt: Runtime)
    ensures ReportedFailed(RecordFailed(o, w, rt), rt)
    ensures Files(o) ==> RecordFailed(o, w, rt).store == w.store[rt.key.Path() := rt]
  {
    FailedEverywhere(rt, Failed, map[]);
    hide NewStatus;
    assert NewStatus(rt, Failed, map[], true).observedGeneration == rt.generation;
  }

  lemma DiscoveringReports(o: Oracle, w: World, rt: Runtime)
    requires Fails(Discovering(o, w, rt).ending)
    ensures ReportedFailed(Discovering(o, w, rt).world, rt)
    ensures Files(o) ==> Discovering(o, w, rt).world.store == w.store[rt.key.Path() := rt]
  {
    hide Endpoints.Refresh, RecordFailed, Binding, Finish, ReportedFailed;
    var found := Endpoints.Refresh(o, w.cluster, rt, |rt.services|);
    var seen := w.(cluster := found.cluster);
    if found.value.None? {
      RecordReports(o, seen, rt);
    } else {
      var b := Binding(o, seen, rt, found.value.value);
      if b.ok {
        Serving.FinishTable(o, b.world.(table := StopPorts(b.world.table, b.stops)), rt, found.value.value);
      } else {
        BindingRoutes(o, seen, rt, found.value.value);
        RecordReports(o, b.world, rt);
      }
    }
  }

  lemma CarryReports(o: Oracle, cfg: Config, w: World, rt: Runtime, prior: Prior)
    requires Fails(Carry(o, cfg, w, rt, prior).ending)
    ensures ReportedFailed(Carry(o, cfg, w, rt, prior).world, rt)
    ensures Files(o) ==> Carry(o, cfg, w, rt, prior).world.store == w.store[rt.key.Path() := rt]
  {
    hide WritePhase, EnsureNetwork, Rollout.Reconcile, Discovering, RecordFailed, Rollback, ReportedFailed;
    var phase := if rt.key.Path() in w.cluster.specs then Updating else Pending;
    var network := EnsureNetwork(o, WritePhase(w.cluster, rt, phase));
    if !network.ok {
      RecordReports(o, w.(cluster := network.cluster), rt);
    } else {
      var out := Rollout.Reconcile(o, cfg.selfHeal, WritePhase(network.cluster, rt, Starting), rt);
      var rolled := w.(cluster := out.cluster);
      if out.ok {
        DiscoveringReports(o, rolled, rt);
      } else if prior.Prior? {
        RollbackShows(o, rolled, rt, prior, out.cluster.specs, out.cluster.specs[prior.rt.key.Path() := prior.rt]);
      } else {
        RecordReports(o, rolled, rt);
      }
    }
  }

  /** An Apply that fails without a rollback leaves what was applied in memory, and on file if
      files can be written, and every phase it reports is Failed. */
  lemma FailureIsReported(o: Oracle, cfg: Config, w: World, rt: Runtime, filed: Option<Status>)
    requires Fails(Apply(o, cfg, w, rt, filed).ending)
    ensures ReportedFailed(Apply(o, cfg, w, rt, filed).world, WithGeneration(w.cluster.specs, rt))
    ensures Files(o) ==>
              Apply(o, cfg, w, rt, filed).world.store == w.store[rt.key.Path() := WithGeneration(w.cluster.specs, rt)]
  {
    hide Accepted, Apply, WithGeneration, Carry, ReportedFailed, Previous;
    if Accepted(cfg, w, rt) {
      AcceptedCarries(o, cfg, w, rt, filed);
      var p := Previous(o, w, rt.key.Path(), filed);
      CarryReports(o, cfg, w.(cluster := p.cluster), WithGeneration(w.cluster.specs, rt), p.prior);
    } else {
      Runs.RejectedIsSilent(o, cfg, w, rt, filed);
    }
  }

  // --------------------------------------------- without failures, it succeeds

  lemma QuietFinish(o: Oracle, w: World, rt: Runtime, found: Discovered)
    requires Quiet(o)
    ensures Finish(o, w, rt, found).ending == Applied
  {
    hide NewStatus, FaultFree;
  }

  lemma QuietDiscovering(o: Oracle, w: World, rt: Runtime)
    requires Quiet(o) && Serving.Binds(o) && WellFormed(rt)
    ensures Discovering(o, w, rt).ending == Applied
    ensures Discovering(o, w, rt).world.cluster.containers == w.cluster.containers
  {
    Serving.TargetPortsFound(rt);
    Endpoints.RefreshSucceeds(o, w.cluster, rt, |rt.services|);
    var found := Endpoints.Refresh(o, w.cluster, rt, |rt.services|);
    var seen := w.(cluster := found.cluster);
    var rep := Replace(seen.table, rt, found.value.value, RouteMap(rt));
    Serving.StartsAll(rep.table, Ascending(rep.starts), o.bind, Rewrite(seen.cluster, rt).tick);
    var b := Binding(o, seen, rt, found.value.value);
    assert b.ok;
    hide Endpoints.Refresh, Binding, Finish, RecordFailed, Quiet, WellFormed;
    QuietFinish(o, b.world.(table := StopPorts(b.world.table, b.stops)), rt, found.value.value);
    Dating.DiscoveringContainers(o, w, rt);
  }

  lemma QuietRolling(o: Oracle, cfg: Config, w: World, rt: Runtime, prior: Prior)
    requires Quiet(o) && Serving.Binds(o) && WellFormed(rt) && Plain(rt) && Workable(w.cluster.containers, rt)
    ensures var r := Rolling(o, cfg, w, rt, prior);
            && r.ending == Applied && Exact(r.world.cluster.containers, rt, Misplaced(w.cluster.containers, rt))
            && (AtSpec(r.world.cluster.containers, rt) <==> Misplaced(w.cluster.containers, rt) == {})
  {
    ReconcileExactly(o, cfg.selfHeal, w.cluster, rt);
    hide Rollout.Reconcile, Discovering, Rollback, RecordFailed, UpToDate, Workable, Spared, Plain, WellFormed, Misplaced, NamesOf,
      OwnedAll;
    QuietDiscovering(o, w.(cluster := Rollout.Reconcile(o, cfg.selfHeal, w.cluster, rt).cluster), rt);
  }

  /** An accepted Apply, when nothing fails, succeeds on workable containers. The runtime then
      owns exactly the canonical containers of what was applied and what was misplaced before:
      the containers of a deployment that the update drops stay. So it ends with exactly its
      canonical containers if and only if nothing was misplaced. */
  lemma QuietApplySucceeds(o: Oracle, cfg: Config, w: World, rt: Runtime, filed: Option<Status>)
    requires Inv(w) && Accepted(cfg, w, rt) && Quiet(o) && Serving.Binds(o)
    requires var given := WithGeneration(w.cluster.specs, rt); Plain(given) && Workable(w.cluster.containers, given)
    ensures var r, given := Apply(o, cfg, w, rt, filed), WithGeneration(w.cluster.specs, rt);
            && r.ending == Applied && Established(r.world, given)
            && Exact(r.world.cluster.containers, given, Misplaced(w.cluster.containers, given))
            && (AtSpec(r.world.cluster.containers, given) <==> Misplaced(w.cluster.containers, given) == {})
  {
    var v, given, prior := ApplyIsCarry(o, cfg, w, rt, filed);
    assert WellFormed(given) by { hide Inv, Admitted, WellFormed, Plain, Workable; }
    var begun := Begun(o, v, given);
    BegunEffect(o, v, given);
    NetworkWorks(o, v, given);
    hide Inv, Accepted, Apply, Plain, Workable, WellFormed, Quiet, AtSpec, Exact, Misplaced, WithGeneration, WritePhase, EnsureNetwork, Established,
      RecordFailed, Rolling;
    QuietRolling(o, cfg, v.(cluster := begun), given, prior);
    AppliedIsEstablished(o, cfg, w, rt, filed);
  }

  /** The network is there if it is found or can be made; nothing but time is spent on it. */
  lemma NetworkExactly(o: Oracle, c: Cluster)
    ensures var out := EnsureNetwork(o, c);
            && (out.ok <==> o.fault(Network, c.tick) == Works || o.fault(Network, c.tick + 1) == Works)
            && out.cluster == c.(tick := out.cluster.tick, now := out.cluster.now)
  {
  }

  lemma NetworkWorks(o: Oracle, w: World, rt: Runtime)
    requires FaultFree(o)
    ensures EnsureNetwork(o, WritePhase(w.cluster, rt, if rt.key.Path() in w.cluster.specs then Updating else Pending)).ok
  {
    hide WritePhase;
  }

  // ---------------------------------------------------------------- removed

  /** Nothing of the key is in memory, on disk, in the table or in the cache. */
  ghost predicate Erased(v: World, key: Key) {
    var path := key.Path();
    && path !in v.cluster.specs && path !in v.cluster.statuses && path !in v.store && path !in v.routed
    && (forall p :: p in v.table.routes ==> forall r :: r in v.table.routes[p] ==> r.key != key)
    && (forall service :: EndpointKey(key, service) !in v.table.endpoints)
  }

  lemma DroppedRoutes(t: Table, key: Key)
    ensures forall p, r :: p in Drop(t, key).routes && r in Drop(t, key).routes[p] ==> r.key != key
    ensures forall service :: EndpointKey(key, service) !in Drop(t, key).endpoints
  {
    forall p, r | p in Drop(t, key).routes && r in Drop(t, key).routes[p]
      ensures r.key != key
    {
      Sorting.FilterMembers(t.routes[p], NotOf(key), r);
    }
    forall service
      ensures EndpointKey(key, service) !in Drop(t, key).endpoints
    {
      OwnKeyHasPrefix(key, service);
    }
  }

  lemma ClearingErases(o: Oracle, w: World, key: Key, rt: Option<Runtime>)
    requires Clearing(o, w, key, rt).ok
    ensures var v := Clearing(o, w, key, rt).world;
            && v.table == w.table && v.routed == w.routed
            && v.cluster.specs == w.cluster.specs && v.cluster.statuses == w.cluster.statuses && key.Path() !in v.store
            && SubMap(v.cluster.containers, w.cluster.containers)
            && (rt.Some? ==> OwnedAll(v.cluster.containers, rt.value.key) == {}
                             && forall n :: n in w.cluster.containers && !Owned(w.cluster.containers[n], rt.value.key) ==>
                                  n in v.cluster.containers)
  {
    SubMapItself(w.cluster.containers);
    if rt.Some? {
      var names := OwnedAll(w.cluster.containers, rt.value.key);
      PurgeExact(o, w.cluster, names);
      PurgeSame(o, w.cluster, names);
      var m := Purge(o, w.cluster, names).cluster.containers;
      forall n | n in m
        ensures !Owned(m[n], rt.value.key)
      {
        assert n !in names;
      }
    }
    hide Purge, OwnedAll, SubMap, Owned;
  }

  /** A Remove that reports success leaves nothing of the runtime: no entry, no file, no route,
      no cached endpoint and, if its spec was found, no container; and it has removed no
      other container. */
  lemma RemovedIsErased(o: Oracle, w: World, key: Key)
    requires Inv(w) && Remove(o, w, key).ok
    ensures var v := Remove(o, w, key).world;
            && Erased(v, key)
            && SubMap(v.cluster.containers, w.cluster.containers)
            && (Lookup(o, w, key.Path()).value.Some? ==>
                  OwnedAll(v.cluster.containers, Lookup(o, w, key.Path()).value.value.key) == {}
                  && forall n :: n in w.cluster.containers
                                 && !Owned(w.cluster.containers[n], Lookup(o, w, key.Path()).value.value.key) ==>
                       n in v.cluster.containers)
  {
    var gone := Vanishing(o, w, key);
    Dating.VanishingContainers(o, w, key);
    DroppedRoutes(w.table, key);
    hide Inv, Clearing, Drop, SubMap, EndpointKey, OwnedAll, Owned, Lookup, WritePhase;
    ClearingErases(o, gone.world, key, gone.rt);
  }
}
