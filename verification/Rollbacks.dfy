/** A failed update and the way back: what a completed rollback restores, what it removes, and
    the one start-up situation in which it removes the wrong containers. */
module Rollbacks {
  import opened Runtimes
  import opened Naming
  import opened RouteTable
  import opened Statuses
  import opened Docker
  import opened Controller
  import opened Effects
  import opened Invariants
  import opened Safety
  import opened Convergence
  import opened Reconciliation
  import Availability
  import Rollout
  import Endpoints
  import Quantities
  import Runs

  // --------------------------------------------------------------- cleanups

  lemma {:induction false} RemovalExact(o: Oracle, c: Cluster, names: seq<string>)
    ensures var out := Rollout.RemoveEach(o, c, names);
            && SubMap(out.cluster.containers, c.containers)
            && (forall n :: n in c.containers && n !in names ==> n in out.cluster.containers)
            && (out.ok ==> forall n :: n in names ==> n !in out.cluster.containers)
  {
    if names != [] {
      var u, x := names[..|names| - 1], names[|names| - 1];
      RemovalExact(o, c, u);
      assert names == u + [x];
      hide Rollout.RemoveEach;
      assert Rollout.RemoveEach(o, c, names)
          == (var before := Rollout.RemoveEach(o, c, u); if !before.ok then before else RemoveContainer(o, before.cluster, x)) by {
        RemoveEachStep(o, c, u, x);
      }
    }
  }

  lemma RemoveEachStep(o: Oracle, c: Cluster, u: seq<string>, x: string)
    ensures Rollout.RemoveEach(o, c, u + [x])
            == (var before := Rollout.RemoveEach(o, c, u); if !before.ok then before else RemoveContainer(o, before.cluster, x))
  {
    assert (u + [x])[..|u|] == u;
  }

  /** A purge removes no other container, and when it completes all it was asked to. */
  lemma PurgeExact(o: Oracle, c: Cluster, names: set<string>)
    ensures var out := Purge(o, c, names);
            && SubMap(out.cluster.containers, c.containers)
            && (forall n :: n in c.containers && n !in names ==> n in out.cluster.containers)
            && (out.ok ==> forall n :: n in names ==> n !in out.cluster.containers)
  {
    var listed := ListNames(o, c, names);
    if listed.value.Some? {
      RemovalExact(o, listed.cluster, listed.value.value);
      assert forall n :: n in listed.value.value <==> n in names;
      hide Rollout.RemoveEach, SubMap;
    }
  }

  ghost predicate OnFile(w: World, rt: Runtime) {
    rt.key.Path() in w.store && w.store[rt.key.Path()] == rt
  }

  /** What a rollback changes: the spec and status of the runtime, and containers of the failed
      generation, of which none is left when it completes. */
  lemma RollbackEffect(o: Oracle, w: World, failed: Runtime, prior: Prior)
    requires prior.Prior?
    ensures var r := Rollback(o, w, failed, prior);
            var gone := OfGeneration(w.cluster.containers, failed.key, failed.generation);
            var m := r.world.cluster.containers;
            && r.world.table == w.table && r.world.routed == w.routed
            && (prior.status.Some? ==>
                  r.world.cluster.statuses == w.cluster.statuses[prior.rt.key.Path() := prior.status.value])
            && SubMap(m, w.cluster.containers)
            && (forall n :: n in w.cluster.containers && n !in gone ==> n in m)
            && (r.ending == RolledBack && failed.generation > 0 ==> forall n :: n in gone ==> n !in m)
            && (r.ending == RolledBack ==> OnFile(r.world, prior.rt))
  {
    hide Cleanup, Restore, NewStatus, CachedEndpoints, SubMap, OfGeneration;
    CleanupEffect(o, w.cluster, failed);
    var status := if prior.status.Some? then prior.status.value
                  else NewStatus(prior.rt, Running, CachedEndpoints(w.table, prior.rt), false);
    RestoreEffect(o, w.(cluster := Cleanup(o, w.cluster, failed).cluster), prior.rt, status);
  }

  lemma RestoreEffect(o: Oracle, w: World, rt: Runtime, status: Status)
    ensures var v := Restore(o, w, rt, status);
            && v.world.table == w.table && v.world.routed == w.routed
            && v.world.cluster.statuses == w.cluster.statuses[rt.key.Path() := status]
            && v.world.cluster.containers == w.cluster.containers
            && (v.ok ==> OnFile(v.world, rt))
  {
  }

  /** The status a rollback puts back: the one that was recorded; or, if none was, a report of the
      previous spec as running, with the endpoints that are cached for it. */
  lemma RollbackStatus(o: Oracle, w: World, failed: Runtime, prior: Prior)
    requires prior.Prior?
    ensures var v := Rollback(o, w, failed, prior).world;
            && prior.rt.key.Path() in v.cluster.statuses
            && v.cluster.statuses[prior.rt.key.Path()]
               == if prior.status.Some? then prior.status.value
                  else NewStatus(prior.rt, Running, CachedEndpoints(w.table, prior.rt), false)
    ensures forall s :: s in prior.rt.services ==>
              var name := EndpointKey(prior.rt.key, s.name);
              s.name in CachedEndpoints(w.table, prior.rt)
              && CachedEndpoints(w.table, prior.rt)[s.name] == if name in w.table.endpoints then w.table.endpoints[name] else []
  {
    hide Cleanup, Restore, NewStatus, CachedEndpoints, EndpointKey;
    var status := if prior.status.Some? then prior.status.value
                  else NewStatus(prior.rt, Running, CachedEndpoints(w.table, prior.rt), false);
    RestoreEffect(o, w.(cluster := Cleanup(o, w.cluster, failed).cluster), prior.rt, status);
    CachedExactly(w.table, prior.rt);
  }

  lemma CachedExactly(t: Table, rt: Runtime)
    ensures forall s :: s in rt.services ==>
              var name := EndpointKey(rt.key, s.name);
              s.name in CachedEndpoints(t, rt)
              && CachedEndpoints(t, rt)[s.name] == if name in t.endpoints then t.endpoints[name] else []
  {
    hide EndpointKey;
  }

  /** Container by container: a completed rollback removes exactly those labelled with the
      failed generation, whoever started them. */
  lemma RollbackRemovesExactly(o: Oracle, w: World, failed: Runtime, prior: Prior, n: string)
    requires prior.Prior? && failed.generation > 0 && Rollback(o, w, failed, prior).ending == RolledBack
    requires n in w.cluster.containers
    ensures var x := w.cluster.containers[n];
            n in Rollback(o, w, failed, prior).world.cluster.containers
            <==> !(Owned(x, failed.key) && x.generation == failed.generation)
  {
    RollbackEffect(o, w, failed, prior);
    hide Rollback, SubMap, Owned;
  }

  /** A generation of zero or less is none: its rollback removes no container. */
  lemma UnnumberedRollback(o: Oracle, w: World, failed: Runtime, prior: Prior)
    requires prior.Prior? && failed.generation <= 0
    ensures Rollback(o, w, failed, prior).world.cluster.containers == w.cluster.containers
  {
    hide Restore, NewStatus, CachedEndpoints;
    var status := if prior.status.Some? then prior.status.value
                  else NewStatus(prior.rt, Running, CachedEndpoints(w.table, prior.rt), false);
    RestoreEffect(o, w.(cluster := Cleanup(o, w.cluster, failed).cluster), prior.rt, status);
  }

  /** A replica after a completed rollback, exactly: it is up if and only if a container of it
      that was up is not of the failed generation. So a replica that the update had switched
      over already is down, until the next pass. */
  lemma RollbackUpExactly(o: Oracle, w: World, failed: Runtime, prior: Prior, d: Deployment, r: int)
    requires prior.Prior? && failed.generation > 0 && Rollback(o, w, failed, prior).ending == RolledBack
    ensures var up := Availability.Up(failed.key, d, r);
            Availability.Has(Rollback(o, w, failed, prior).world.cluster.containers, up)
            <==> exists n :: n in w.cluster.containers && up(w.cluster.containers[n])
                   && w.cluster.containers[n].generation != failed.generation
  {
    var up, m := Availability.Up(failed.key, d, r), Rollback(o, w, failed, prior).world.cluster.containers;
    RollbackEffect(o, w, failed, prior);
    hide Rollback, SubMap;
    forall n
      ensures n in m ==> n in w.cluster.containers && m[n] == w.cluster.containers[n]
    {
      SubMapAt(m, w.cluster.containers, n);
    }
    forall n | n in w.cluster.containers && up(w.cluster.containers[n])
      ensures n in m <==> w.cluster.containers[n].generation != failed.generation
    {
      RollbackRemovesExactly(o, w, failed, prior, n);
    }
  }

  lemma CleanupEffect(o: Oracle, c: Cluster, rt: Runtime)
    ensures var out := Cleanup(o, c, rt);
            var gone := OfGeneration(c.containers, rt.key, rt.generation);
            && out.cluster.statuses == c.statuses
            && SubMap(out.cluster.containers, c.containers)
            && (forall n :: n in c.containers && n !in gone ==> n in out.cluster.containers)
            && (out.ok && rt.generation > 0 ==> forall n :: n in gone ==> n !in out.cluster.containers)
  {
    var names := OfGeneration(c.containers, rt.key, rt.generation);
    PurgeExact(o, c, names);
    PurgeSame(o, c, names);
    SubMapItself(c.containers);
    hide Purge, SubMap, OfGeneration;
  }

  lemma SubMapItself(m: Containers)
    ensures SubMap(m, m)
  {
  }

  // ------------------------------------------------- how a rollback comes about

  /** The cluster when the rollout starts. */
  function Begun(o: Oracle, w: World, rt: Runtime): Cluster {
    var phase := if rt.key.Path() in w.cluster.specs then Updating else Pending;
    WritePhase(EnsureNetwork(o, WritePhase(w.cluster, rt, phase)).cluster, rt, Starting)
  }

  lemma BegunEffect(o: Oracle, w: World, rt: Runtime)
    ensures var c := Begun(o, w, rt);
            && c.containers == w.cluster.containers && c.specs == w.cluster.specs[rt.key.Path() := rt] && Current(c, rt)
            && forall k :: k != rt.key.Path() ==>
                 (k in c.statuses <==> k in w.cluster.statuses) && (k in c.statuses ==> c.statuses[k] == w.cluster.statuses[k])
  {
    hide NewStatus;
  }

  predicate GoesBack(e: Ending) {
    e == RolledBack || e == RollbackFailed
  }

  lemma RollsBack(o: Oracle, cfg: Config, w: World, rt: Runtime, prior: Prior)
    ensures var r := Carry(o, cfg, w, rt, prior);
            var out := Rollout.Reconcile(o, cfg.selfHeal, Begun(o, w, rt), rt);
            GoesBack(r.ending) ==> prior.Prior? && !out.ok && r == Rollback(o, w.(cluster := out.cluster), rt, prior)
  {
    hide WritePhase, EnsureNetwork, Rollout.Reconcile, Discovering, NewStatus, Rollback, RecordFailed;
    var out := Rollout.Reconcile(o, cfg.selfHeal, Begun(o, w, rt), rt);
    if out.ok {
      DiscoveringShowsEnding(o, w.(cluster := out.cluster), rt);
    }
  }

  lemma DiscoveringShowsEnding(o: Oracle, w: World, rt: Runtime)
    ensures !GoesBack(Discovering(o, w, rt).ending)
  {
    hide Endpoints.Refresh, Replace, StartPorts, Ascending, RouteMap, NewStatus, RecordFailed, SaveRuntime, SaveOther;
  }

  // ----------------------------------------------------------- the inverse

  /** Nothing is left of a failed update but what it took away. */
  ghost predicate Undone(w: World, v: World, rt: Runtime) {
    && v.cluster.specs == w.cluster.specs && v.cluster.statuses == w.cluster.statuses
    && v.table == w.table && v.routed == w.routed
    && SubMap(v.cluster.containers, w.cluster.containers)
    && (forall n :: n in v.cluster.containers ==> n !in OfGeneration(v.cluster.containers, rt.key, rt.generation))
    && (forall n :: n in w.cluster.containers && !Owned(w.cluster.containers[n], rt.key) && n !in NamesOfAll(rt) ==>
          n in v.cluster.containers)
  }

  lemma SameStatuses(a: map<string, Status>, b: map<string, Status>, c: map<string, Status>, path: string)
    requires path in a && (forall k :: k != path ==> (k in c <==> k in a) && (k in c ==> c[k] == a[k]))
    requires b == c[path := a[path]]
    ensures b == a
  {
  }

  lemma UndoneContainers(a: Containers, b: Containers, m: Containers, rt: Runtime)
    requires Within(a, b, rt, NamesOfAll(rt)) && SubMap(m, b)
    requires var gone := OfGeneration(b, rt.key, rt.generation);
             (forall n :: n in gone ==> n !in m) && (forall n :: n in b && n !in gone ==> n in m)
    ensures SubMap(m, a)
    ensures forall n :: n in m ==> n !in OfGeneration(m, rt.key, rt.generation)
    ensures forall n :: n in a && !Owned(a[n], rt.key) && n !in NamesOfAll(rt) ==> n in m
  {
    hide NamesOf, Owned;
    forall n | n in m
      ensures n in a && m[n] == a[n] && n !in OfGeneration(m, rt.key, rt.generation)
    {
      assert n in b && b[n] == m[n] && n !in OfGeneration(b, rt.key, rt.generation);
    }
  }

  /** A completed rollback of Carry, for any previous state it was given. */
  lemma CarryUndone(o: Oracle, cfg: Config, w: World, rt: Runtime, prior: Prior)
    requires rt.generation > 0 && Carry(o, cfg, w, rt, prior).ending == RolledBack
    ensures var v := Carry(o, cfg, w, rt, prior).world;
            && prior.Prior? && v.table == w.table && v.routed == w.routed && OnFile(v, prior.rt)
            && SubMap(v.cluster.containers, w.cluster.containers)
            && (forall n :: n in v.cluster.containers ==> n !in OfGeneration(v.cluster.containers, rt.key, rt.generation))
            && (forall n :: n in w.cluster.containers && !Owned(w.cluster.containers[n], rt.key) && n !in NamesOfAll(rt) ==>
                  n in v.cluster.containers)
  {
    RollsBack(o, cfg, w, rt, prior);
    BegunEffect(o, w, rt);
    var c := Begun(o, w, rt);
    ReconcileEffect(o, cfg.selfHeal, c, rt);
    var out := Rollout.Reconcile(o, cfg.selfHeal, c, rt);
    var rolled := w.(cluster := out.cluster);
    RollbackEffect(o, rolled, rt, prior);
    hide Carry, Rollback, Rollout.Reconcile, Begun, SubMap, OfGeneration, NamesOf, Owned, Within;
    UndoneContainers(w.cluster.containers, out.cluster.containers, Carry(o, cfg, w, rt, prior).world.cluster.containers, rt);
  }

  lemma CarryStatuses(o: Oracle, cfg: Config, w: World, rt: Runtime, prior: Prior)
    requires GoesBack(Carry(o, cfg, w, rt, prior).ending)
    requires rt.key.Path() in w.cluster.statuses && (prior.Prior? ==> prior.rt.key.Path() == rt.key.Path())
    requires prior.Prior? ==> prior.status == Quantities.Some(w.cluster.statuses[rt.key.Path()])
    ensures Carry(o, cfg, w, rt, prior).world.cluster.statuses == w.cluster.statuses
  {
    RollsBack(o, cfg, w, rt, prior);
    BegunEffect(o, w, rt);
    var c := Begun(o, w, rt);
    ReconcileEffect(o, cfg.selfHeal, c, rt);
    var out := Rollout.Reconcile(o, cfg.selfHeal, c, rt);
    RollbackEffect(o, w.(cluster := out.cluster), rt, prior);
    hide Carry, Rollback, Rollout.Reconcile, Begun, SubMap, OfGeneration, Within;
    SameStatuses(w.cluster.statuses, Carry(o, cfg, w, rt, prior).world.cluster.statuses, out.cluster.statuses, rt.key.Path());
  }

  /** Rollback is an inverse: after an update of a runtime in memory that was rolled back,
      whichever call failed, specs, statuses, routes, listeners, cached endpoints are what
      they were, and the previous spec is on file; no container is new or altered, none of the
      failed generation is left, and containers of other runtimes are there, except any under
      the runtime's own names. */
  lemma RollbackInverse(o: Oracle, cfg: Config, w: World, rt: Runtime, filed: Option<Status>)
    requires Inv(w) && rt.key.Path() in w.cluster.specs
    requires WithGeneration(w.cluster.specs, rt).generation > 0
    requires Apply(o, cfg, w, rt, filed).ending == RolledBack
    ensures Undone(w, Apply(o, cfg, w, rt, filed).world, WithGeneration(w.cluster.specs, rt))
    ensures OnFile(Apply(o, cfg, w, rt, filed).world, w.cluster.specs[rt.key.Path()])
  {
    hide Inv, Accepted, Apply, Carry, WithGeneration, OfGeneration, SubMap, NamesOf, Shows, Owned;
    if Accepted(cfg, w, rt) {
      var v, given, prior := ApplyIsCarry(o, cfg, w, rt, filed);
      CarryUndone(o, cfg, w, given, prior);
      CarryStatuses(o, cfg, w, given, prior);
      var path := rt.key.Path();
      Rewritten(w.cluster.specs, path);
      CarryShows(o, cfg, w, given, prior, w.cluster.specs[path := given], w.cluster.specs);
    } else {
      Runs.RejectedIsSilent(o, cfg, w, rt, filed);
    }
  }

  // ------------------------------------------------------ fresh generations

  /** No container of the runtime is of a later generation than g. */
  ghost predicate UpTo(m: Containers, key: Key, g: int) {
    forall n :: n in m && Owned(m[n], key) ==> m[n].generation <= g
  }

  /** Every container is of its spec's generation at the latest. */
  ghost predicate Dated(w: World) {
    forall k :: k in w.cluster.specs ==> UpTo(w.cluster.containers, w.cluster.specs[k].key, w.cluster.specs[k].generation)
  }

  /** An update that is given its generation by the controller has one that none of its
      containers carries, short of the end of int64. So its rollback removes only what the
      update itself has started. */
  lemma GenerationIsFresh(w: World, rt: Runtime)
    requires Inv(w) && Dated(w) && rt.generation == 0 && rt.key.Path() in w.cluster.specs
    requires 0 < w.cluster.specs[rt.key.Path()].generation < Quantities.MAX_INT64
    ensures var given := WithGeneration(w.cluster.specs, rt);
            given.generation > 0 && OfGeneration(w.cluster.containers, rt.key, given.generation) == {}
  {
    var before := w.cluster.specs[rt.key.Path()];
    KeyPathInjective(before.key, rt.key) by { hide Rebuilt, WellFormed; }
    assert UpTo(w.cluster.containers, before.key, before.generation);
    hide Inv;
  }

  lemma UpToLess(a: Containers, b: Containers, key: Key, g: int)
    requires UpTo(b, key, g) && SubMap(a, b)
    ensures UpTo(a, key, g)
  {
    hide Owned;
  }

  // --------------------------------------------------------- the wrong removal

  /** An engine that starts, removes and lists, but does not tell a container's state. */
  ghost function StateBlind(): Oracle {
    Oracle((op, t) => if op == InspectState then Refused else Works, (t, s) => SomeOrder(s), t => 0, t => true, t => Done)
  }

  lemma BlindReplicaFails(cfg: Config, c: Cluster, rt: Runtime, d: Deployment)
    requires Canonical(rt.key, d, 1) in c.containers && !Stale(c.containers[Canonical(rt.key, d, 1)], d.specHash)
    ensures !Rollout.EnsureReplica(StateBlind(), cfg.selfHeal, c, rt, d, 1).ok
  {
    var o, name := StateBlind(), Canonical(rt.key, d, 1);
    hide Canonical, Rollout.Replace;
    var drifted := Drifted(o, Tick(o, c), name, d.specHash);
    assert !drifted.yes;
    assert Read(o, drifted.cluster, InspectState, name).value.None?;
  }

  lemma {:induction false} FailureStops(o: Oracle, cfg: Config, c: Cluster, rt: Runtime, d: Deployment, k: nat)
    requires k >= 1 && !Rollout.EnsureReplica(o, cfg.selfHeal, c, rt, d, 1).ok
    ensures !Rollout.EnsureReplicas(o, cfg.selfHeal, c, rt, d, k).ok
  {
    hide Rollout.EnsureReplica;
    if k > 1 {
      FailureStops(o, cfg, c, rt, d, k - 1);
    } else {
      assert Rollout.EnsureReplicas(o, cfg.selfHeal, c, rt, d, 0) == Outcome(c, true);
    }
  }

  lemma {:induction false} FirstDeploymentFails(o: Oracle, cfg: Config, c: Cluster, rt: Runtime, ds: seq<Deployment>)
    requires ds != [] && !Rollout.Ensure(o, cfg.selfHeal, c, rt, ds[0]).ok
    ensures !Rollout.EnsureAll(o, cfg.selfHeal, c, rt, ds).ok
  {
    hide Rollout.Ensure;
    var u := ds[..|ds| - 1];
    if u != [] {
      FirstDeploymentFails(o, cfg, c, rt, u);
    } else {
      assert Rollout.EnsureAll(o, cfg.selfHeal, c, rt, u) == Outcome(c, true);
    }
  }

  lemma {:induction false} BlindPurges(c: Cluster, names: seq<string>)
    ensures Rollout.RemoveEach(StateBlind(), c, names).ok
  {
    if names != [] {
      BlindPurges(c, names[..|names| - 1]);
    }
  }

  lemma BlindRollsBack(cfg: Config, w: World, rt: Runtime, prior: Prior)
    requires prior.Prior? && !Rollout.Reconcile(StateBlind(), cfg.selfHeal, Begun(StateBlind(), w, rt), rt).ok
    ensures Carry(StateBlind(), cfg, w, rt, prior).ending == RolledBack
  {
    var o := StateBlind();
    var phase := if rt.key.Path() in w.cluster.specs then Updating else Pending;
    assert EnsureNetwork(o, WritePhase(w.cluster, rt, phase)).ok;
    var out := Rollout.Reconcile(o, cfg.selfHeal, Begun(o, w, rt), rt);
    hide WritePhase, EnsureNetwork, Rollout.Reconcile, NewStatus, CachedEndpoints, Discovering, RecordFailed;
    var c := out.cluster;
    BlindPurges(Tick(o, c), o.listing(c.tick, OfGeneration(c.containers, rt.key, rt.generation)));
    assert Cleanup(o, c, rt).ok;
    hide Cleanup;
    assert Rollback(o, w.(cluster := c), rt, prior).ending == RolledBack;
  }

  /** After a restart the controller applies each spec on disk again, with the generation it
      is filed under, and memory is still empty: the previous spec is then the same spec, and
      the failed generation is that of the running containers. One failing call is enough for
      the rollback to remove them all, although they were up to date. */
  lemma ReloadRollbackWipes(cfg: Config, w: World, rt: Runtime, filed: Option<Status>)
    requires Inv(w) && rt.key.Path() !in w.cluster.specs && rt.key.Path() in w.store
    requires Accepted(cfg, w, rt) && rt.generation > 0 && rt.deployments != []
    requires var d := rt.deployments[0];
             && d.replicas >= 1 && Canonical(rt.key, d, 1) in w.cluster.containers
             && !Stale(w.cluster.containers[Canonical(rt.key, d, 1)], d.specHash)
    requires forall n :: n in OwnedAll(w.cluster.containers, rt.key) ==> w.cluster.containers[n].generation == rt.generation
    ensures var r := Apply(StateBlind(), cfg, w, rt, filed);
            r.ending == RolledBack && OwnedAll(r.world.cluster.containers, rt.key) == {}
  {
    var o, d := StateBlind(), rt.deployments[0];
    var v, given, prior := ApplyIsCarry(o, cfg, w, rt, filed);
    assert given == rt && prior.Prior? && v.cluster.containers == w.cluster.containers;
    hide Inv, Accepted, Apply, Carry, StateBlind, Canonical, Begun, SubMap, NamesOf, Owned, OfGeneration, WithGeneration;
    BlindReconcileFails(cfg, v, rt);
    BlindRollsBack(cfg, v, rt, prior);
    CarryUndone(o, cfg, v, rt, prior);
    WipedAll(w.cluster.containers, Apply(o, cfg, w, rt, filed).world.cluster.containers, rt);
  }

  lemma BlindReconcileFails(cfg: Config, w: World, rt: Runtime)
    requires rt.deployments != []
    requires var d := rt.deployments[0];
             && d.replicas >= 1 && Canonical(rt.key, d, 1) in w.cluster.containers
             && !Stale(w.cluster.containers[Canonical(rt.key, d, 1)], d.specHash)
    ensures !Rollout.Reconcile(StateBlind(), cfg.selfHeal, Begun(StateBlind(), w, rt), rt).ok
  {
    var o, d := StateBlind(), rt.deployments[0];
    BegunEffect(o, w, rt);
    var c := Begun(o, w, rt);
    hide Begun, StateBlind, Canonical, Stale;
    BlindReplicaFails(cfg, c, rt, d);
    FailureStops(o, cfg, c, rt, d, d.replicas);
    assert !Rollout.Ensure(o, cfg.selfHeal, c, rt, d).ok by { hide Rollout.EnsureReplicas; }
    hide Rollout.Ensure;
    FirstDeploymentFails(o, cfg, c, rt, rt.deployments);
  }

  lemma WipedAll(a: Containers, m: Containers, rt: Runtime)
    requires forall n :: n in OwnedAll(a, rt.key) ==> a[n].generation == rt.generation
    requires SubMap(m, a) && forall n :: n in m ==> n !in OfGeneration(m, rt.key, rt.generation)
    ensures OwnedAll(m, rt.key) == {}
  {
    hide Owned;
    forall n | n in m
      ensures n !in OwnedAll(m, rt.key)
    {
      if Owned(m[n], rt.key) {
        assert n in OwnedAll(a, rt.key);
      }
    }
  }

  // ------------------------------------------------- when it can be the wrong one

  /** No container starts and no state is told, and one call finds the list refused. */
  ghost predicate Halting(o: Oracle, t: nat) {
    && (forall op, u :: o.fault(op, u) == if op == InspectState || op == CallRun || (op == List && u == t) then Refused else Works)
    && forall u :: o.disk(u) == Done
  }

  ghost function Halted(t: nat): (o: Oracle)
    ensures Halting(o, t)
  {
    Oracle((op, u) => if op == InspectState || op == CallRun || (op == List && u == t) then Refused else Works,
           (u, s) => SomeOrder(s), u => 0, u => true, u => Done)
  }

  lemma HaltedRun(o: Oracle, t: nat, c: Cluster, rt: Runtime, d: Deployment, replica: int, name: string)
    requires Halting(o, t)
    ensures var out := RunContainer(o, c, rt, d, replica, name); !out.ok && out.cluster.tick > c.tick
  {
    hide NewStatus;
  }

  lemma HaltedReplace(o: Oracle, t: nat, c: Cluster, rt: Runtime, d: Deployment, replica: nat, name: string)
    requires Halting(o, t)
    ensures var out := Rollout.Replace(o, c, rt, d, replica, name); !out.ok && out.cluster.tick > c.tick
  {
    hide RunContainer, SurgeName;
    HaltedRun(o, t, c, rt, d, replica, SurgeName(rt.key, d, replica, rt.generation));
    HaltedRun(o, t, RemoveContainer(o, c, name).cluster, rt, d, replica, name);
  }

  lemma HaltedReplica(o: Oracle, t: nat, cfg: Config, c: Cluster, rt: Runtime, d: Deployment)
    requires Halting(o, t)
    ensures var out := Rollout.EnsureReplica(o, cfg.selfHeal, c, rt, d, 1); !out.ok && out.cluster.tick > c.tick
  {
    hide Canonical, RunContainer, Rollout.Replace, Rollout.HealContainer, Rollout.MarkHealthy;
    var name := Canonical(rt.key, d, 1);
    var there := Exists(o, c, name).cluster;
    var drifted := Drifted(o, there, name, d.specHash).cluster;
    assert drifted.tick > c.tick && there.tick > c.tick;
    HaltedRun(o, t, there, rt, d, 1, name);
    HaltedReplace(o, t, drifted, rt, d, 1, name);
    assert Read(o, drifted, InspectState, name).value.None?;
  }

  lemma {:induction false} HaltedReplicas(o: Oracle, t: nat, cfg: Config, c: Cluster, rt: Runtime, d: Deployment, k: nat)
    requires Halting(o, t) && k >= 1
    ensures Rollout.EnsureReplicas(o, cfg.selfHeal, c, rt, d, k) == Rollout.EnsureReplica(o, cfg.selfHeal, c, rt, d, 1)
  {
    HaltedReplica(o, t, cfg, c, rt, d);
    hide Rollout.EnsureReplica;
    if k > 1 {
      HaltedReplicas(o, t, cfg, c, rt, d, k - 1);
    } else {
      assert Rollout.EnsureReplicas(o, cfg.selfHeal, c, rt, d, 0) == Outcome(c, true);
    }
  }

  lemma HaltedDeployment(o: Oracle, cfg: Config, c: Cluster, rt: Runtime, d: Deployment)
    requires Halting(o, c.tick)
    ensures var out := Rollout.Ensure(o, cfg.selfHeal, c, rt, d); !out.ok && out.cluster.tick > c.tick
  {
    var k := Rollout.Replicas(d);
    hide Rollout.EnsureReplica;
    if k >= 1 {
      HaltedReplica(o, c.tick, cfg, c, rt, d);
      HaltedReplicas(o, c.tick, cfg, c, rt, d, k);
    } else {
      assert Rollout.EnsureReplicas(o, cfg.selfHeal, c, rt, d, 0) == Outcome(c, true);
      assert ListNames(o, c, Rollout.OwnedNames(c.containers, rt.key, d.name)).value.None?;
    }
  }

  lemma {:induction false} HaltedRollout(o: Oracle, cfg: Config, c: Cluster, rt: Runtime, ds: seq<Deployment>)
    requires Halting(o, c.tick) && ds != []
    ensures var out := Rollout.EnsureAll(o, cfg.selfHeal, c, rt, ds); !out.ok && out.cluster.tick > c.tick
  {
    hide Rollout.Ensure, Halting;
    var u := ds[..|ds| - 1];
    if u != [] {
      HaltedRollout(o, cfg, c, rt, u);
    } else {
      assert Rollout.EnsureAll(o, cfg.selfHeal, c, rt, u) == Outcome(c, true);
      HaltedDeployment(o, cfg, c, rt, ds[0]);
    }
  }

  /** Containers are removed, and only the call at t finds the list refused. */
  ghost predicate Purging(o: Oracle, t: nat) {
    forall u :: o.fault(CallRm, u) == Works && (u != t ==> o.fault(List, u) == Works) && o.disk(u) == Done
  }

  lemma HaltingPurges(o: Oracle, t: nat)
    requires Halting(o, t)
    ensures Purging(o, t)
  {
  }

  lemma {:induction false} PurgingRemoval(o: Oracle, t: nat, c: Cluster, names: seq<string>)
    requires Purging(o, t)
    ensures Rollout.RemoveEach(o, c, names).ok
  {
    if names != [] {
      PurgingRemoval(o, t, c, names[..|names| - 1]);
    }
  }

  lemma PurgingRollback(o: Oracle, t: nat, w: World, rt: Runtime, prior: Prior)
    requires Purging(o, t) && prior.Prior? && w.cluster.tick > t
    ensures Rollback(o, w, rt, prior).ending == RolledBack
  {
    hide NewStatus, CachedEndpoints;
    var c := w.cluster;
    PurgingRemoval(o, t, Tick(o, c), o.listing(c.tick, OfGeneration(c.containers, rt.key, rt.generation)));
    assert Cleanup(o, c, rt).ok;
    hide Cleanup;
  }

  lemma HaltedNetwork(o: Oracle, t: nat, w: World, rt: Runtime)
    requires Halting(o, t)
    ensures var phase := if rt.key.Path() in w.cluster.specs then Updating else Pending;
            EnsureNetwork(o, WritePhase(w.cluster, rt, phase)).ok && Begun(o, w, rt).tick == w.cluster.tick + 1
  {
    hide NewStatus;
  }

  lemma HaltedCarry(o: Oracle, cfg: Config, w: World, rt: Runtime, prior: Prior)
    requires Halting(o, w.cluster.tick + 1) && prior.Prior? && rt.deployments != []
    ensures Carry(o, cfg, w, rt, prior).ending == RolledBack
  {
    HaltedNetwork(o, w.cluster.tick + 1, w, rt);
    hide WritePhase, EnsureNetwork, Rollout.EnsureAll, Discovering, RecordFailed, Rollback, Halting, Purging;
    var c := Begun(o, w, rt);
    HaltedRollout(o, cfg, c, rt, rt.deployments);
    HaltingPurges(o, w.cluster.tick + 1);
    PurgingRollback(o, w.cluster.tick + 1, w.(cluster := Rollout.Reconcile(o, cfg.selfHeal, c, rt).cluster), rt, prior);
  }

  /** Some rollback of this update can take away a container that was there before it. */
  ghost predicate TakesAway(cfg: Config, w: World, rt: Runtime, filed: Option<Status>, n: string) {
    exists o: Oracle ::
      Apply(o, cfg, w, rt, filed).ending == RolledBack && n !in Apply(o, cfg, w, rt, filed).world.cluster.containers
  }

  ghost predicate Known(w: World, path: string) {
    path in w.cluster.specs || path in w.store
  }

  lemma HaltedApply(cfg: Config, w: World, rt: Runtime, filed: Option<Status>) returns (o: Oracle)
    requires Inv(w) && Accepted(cfg, w, rt) && Known(w, rt.key.Path())
    ensures Apply(o, cfg, w, rt, filed).ending == RolledBack
  {
    hide Inv, Accepted, Apply, Carry, WithGeneration, Halting;
    var path := rt.key.Path();
    var t := if path in w.cluster.specs then w.cluster.tick + 1 else w.cluster.tick + 2;
    o := Halted(t);
    HaltedDisk(o, t, w.cluster.tick);
    GivenDeploys(cfg, w, rt);
    var v, given, prior := ApplyIsCarry(o, cfg, w, rt, filed);
    HaltedCarry(o, cfg, v, given, prior);
  }

  lemma HaltedDisk(o: Oracle, t: nat, u: nat)
    requires Halting(o, t)
    ensures o.disk(u) == Done
  {
  }

  /** A rollback and the containers of the failed generation, exactly and before the call: of
      those the runtime has already, each can be taken away by a rollback, and by every one that
      completes; so an update endangers none of its own generation if and only if there is none. */
  lemma RollbackTakesExactly(cfg: Config, w: World, rt: Runtime, filed: Option<Status>)
    requires Inv(w) && Accepted(cfg, w, rt) && Known(w, rt.key.Path())
    requires WithGeneration(w.cluster.specs, rt).generation > 0
    ensures var own := OfGeneration(w.cluster.containers, rt.key, WithGeneration(w.cluster.specs, rt).generation);
            && (forall o: Oracle, n | Apply(o, cfg, w, rt, filed).ending == RolledBack && n in own ::
                  n !in Apply(o, cfg, w, rt, filed).world.cluster.containers)
            && ((forall n :: n in own ==> !TakesAway(cfg, w, rt, filed, n)) <==> own == {})
  {
    var given := WithGeneration(w.cluster.specs, rt);
    var own := OfGeneration(w.cluster.containers, rt.key, given.generation);
    var halted := HaltedApply(cfg, w, rt, filed);
    forall o: Oracle, n | Apply(o, cfg, w, rt, filed).ending == RolledBack && n in own
      ensures n !in Apply(o, cfg, w, rt, filed).world.cluster.containers
    {
      OwnTaken(o, cfg, w, rt, filed, n);
    }
    hide Inv, Accepted, Apply, WithGeneration, OfGeneration;
    if own != {} {
      var n :| n in own;
      assert TakesAway(cfg, w, rt, filed, n);
    }
  }

  lemma OwnTaken(o: Oracle, cfg: Config, w: World, rt: Runtime, filed: Option<Status>, n: string)
    requires Inv(w) && Accepted(cfg, w, rt) && Apply(o, cfg, w, rt, filed).ending == RolledBack
    requires WithGeneration(w.cluster.specs, rt).generation > 0
    requires n in OfGeneration(w.cluster.containers, rt.key, WithGeneration(w.cluster.specs, rt).generation)
    ensures n !in Apply(o, cfg, w, rt, filed).world.cluster.containers
  {
    hide Inv, Accepted, Apply, Carry, WithGeneration, SubMap, NamesOf, Owned;
    var v, given, prior := ApplyIsCarry(o, cfg, w, rt, filed);
    CarryUndone(o, cfg, v, given, prior);
    SubMapAt(Apply(o, cfg, w, rt, filed).world.cluster.containers, w.cluster.containers, n);
  }

  lemma SubMapAt(a: Containers, b: Containers, n: string)
    requires SubMap(a, b)
    ensures n in a ==> n in b && a[n] == b[n]
  {
  }
}
