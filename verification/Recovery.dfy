/** Recovery: what one Resync without failures makes of every runtime's containers, exactly,
    and that after a rolled-back update it puts them back to those of the previous spec. */
module Recovery {
  import opened Runtimes
  import opened Naming
  import opened RouteTable
  import opened Statuses
  import opened Docker
  import opened Controller
  import opened Effects
  import opened Invariants
  import opened Locality
  import opened Convergence
  import opened Reconciliation
  import opened Rollbacks
  import Rollout
  import Endpoints
  import Runs
  import Serving

  /** No engine call and no file operation fails. */
  ghost predicate Quiet(o: Oracle) {
    FaultFree(o) && forall t :: o.disk(t) == Done
  }

  /** The container names of two runtimes do not clash. */
  ghost predicate Foreign(a: Runtime, b: Runtime) {
    NamesOfAll(a) !! NamesOfAll(b)
  }

  /** The names of two runtimes are apart exactly if no deployment of one clashes with one of
      the other, which can be read off the documents. */
  lemma ForeignExactly(a: Runtime, b: Runtime)
    ensures Foreign(a, b) <==>
              forall d, e :: d in a.deployments && e in b.deployments ==> !Clash(a.key, d, b.key, e)
  {
    hide CanonicalNames, Clash, NamesOf;
    if Foreign(a, b) {
      forall d, e | d in a.deployments && e in b.deployments
        ensures !Clash(a.key, d, b.key, e)
      {
        DisjointExactly(a.key, d, b.key, e);
        forall n | n in CanonicalNames(a.key, d)
          ensures n !in CanonicalNames(b.key, e)
        {
          NamesOfMembers(a.key, a.deployments, n);
          NamesOfMembers(b.key, b.deployments, n);
        }
      }
    } else {
      var n :| n in NamesOfAll(a) && n in NamesOfAll(b);
      NamesOfMembers(a.key, a.deployments, n);
      NamesOfMembers(b.key, b.deployments, n);
      var d :| d in a.deployments && n in CanonicalNames(a.key, d);
      var e :| e in b.deployments && n in CanonicalNames(b.key, e);
      DisjointExactly(a.key, d, b.key, e);
    }
  }

  ghost predicate WorldWorkable(specs: map<string, Runtime>, m: Containers) {
    && (forall k :: k in specs ==> Plain(specs[k]) && Workable(m, specs[k]))
    && forall k, l :: k in specs && l in specs && k != l ==> Foreign(specs[k], specs[l])
  }

  lemma WorldWorkableDownward(specs: map<string, Runtime>, a: Containers, b: Containers)
    requires WorldWorkable(specs, b) && SubMap(a, b)
    ensures WorldWorkable(specs, a)
  {
    hide Plain, Workable, Foreign, SubMap;
    forall k | k in specs
      ensures Workable(a, specs[k])
    {
      WorkableDownward(a, b, specs[k]);
    }
  }

  // ------------------------------------- one runtime leaves the others alone

  /** The containers of another runtime, and those under its names, are as before. */
  ghost predicate Untouched(a: Containers, b: Containers, other: Runtime) {
    && (forall n :: n in b && (Owned(b[n], other.key) || n in NamesOfAll(other)) ==> n in a && a[n] == b[n])
    && (forall n :: n in a && Owned(a[n], other.key) ==> n in b && b[n] == a[n])
  }

  /** A container under one of the runtime's canonical names is the runtime's own. */
  lemma NamesOwned(m: Containers, rt: Runtime)
    requires forall d :: d in rt.deployments ==> Labelled(m, rt.key, d)
    ensures forall n :: n in m && n in NamesOfAll(rt) ==> Owned(m[n], rt.key)
  {
    forall n | n in m && n in NamesOfAll(rt)
      ensures Owned(m[n], rt.key)
    {
      NamesOfMembers(rt.key, rt.deployments, n);
      hide NamesOf;
      var d :| d in rt.deployments && n in CanonicalNames(rt.key, d);
      var r := NameIn(rt.key, d, n);
      hide Canonical;
      assert Fitting(m[n], rt.key, d, r);
    }
  }

  lemma OthersUntouched(a: Containers, b: Containers, rt: Runtime, other: Runtime)
    requires Spared(a, b, rt.key, NamesOfAll(rt)) && UpToDate(b, rt) && Workable(a, rt)
    requires Foreign(other, rt) && rt.key != other.key
    ensures Untouched(a, b, other)
  {
    assert forall d :: d in rt.deployments ==> Labelled(a, rt.key, d) && Labelled(b, rt.key, d);
    hide Workable, UpToDate;
    NamesOwned(a, rt);
    NamesOwned(b, rt);
    hide NamesOf, Fresh, Labelled;
    assert forall x: Container :: Owned(x, rt.key) ==> !Owned(x, other.key);
    hide Owned;
  }

  lemma UntouchedLabels(a: Containers, b: Containers, other: Runtime, d: Deployment)
    requires Untouched(a, b, other) && d in other.deployments && Labelled(a, other.key, d)
    ensures Labelled(b, other.key, d)
  {
    forall r | 1 <= r <= d.replicas && Canonical(other.key, d, r) in b
      ensures Fitting(b[Canonical(other.key, d, r)], other.key, d, r)
    {
      NameAmongAll(other, d, r);
      hide NamesOf, Canonical;
    }
  }

  lemma NameAmongAll(rt: Runtime, d: Deployment, r: nat)
    requires d in rt.deployments && 1 <= r <= d.replicas
    ensures Canonical(rt.key, d, r) in NamesOfAll(rt)
  {
    NameOf(rt.key, d, r);
    NamesOfMembers(rt.key, rt.deployments, Canonical(rt.key, d, r));
    hide CanonicalNames, Canonical, NamesOf;
  }

  lemma UntouchedClear(a: Containers, b: Containers, rt: Runtime, other: Runtime, d: Deployment)
    requires Untouched(a, b, other) && d in other.deployments && Clear(a, other, d, d.replicas)
    requires Spared(a, b, rt.key, NamesOfAll(rt))
    ensures Clear(b, other, d, d.replicas)
  {
    hide NamesOf, Canonical, SurgeName, Stale;
    forall r: nat | 1 <= r <= d.replicas
      ensures !Blocked(b, other, d, r)
    {
      NameAmongAll(other, d, r);
      SurgeNotAmongAll(other.key, d, r, other.generation, rt.key, rt.deployments);
      assert !Blocked(a, other, d, r);
    }
  }

  lemma WorkableAside(a: Containers, b: Containers, rt: Runtime, other: Runtime)
    requires Spared(a, b, rt.key, NamesOfAll(rt)) && Untouched(a, b, other) && Workable(a, other)
    ensures Workable(b, other)
  {
    hide Spared, Untouched, Labelled, Clear, NamesOf;
    forall d | d in other.deployments
      ensures Labelled(b, other.key, d) && Clear(b, other, d, d.replicas)
    {
      UntouchedLabels(a, b, other, d);
      UntouchedClear(a, b, rt, other, d);
    }
  }

  lemma FreshAside(a: Containers, b: Containers, other: Runtime, d: Deployment)
    requires Untouched(a, b, other) && d in other.deployments
    requires Fresh(a, other, d, d.replicas) && Labelled(a, other.key, d)
    ensures Fresh(b, other, d, d.replicas)
  {
    forall r: nat | 1 <= r <= d.replicas
      ensures Canonical(other.key, d, r) in b && !Stale(b[Canonical(other.key, d, r)], d.specHash)
    {
      NameAmongAll(other, d, r);
      hide NamesOf, Canonical, Stale;
      assert Fitting(a[Canonical(other.key, d, r)], other.key, d, r);
    }
  }

  lemma UpToDateAside(a: Containers, b: Containers, other: Runtime)
    requires Untouched(a, b, other) && UpToDate(a, other)
    ensures UpToDate(b, other)
  {
    hide Untouched, Labelled, Fresh;
    forall d | d in other.deployments
      ensures Fresh(b, other, d, d.replicas) && Labelled(b, other.key, d)
    {
      FreshAside(a, b, other, d);
      UntouchedLabels(a, b, other, d);
    }
  }

  lemma OwnedAside(a: Containers, b: Containers, other: Runtime)
    requires Untouched(a, b, other)
    ensures OwnedAll(b, other.key) == OwnedAll(a, other.key) && Misplaced(b, other) == Misplaced(a, other)
  {
    hide NamesOf, Owned, Placed;
    forall n
      ensures n in OwnedAll(b, other.key) <==> n in OwnedAll(a, other.key)
      ensures n in Misplaced(b, other) <==> n in Misplaced(a, other)
    {
    }
  }

  // ----------------------------------------------------------------- resync

  /** The runtime owns exactly its canonical containers, up to date, and the extra ones. */
  ghost predicate Exact(m: Containers, rt: Runtime, extra: set<string>) {
    UpToDate(m, rt) && OwnedAll(m, rt.key) == NamesOfAll(rt) + extra
  }

  /** One turn for rt, from a to b, as ReconcileExactly states it. */
  ghost predicate Turned(a: Containers, b: Containers, rt: Runtime) {
    && Exact(b, rt, Misplaced(a, rt)) && Workable(b, rt) && Misplaced(b, rt) == Misplaced(a, rt)
    && Spared(a, b, rt.key, NamesOfAll(rt))
  }

  lemma QuietTurn(o: Oracle, cfg: Config, w: World, rt: Runtime)
    requires Quiet(o) && WellFormed(rt) && Plain(rt) && Workable(w.cluster.containers, rt)
    ensures var r := ResyncOne(o, cfg, w, rt);
            r.ok && Turned(w.cluster.containers, r.world.cluster.containers, rt)
  {
    ReconcileExactly(o, cfg.selfHeal, w.cluster, rt);
    var out := Rollout.Reconcile(o, cfg.selfHeal, w.cluster, rt);
    Serving.TargetPortsFound(rt);
    Endpoints.RefreshSucceeds(o, out.cluster, rt, |rt.services|);
    Endpoints.RefreshOnlyReads(o, out.cluster, rt, |rt.services|);
    hide Rollout.Reconcile, Endpoints.Refresh, NewStatus, PutEndpoints, UpToDate, Workable, Spared, Plain, WellFormed, FaultFree,
      Misplaced, NamesOf, OwnedAll;
  }

  /** The runtimes in rts are those of distinct keys of the specs. */
  ghost predicate Listed(specs: map<string, Runtime>, rts: seq<Runtime>) {
    && (forall rt :: rt in rts ==> rt.key.Path() in specs && specs[rt.key.Path()] == rt)
    && forall i, j :: 0 <= i < j < |rts| ==> rts[i].key.Path() != rts[j].key.Path()
  }

  lemma TurnAside(a: Containers, b: Containers, rt: Runtime, other: Runtime)
    requires Turned(a, b, rt) && Workable(a, rt) && Foreign(other, rt) && rt.key != other.key
    ensures Workable(a, other) ==> Workable(b, other)
    ensures Misplaced(b, other) == Misplaced(a, other)
    ensures forall extra :: Exact(a, other, extra) ==> Exact(b, other, extra)
  {
    hide Workable, Misplaced, Spared, UpToDate, NamesOf, OwnedAll, Foreign;
    OthersUntouched(a, b, rt, other);
    OwnedAside(a, b, other);
    if Workable(a, other) {
      WorkableAside(a, b, rt, other);
    }
    if UpToDate(a, other) {
      UpToDateAside(a, b, other);
    }
  }

  /** What is misplaced of every runtime is the same. */
  ghost predicate SameMisplaced(specs: map<string, Runtime>, a: Containers, b: Containers) {
    forall k :: k in specs ==> Misplaced(b, specs[k]) == Misplaced(a, specs[k])
  }

  ghost predicate AllExact(m0: Containers, m: Containers, rts: seq<Runtime>) {
    forall rt :: rt in rts ==> Exact(m, rt, Misplaced(m0, rt))
  }

  lemma TurnKeepsWorld(specs: map<string, Runtime>, a: Containers, b: Containers, rt: Runtime)
    requires Keyed(specs) && WorldWorkable(specs, a) && Turned(a, b, rt)
    requires rt.key.Path() in specs && specs[rt.key.Path()] == rt
    ensures WorldWorkable(specs, b) && SameMisplaced(specs, a, b)
  {
    hide Workable, Plain, Foreign, Misplaced, ValidKey, Exact, Spared;
    forall k | k in specs
      ensures Workable(b, specs[k]) && Misplaced(b, specs[k]) == Misplaced(a, specs[k])
    {
      if k != rt.key.Path() {
        assert specs[k].key.Path() == k;
        hide Turned;
        TurnAside(a, b, rt, specs[k]);
      }
    }
  }

  lemma TurnKeepsExact(specs: map<string, Runtime>, m0: Containers, a: Containers, b: Containers, u: seq<Runtime>, rt: Runtime)
    requires WorldWorkable(specs, a) && Listed(specs, u + [rt]) && SameMisplaced(specs, m0, a)
    requires AllExact(m0, a, u) && Turned(a, b, rt)
    ensures AllExact(m0, b, u + [rt])
  {
    hide Workable, Plain, Misplaced, Exact, Spared, Foreign;
    var all, path := u + [rt], rt.key.Path();
    assert rt in all && specs[path] == rt && all[|u|] == rt;
    assert Exact(b, rt, Misplaced(m0, rt));
    forall x | x in u
      ensures Exact(b, x, Misplaced(m0, x))
    {
      var i :| 0 <= i < |u| && u[i] == x;
      assert all[i] == x && x in all;
      assert specs[x.key.Path()] == x && x.key.Path() != path;
      hide Turned;
      TurnAside(a, b, rt, x);
    }
  }

  lemma ListedLast(specs: map<string, Runtime>, u: seq<Runtime>, rt: Runtime)
    requires Sound(specs) && Listed(specs, u + [rt])
    ensures Listed(specs, u) && Keyed(specs) && WellFormed(rt) && rt.key.Path() in specs && specs[rt.key.Path()] == rt
  {
    hide WellFormed;
    var all := u + [rt];
    assert all[|u|] == rt && rt in all;
    forall x | x in u
      ensures x in all
    {
    }
    assert forall i :: 0 <= i < |u| ==> all[i] == u[i];
  }

  lemma WorkableMember(specs: map<string, Runtime>, m: Containers, rt: Runtime)
    requires WorldWorkable(specs, m) && rt.key.Path() in specs && specs[rt.key.Path()] == rt
    ensures Plain(rt) && Workable(m, rt)
  {
    hide Plain, Workable, Foreign;
  }

  lemma SameMisplacedTransitive(specs: map<string, Runtime>, a: Containers, b: Containers, c: Containers)
    requires SameMisplaced(specs, a, b) && SameMisplaced(specs, b, c)
    ensures SameMisplaced(specs, a, c)
  {
    hide Misplaced;
  }

  lemma {:induction false} QuietResync(o: Oracle, cfg: Config, w: World, specs: map<string, Runtime>, rts: seq<Runtime>)
    requires Quiet(o) && Sound(specs) && WorldWorkable(specs, w.cluster.containers) && Listed(specs, rts)
    ensures var r := ResyncEach(o, cfg, w, rts);
            var m0, m := w.cluster.containers, r.world.cluster.containers;
            r.ok && WorldWorkable(specs, m) && SameMisplaced(specs, m0, m) && AllExact(m0, m, rts)
  {
    hide WellFormed, ResyncOne, Exact, Sound, Quiet, Plain, Workable, Keyed, WorldWorkable, Turned, Listed, Misplaced;
    if rts != [] {
      var u, rt := rts[..|rts| - 1], rts[|rts| - 1];
      assert rts == u + [rt];
      ListedLast(specs, u, rt);
      QuietResync(o, cfg, w, specs, u);
      var before := ResyncEach(o, cfg, w, u).world;
      WorkableMember(specs, before.cluster.containers, rt);
      hide AllExact, SameMisplaced;
      QuietTurn(o, cfg, before, rt);
      var m0, a, b := w.cluster.containers, before.cluster.containers, ResyncOne(o, cfg, before, rt).world.cluster.containers;
      TurnKeepsWorld(specs, a, b, rt);
      TurnKeepsExact(specs, m0, a, b, u, rt);
      SameMisplacedTransitive(specs, m0, a, b);
    }
  }

  lemma MemoryListed(specs: map<string, Runtime>)
    requires Keyed(specs)
    ensures Listed(specs, InMemory(specs))
    ensures forall k :: k in specs ==> specs[k] in InMemory(specs)
  {
    hide ValidKey;
    var keys, rts := InOrder(specs.Keys), InMemory(specs);
    forall i | 0 <= i < |rts|
      ensures keys[i] in specs && rts[i] == specs[keys[i]] && rts[i].key.Path() == keys[i]
    {
      assert keys[i] in keys;
    }
    forall k | k in specs
      ensures specs[k] in rts
    {
      assert k in keys;
      var i :| 0 <= i < |keys| && keys[i] == k;
      assert rts[i] == specs[k];
    }
  }

  /** From workable containers, one Resync without failures succeeds, and then every runtime in
      memory owns exactly its canonical containers, with the digests of its spec, and those that
      were misplaced before. So a runtime ends at its spec if and only if nothing of it was
      misplaced. */
  lemma ResyncExactly(o: Oracle, cfg: Config, w: World)
    requires Quiet(o) && Sound(w.cluster.specs) && WorldWorkable(w.cluster.specs, w.cluster.containers)
    ensures var r := Resync(o, cfg, w);
            && r.ok
            && forall k :: k in w.cluster.specs ==>
                 && Exact(r.world.cluster.containers, w.cluster.specs[k], Misplaced(w.cluster.containers, w.cluster.specs[k]))
                 && (AtSpec(r.world.cluster.containers, w.cluster.specs[k])
                     <==> Misplaced(w.cluster.containers, w.cluster.specs[k]) == {})
  {
    MemoryListed(w.cluster.specs);
    hide Sound, WorldWorkable, Exact, Listed, ResyncEach, Misplaced, AtSpec;
    QuietResync(o, cfg, w, w.cluster.specs, InMemory(w.cluster.specs));
    var m0, m := w.cluster.containers, Resync(o, cfg, w).world.cluster.containers;
    forall k | k in w.cluster.specs
      ensures Exact(m, w.cluster.specs[k], Misplaced(m0, w.cluster.specs[k]))
      ensures AtSpec(m, w.cluster.specs[k]) <==> Misplaced(m0, w.cluster.specs[k]) == {}
    {
      ExactAtSpec(m0, m, w.cluster.specs[k]);
    }
  }

  lemma ExactAtSpec(m0: Containers, m: Containers, rt: Runtime)
    requires Exact(m, rt, Misplaced(m0, rt)) && Plain(rt) && Workable(m0, rt)
    ensures AtSpec(m, rt) <==> Misplaced(m0, rt) == {}
  {
    MisplacedApart(m0, rt);
    hide UpToDate, NamesOf, OwnedAll, Misplaced, Plain, Workable;
    var names, more := NamesOfAll(rt), Misplaced(m0, rt);
    assert names + more == names <==> more == {};
  }

  /** Nothing misplaced is under a canonical name. */
  lemma MisplacedApart(m: Containers, rt: Runtime)
    requires Plain(rt) && Workable(m, rt)
    ensures Misplaced(m, rt) !! NamesOfAll(rt)
  {
    MisplacedThere(m, rt);
    hide Plain, Workable, NamesOf, Misplaced;
    forall n | n in NamesOfAll(rt) && n in m
      ensures n !in Misplaced(m, rt)
    {
      NamedPlaced(m, rt, n);
    }
  }

  /** Rollback, then recovery: after any update of a runtime in memory that failed at any
      engine call and was rolled back, one Resync without failures gives every runtime, the
      updated one included, exactly the containers of the spec it had before, even if some of
      its deployments had already been switched over or cleaned up; for a runtime of which
      something was misplaced before the update, that may still be there as well. */
  lemma RolledBackRecovers(o: Oracle, later: Oracle, cfg: Config, w: World, rt: Runtime, filed: Option<Status>)
    requires Inv(w) && rt.key.Path() in w.cluster.specs && WithGeneration(w.cluster.specs, rt).generation > 0
    requires WorldWorkable(w.cluster.specs, w.cluster.containers)
    requires Apply(o, cfg, w, rt, filed).ending == RolledBack && Quiet(later)
    ensures var v := Apply(o, cfg, w, rt, filed).world;
            var r := Resync(later, cfg, v);
            && r.ok && v.cluster.specs == w.cluster.specs
            && forall k :: k in w.cluster.specs ==>
                 && UpToDate(r.world.cluster.containers, w.cluster.specs[k])
                 && (Misplaced(w.cluster.containers, w.cluster.specs[k]) == {} ==>
                       AtSpec(r.world.cluster.containers, w.cluster.specs[k]))
  {
    RollbackInverse(o, cfg, w, rt, filed);
    Runs.SoundOfInv(w);
    hide Inv, Apply, Resync, AtSpec, WorldWorkable, WithGeneration, Sound, SubMap, NamesOf, Misplaced, UpToDate;
    var v := Apply(o, cfg, w, rt, filed).world;
    WorldWorkableDownward(w.cluster.specs, v.cluster.containers, w.cluster.containers);
    ResyncExactly(later, cfg, v);
    forall k | k in w.cluster.specs
      ensures Misplaced(w.cluster.containers, w.cluster.specs[k]) == {} ==> Misplaced(v.cluster.containers, w.cluster.specs[k]) == {}
    {
      MisplacedDownward(v.cluster.containers, w.cluster.containers, w.cluster.specs[k]);
    }
  }

  lemma MisplacedDownward(a: Containers, b: Containers, rt: Runtime)
    requires SubMap(a, b)
    ensures Misplaced(a, rt) <= Misplaced(b, rt)
  {
    hide Owned, Placed;
  }
}
