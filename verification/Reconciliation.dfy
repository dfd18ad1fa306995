/** A whole runtime brought to its spec without failures: what its containers end up being,
    exactly, and that no other runtime's container is touched. */
module Reconciliation {
  import opened Runtimes
  import opened Naming
  import opened Statuses
  import opened Restarts
  import opened Docker
  import opened Rollout
  import opened Locality
  import opened Convergence

  /** Deployments are told apart by their names, and so are their containers. */
  ghost predicate Plain(rt: Runtime) {
    && DistinctDeployments(rt.deployments) && NamesApart(rt)
    && forall d :: d in rt.deployments ==> d.specHash != "" && d.replicas >= 0
  }

  /** What a reconciliation needs of the containers it finds: labels agree with canonical
      names, and no leftover is in the way of a replacement. */
  ghost predicate Workable(m: Containers, rt: Runtime) {
    forall d :: d in rt.deployments ==> Labelled(m, rt.key, d) && Clear(m, rt, d, d.replicas)
  }

  /** The container belongs under one of the deployment's names, or is surplus to be removed. */
  ghost predicate Placed(n: string, x: Container, rt: Runtime, d: Deployment) {
    x.service == d.name && (n in CanonicalNames(rt.key, d) || !Wanted(x, d))
  }

  /** The runtime's containers that no deployment of its spec has to do with: those of a
      deployment that has been dropped, for one. */
  ghost function Misplaced(m: Containers, rt: Runtime): (names: set<string>) {
    set n | n in m && Owned(m[n], rt.key) && forall d :: d in rt.deployments ==> !Placed(n, m[n], rt, d)
  }

  ghost predicate Tidy(m: Containers, rt: Runtime) {
    Workable(m, rt) && Misplaced(m, rt) == {}
  }

  ghost predicate SubMap(a: Containers, b: Containers) {
    forall n :: n in a ==> n in b && a[n] == b[n]
  }

  lemma WorkableDownward(a: Containers, b: Containers, rt: Runtime)
    requires Workable(b, rt) && SubMap(a, b)
    ensures Workable(a, rt)
  {
    hide Canonical, SurgeName, Fitting, Stale;
    forall d | d in rt.deployments
      ensures Labelled(a, rt.key, d) && Clear(a, rt, d, d.replicas)
    {
      assert Labelled(b, rt.key, d) && Clear(b, rt, d, d.replicas);
      forall r: nat | 1 <= r <= d.replicas
        ensures !Blocked(a, rt, d, r)
      {
        assert !Blocked(b, rt, d, r);
      }
    }
  }

  /** Losing containers keeps things tidy. */
  lemma TidyDownward(a: Containers, b: Containers, rt: Runtime)
    requires Tidy(b, rt) && SubMap(a, b)
    ensures Tidy(a, rt)
  {
    WorkableDownward(a, b, rt);
    hide Workable, Placed, Owned;
    forall n | n in a
      ensures n !in Misplaced(a, rt)
    {
      assert n !in Misplaced(b, rt);
    }
  }

  /** The deployments in ds are up to date and have no surplus. */
  ghost predicate Done(m: Containers, rt: Runtime, ds: seq<Deployment>) {
    forall d :: d in ds ==> Fresh(m, rt, d, d.replicas) && Surplus(m, rt, d) == {}
  }

  /** Other owners' containers stay, and outside the runtime's names nothing is new. */
  ghost predicate Spared(a: Containers, b: Containers, key: Key, names: set<string>) {
    forall n :: n !in names ==>
      (n in b ==> n in a && b[n] == a[n]) && (n in a && !Owned(a[n], key) ==> n in b)
  }

  /** The effect of one converged deployment on a, as Converges states it. */
  ghost predicate Converged(a: Containers, b: Containers, rt: Runtime, d: Deployment) {
    && Fresh(b, rt, d, d.replicas) && Labelled(b, rt.key, d)
    && forall n :: n !in CanonicalNames(rt.key, d) ==>
         (n in b <==> n in a && n !in Surplus(a, rt, d)) && (n in b ==> b[n] == a[n])
  }

  lemma NameOf(key: Key, d: Deployment, r: nat)
    requires 1 <= r <= d.replicas
    ensures Canonical(key, d, r) in CanonicalNames(key, d)
  {
  }

  lemma NameIn(key: Key, d: Deployment, n: string) returns (r: nat)
    requires n in CanonicalNames(key, d)
    ensures 1 <= r <= d.replicas && n == Canonical(key, d, r)
  {
    r :| 1 <= r <= d.replicas && n == Canonical(key, d, r);
  }

  lemma OtherName(rt: Runtime, d: Deployment, e: Deployment, r: nat)
    requires Plain(rt) && d in rt.deployments && e in rt.deployments && d != e && 1 <= r <= d.replicas
    ensures Canonical(rt.key, d, r) !in CanonicalNames(rt.key, e)
  {
    NameOf(rt.key, d, r);
    OtherOwner(rt, d, e, Canonical(rt.key, d, r));
  }

  lemma LabelledAfter(a: Containers, b: Containers, rt: Runtime, d: Deployment, e: Deployment)
    requires Plain(rt) && d in rt.deployments && e in rt.deployments
    requires Converged(a, b, rt, d) && Labelled(a, rt.key, e)
    ensures Labelled(b, rt.key, e)
  {
    if d != e {
      forall r | 1 <= r <= e.replicas && Canonical(rt.key, e, r) in b
        ensures Fitting(b[Canonical(rt.key, e, r)], rt.key, e, r)
      {
        OtherName(rt, e, d, r);
        hide Canonical, CanonicalNames, Surplus, Fresh;
      }
    }
  }

  lemma ClearAfter(a: Containers, b: Containers, rt: Runtime, d: Deployment, e: Deployment)
    requires Plain(rt) && d in rt.deployments && e in rt.deployments
    requires Converged(a, b, rt, d) && Clear(a, rt, e, e.replicas)
    ensures Clear(b, rt, e, e.replicas)
  {
    hide Surplus, Stale, CanonicalNames, Canonical, SurgeName;
    forall r: nat | 1 <= r <= e.replicas
      ensures !Blocked(b, rt, e, r)
    {
      assert !Blocked(a, rt, e, r);
      SurgeNotAmong(rt.key, e, r, rt.generation, rt.key, d);
      if d != e {
        OtherName(rt, e, d, r);
      }
    }
  }

  lemma SurplusAfter(a: Containers, b: Containers, rt: Runtime, d: Deployment, e: Deployment)
    requires Plain(rt) && d in rt.deployments && e in rt.deployments
    requires Converged(a, b, rt, d) && (d == e || Surplus(a, rt, e) == {})
    ensures Surplus(b, rt, e) == {}
  {
    forall n | n in b
      ensures n !in Surplus(b, rt, e)
    {
      if n in CanonicalNames(rt.key, d) {
        var r := NameIn(rt.key, d, n);
        assert Fitting(b[n], rt.key, d, r);
        if d != e && d.name == e.name {
          NamedApart(rt, d, e);
        }
      } else {
        hide CanonicalNames, Fresh;
        assert b[n] == a[n] && n !in Surplus(a, rt, d);
        if d != e {
          assert n !in Surplus(a, rt, e);
        }
      }
    }
  }

  lemma FreshAfter(a: Containers, b: Containers, rt: Runtime, d: Deployment, e: Deployment)
    requires Plain(rt) && d in rt.deployments && e in rt.deployments && d != e
    requires Converged(a, b, rt, d) && Fresh(a, rt, e, e.replicas) && Labelled(a, rt.key, e)
    ensures Fresh(b, rt, e, e.replicas)
  {
    forall r: nat | 1 <= r <= e.replicas
      ensures Canonical(rt.key, e, r) in b && !Stale(b[Canonical(rt.key, e, r)], e.specHash)
    {
      OtherName(rt, e, d, r);
      hide CanonicalNames;
      var n := Canonical(rt.key, e, r);
      assert Fitting(a[n], rt.key, e, r);
      if d.name == e.name {
        NamedApart(rt, d, e);
      }
    }
  }

  /** Surplus of one of the deployments. */
  ghost predicate Surplussed(m: Containers, rt: Runtime, ds: seq<Deployment>, n: string) {
    exists d :: d in ds && n in Surplus(m, rt, d)
  }

  /** Outside the names of ds, only the surplus is gone and all else is as before. */
  ghost predicate Pruned(a: Containers, b: Containers, rt: Runtime, ds: seq<Deployment>) {
    forall n :: n !in NamesOf(rt.key, ds) ==>
      (n in b <==> n in a && !Surplussed(a, rt, ds, n)) && (n in b ==> b[n] == a[n])
  }

  lemma PrunedItself(m: Containers, rt: Runtime)
    ensures Pruned(m, m, rt, [])
  {
  }

  lemma PrunedAfter(c: Containers, a: Containers, b: Containers, rt: Runtime, u: seq<Deployment>, d: Deployment)
    requires Pruned(c, a, rt, u) && Converged(a, b, rt, d)
    ensures Pruned(c, b, rt, u + [d])
  {
    var ds := u + [d];
    assert ds[..|u|] == u;
    hide CanonicalNames, Fresh, Labelled;
    assert NamesOf(rt.key, ds) == NamesOf(rt.key, u) + CanonicalNames(rt.key, d);
    forall n | n !in NamesOf(rt.key, ds)
      ensures (n in b <==> n in c && !Surplussed(c, rt, ds, n)) && (n in b ==> b[n] == c[n])
    {
      assert n in a ==> (n in Surplus(a, rt, d) <==> n in Surplus(c, rt, d));
      SurplussedStep(c, rt, u, d, n);
      hide Surplus, Surplussed, NamesOf;
    }
  }

  lemma SurplussedStep(m: Containers, rt: Runtime, u: seq<Deployment>, d: Deployment, n: string)
    ensures Surplussed(m, rt, u + [d], n) <==> Surplussed(m, rt, u, n) || n in Surplus(m, rt, d)
  {
    hide Surplus;
    if e :| e in u && n in Surplus(m, rt, e) {
      assert e in u + [d];
    }
    assert d in u + [d];
  }

  lemma {:induction false} ReconcileStep(o: Oracle, cfg: SelfHeal, c: Cluster, rt: Runtime, u: seq<Deployment>)
    requires FaultFree(o) && Plain(rt) && Workable(c.containers, rt)
    requires u <= rt.deployments
    ensures var out := EnsureAll(o, cfg, c, rt, u);
            && out.ok && Workable(out.cluster.containers, rt) && Done(out.cluster.containers, rt, u)
            && Pruned(c.containers, out.cluster.containers, rt, u)
  {
    hide Workable, Pruned, Ensure, Plain, FaultFree;
    if u != [] {
      var v, d := u[..|u| - 1], u[|u| - 1];
      ReconcileStep(o, cfg, c, rt, v);
      assert d == rt.deployments[|u| - 1];
      var before := EnsureAll(o, cfg, c, rt, v).cluster;
      hide Done;
      PassConverges(o, cfg, before, rt, d);
      var a, b := before.containers, Ensure(o, cfg, before, rt, d).cluster.containers;
      WorkableAfter(a, b, rt, d);
      assert u == v + [d];
      DoneAfter(a, b, rt, v, d);
      PrunedAfter(c.containers, a, b, rt, v, d);
    } else {
      PrunedItself(c.containers, rt);
    }
  }

  lemma PassConverges(o: Oracle, cfg: SelfHeal, c: Cluster, rt: Runtime, d: Deployment)
    requires FaultFree(o) && Plain(rt) && Workable(c.containers, rt) && d in rt.deployments
    ensures Ensure(o, cfg, c, rt, d).ok
    ensures Converged(c.containers, Ensure(o, cfg, c, rt, d).cluster.containers, rt, d)
  {
    Converges(o, cfg, c, rt, d);
  }

  lemma WorkableAfter(a: Containers, b: Containers, rt: Runtime, d: Deployment)
    requires Plain(rt) && d in rt.deployments && Workable(a, rt) && Converged(a, b, rt, d)
    ensures Workable(b, rt)
  {
    hide Converged, Plain, Labelled, Clear;
    forall e | e in rt.deployments
      ensures Labelled(b, rt.key, e) && Clear(b, rt, e, e.replicas)
    {
      LabelledAfter(a, b, rt, d, e);
      ClearAfter(a, b, rt, d, e);
    }
  }

  lemma DoneAfter(a: Containers, b: Containers, rt: Runtime, v: seq<Deployment>, d: Deployment)
    requires Plain(rt) && v + [d] <= rt.deployments && Workable(a, rt) && Done(a, rt, v) && Converged(a, b, rt, d)
    ensures Done(b, rt, v + [d])
  {
    hide Plain, Labelled, Clear, Fresh, Surplus;
    var ds := v + [d];
    assert ds[|v|] == d == rt.deployments[|v|];
    forall e | e in ds
      ensures Fresh(b, rt, e, e.replicas) && Surplus(b, rt, e) == {}
    {
      assert e in rt.deployments && d in rt.deployments;
      assert e == d || e in v;
      SurplusAfter(a, b, rt, d, e);
      if e != d {
        FreshAfter(a, b, rt, d, e);
      }
    }
  }

  /** Every replica has an up-to-date container with the labels of its name. */
  ghost predicate UpToDate(m: Containers, rt: Runtime) {
    forall d :: d in rt.deployments ==> Fresh(m, rt, d, d.replicas) && Labelled(m, rt.key, d)
  }

  /** The runtime's containers are exactly its canonical ones, up to date and labelled. */
  ghost predicate AtSpec(m: Containers, rt: Runtime) {
    UpToDate(m, rt) && OwnedAll(m, rt.key) == NamesOf(rt.key, rt.deployments)
  }

  lemma NamedPlaced(m: Containers, rt: Runtime, n: string)
    requires Plain(rt) && Workable(m, rt) && n in m && n in NamesOf(rt.key, rt.deployments)
    ensures Owned(m[n], rt.key) && n !in Misplaced(m, rt)
  {
    NamesOfMembers(rt.key, rt.deployments, n);
    hide NamesOf, Clear;
    var d :| d in rt.deployments && n in CanonicalNames(rt.key, d);
    var r := NameIn(rt.key, d, n);
    hide Canonical;
    assert Fitting(m[n], rt.key, d, r);
    assert Placed(n, m[n], rt, d);
  }

  lemma NamedThere(m: Containers, rt: Runtime, n: string)
    requires UpToDate(m, rt) && n in NamesOf(rt.key, rt.deployments)
    ensures n in m
  {
    NamesOfMembers(rt.key, rt.deployments, n);
    hide NamesOf, Labelled;
    var d :| d in rt.deployments && n in CanonicalNames(rt.key, d);
    var r := NameIn(rt.key, d, n);
    hide Canonical;
  }

  /** What is owned, under no canonical name and no surplus, is misplaced. */
  lemma UnnamedMisplaced(m: Containers, rt: Runtime, n: string)
    requires n in m && n !in NamesOf(rt.key, rt.deployments)
    ensures n in Misplaced(m, rt) <==> Owned(m[n], rt.key) && !Surplussed(m, rt, rt.deployments, n)
  {
    NamesOfMembers(rt.key, rt.deployments, n);
    hide NamesOf, CanonicalNames, Wanted, Owned;
    forall d | d in rt.deployments && Owned(m[n], rt.key)
      ensures Placed(n, m[n], rt, d) <==> n in Surplus(m, rt, d)
    {
    }
  }

  lemma PrunedOwned(a: Containers, b: Containers, rt: Runtime)
    requires Plain(rt) && Workable(a, rt) && Workable(b, rt) && UpToDate(b, rt)
    requires Pruned(a, b, rt, rt.deployments)
    ensures OwnedAll(b, rt.key) == NamesOf(rt.key, rt.deployments) + Misplaced(a, rt)
    ensures Misplaced(a, rt) !! NamesOf(rt.key, rt.deployments)
  {
    var names := NamesOf(rt.key, rt.deployments);
    hide Plain, Workable, UpToDate, NamesOf, Misplaced, Owned, Surplussed;
    forall n
      ensures n in OwnedAll(b, rt.key) <==> n in names || n in Misplaced(a, rt)
      ensures n in names ==> n !in Misplaced(a, rt)
    {
      MisplacedThere(a, rt);
      if n in names {
        NamedThere(b, rt, n);
        NamedPlaced(b, rt, n);
        if n in a {
          NamedPlaced(a, rt, n);
        }
      } else if n in a {
        UnnamedMisplaced(a, rt, n);
      }
    }
  }

  lemma MisplacedThere(m: Containers, rt: Runtime)
    ensures Misplaced(m, rt) <= m.Keys
  {
  }

  lemma PrunedSpared(a: Containers, b: Containers, rt: Runtime)
    requires Pruned(a, b, rt, rt.deployments)
    ensures Spared(a, b, rt.key, NamesOf(rt.key, rt.deployments))
  {
    hide NamesOf;
  }

  /** A pass does not change what is misplaced. */
  lemma MisplacedStays(a: Containers, b: Containers, rt: Runtime)
    requires Plain(rt) && Workable(b, rt) && Pruned(a, b, rt, rt.deployments)
    requires OwnedAll(b, rt.key) == NamesOf(rt.key, rt.deployments) + Misplaced(a, rt)
    requires Misplaced(a, rt) !! NamesOf(rt.key, rt.deployments)
    ensures Misplaced(b, rt) == Misplaced(a, rt)
  {
    var names := NamesOf(rt.key, rt.deployments);
    hide Plain, Workable, NamesOf, Owned, Placed, Surplussed;
    MisplacedOwned(b, rt);
    forall n
      ensures n in Misplaced(b, rt) <==> n in Misplaced(a, rt)
    {
      if n in names {
        if n in b {
          NamedPlaced(b, rt, n);
        }
      } else if n in b {
        assert n in a && b[n] == a[n];
      } else {
        assert n !in OwnedAll(b, rt.key);
      }
    }
  }

  lemma MisplacedOwned(m: Containers, rt: Runtime)
    ensures Misplaced(m, rt) <= OwnedAll(m, rt.key)
  {
  }

  /** Without failures, from workable containers, a reconciliation succeeds. Every replica then
      has an up-to-date container, other owners' containers stay, except under the runtime's
      own names, nothing else is new, and what the runtime owns is exactly its canonical
      containers and those that were misplaced before: no pass removes the latter. */
  lemma ReconcileExactly(o: Oracle, cfg: SelfHeal, c: Cluster, rt: Runtime)
    requires FaultFree(o) && Plain(rt) && Workable(c.containers, rt)
    ensures var out := Reconcile(o, cfg, c, rt);
            var m := out.cluster.containers;
            && out.ok && UpToDate(m, rt) && Workable(m, rt)
            && Spared(c.containers, m, rt.key, NamesOf(rt.key, rt.deployments))
            && OwnedAll(m, rt.key) == NamesOf(rt.key, rt.deployments) + Misplaced(c.containers, rt)
            && Misplaced(m, rt) == Misplaced(c.containers, rt)
    ensures AtSpec(Reconcile(o, cfg, c, rt).cluster.containers, rt) <==> Misplaced(c.containers, rt) == {}
  {
    ReconcileStep(o, cfg, c, rt, rt.deployments);
    var m := Reconcile(o, cfg, c, rt).cluster.containers;
    assert UpToDate(m, rt);
    hide Done, Plain, Workable, Pruned, Spared, EnsureAll, UpToDate, NamesOf, Misplaced, OwnedAll;
    PrunedOwned(c.containers, m, rt);
    PrunedSpared(c.containers, m, rt);
    MisplacedStays(c.containers, m, rt);
    var names, more := NamesOf(rt.key, rt.deployments), Misplaced(c.containers, rt);
    assert names + more == names <==> more == {};
  }
}
