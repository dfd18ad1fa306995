/** Where a rollout ends when no engine call fails: exactly at the canonical containers, or
    stopped by a replacement that an earlier, broken rollout left under its surge name. */
module Convergence {
  import opened Runtimes
  import opened Naming
  import opened Sorting
  import opened Statuses
  import opened Restarts
  import opened Docker
  import opened Rollout
  import opened Locality

  /** The digest of the spec is not the one the container was started from. */
  predicate Stale(x: Container, hash: string) {
    if x.hash != "" then x.hash != hash else x.legacyHash == "" || x.legacyHash != hash
  }

  /** The replica must be replaced, and the name its replacement runs under is taken. */
  predicate Blocked(m: Containers, rt: Runtime, d: Deployment, r: nat) {
    && Beside(d)
    && Canonical(rt.key, d, r) in m && Stale(m[Canonical(rt.key, d, r)], d.specHash)
    && SurgeName(rt.key, d, r, rt.generation) in m
  }

  lemma RunWorks(o: Oracle, c: Cluster, rt: Runtime, d: Deployment, replica: int, name: string)
    requires FaultFree(o)
    ensures var out := RunContainer(o, c, rt, d, replica, name);
            && (out.ok <==> name !in c.containers)
            && (out.ok ==> out.cluster.containers == c.containers[name := Made(rt, d, replica, READY)])
  {
    hide NewStatus;
  }

  lemma RecreateWorks(o: Oracle, c: Cluster, rt: Runtime, d: Deployment, replica: int, name: string)
    requires FaultFree(o)
    ensures var removed := RemoveContainer(o, c, name);
            var out := RunContainer(o, removed.cluster, rt, d, replica, name);
            && removed.ok && out.ok
            && out.cluster.containers == c.containers[name := Made(rt, d, replica, READY)]
  {
    var removed := RemoveContainer(o, c, name);
    assert removed.ok && removed.cluster.containers == c.containers - {name};
    hide RunContainer, RemoveContainer;
    RunWorks(o, removed.cluster, rt, d, replica, name);
    assert (c.containers - {name})[name := Made(rt, d, replica, READY)] == c.containers[name := Made(rt, d, replica, READY)];
  }

  lemma SurgeWorks(o: Oracle, c: Cluster, rt: Runtime, d: Deployment, replica: nat)
    requires FaultFree(o)
    ensures var out := ReplaceWithSurge(o, c, rt, d, replica, Canonical(rt.key, d, replica));
            out.ok <==> SurgeName(rt.key, d, replica, rt.generation) !in c.containers
  {
    var name, surge := Canonical(rt.key, d, replica), SurgeName(rt.key, d, replica, rt.generation);
    SurgeNotCanonical(rt.key, d, replica, rt.generation, replica);
    hide Canonical, SurgeName, RunContainer;
    RunWorks(o, c, rt, d, replica, surge);
  }

  lemma ReplaceWorks(o: Oracle, c: Cluster, rt: Runtime, d: Deployment, replica: nat)
    requires FaultFree(o)
    ensures var out := Replace(o, c, rt, d, replica, Canonical(rt.key, d, replica));
            && (out.ok <==> !(Surges(d) && SurgeName(rt.key, d, replica, rt.generation) in c.containers))
            && (out.ok ==> out.cluster.containers == c.containers[Canonical(rt.key, d, replica) := Made(rt, d, replica, READY)])
  {
    hide Canonical, SurgeName, ReplaceWithSurge, RunContainer, RemoveContainer;
    if Surges(d) {
      SurgeWorks(o, c, rt, d, replica);
      LocalSurge(o, c, rt, d, replica, Names(rt, d, replica));
    } else {
      RecreateWorks(o, c, rt, d, replica, Canonical(rt.key, d, replica));
    }
  }

  lemma SettleWorks(o: Oracle, cfg: SelfHeal, c: Cluster, rt: Runtime, d: Deployment, replica: nat, name: string)
    requires FaultFree(o) && name in c.containers
    ensures var out := Settle(o, cfg, c, rt, d, replica, name);
            && out.ok
            && (out.cluster.containers == c.containers
                || out.cluster.containers == c.containers[name := Made(rt, d, replica, READY)])
  {
    var t := Tick(o, c);
    var marked := if Ready(c.containers[name].state) then MarkHealthy(t, name) else t;
    var c1 := WritePhase(SetRecord(marked, name, Healed(cfg, RecordOf(marked, name), marked.now)), rt, Updating);
    hide RunContainer, RemoveContainer, Judge, Healed, MarkedHealthy, NewStatus;
    RecreateWorks(o, c1, rt, d, replica, name);
  }

  /** One replica without failures: it goes wrong only when blocked, and otherwise ends with
      an up-to-date container under its canonical name, all else being as before. */
  lemma ReplicaConverges(o: Oracle, cfg: SelfHeal, c: Cluster, rt: Runtime, d: Deployment, r: nat)
    requires FaultFree(o) && d.specHash != ""
    ensures var out := EnsureReplica(o, cfg, c, rt, d, r);
            var name := Canonical(rt.key, d, r);
            && (out.ok <==> !Blocked(c.containers, rt, d, r))
            && (out.ok ==>
                  && name in out.cluster.containers && !Stale(out.cluster.containers[name], d.specHash)
                  && (out.cluster.containers == c.containers
                      || out.cluster.containers == c.containers[name := Made(rt, d, r, READY)]))
  {
    var name := Canonical(rt.key, d, r);
    var t := Tick(o, c);
    if name !in c.containers {
      hide Canonical, RunContainer;
      RunWorks(o, t, rt, d, r, name);
    } else {
      var drifted := Drifted(o, t, name, d.specHash);
      assert drifted.cluster.containers == c.containers && drifted.yes == Stale(c.containers[name], d.specHash);
      hide Canonical, SurgeName, Replace, Settle, Drifted;
      if drifted.yes {
        ReplaceWorks(o, drifted.cluster, rt, d, r);
      } else {
        SettleWorks(o, cfg, drifted.cluster, rt, d, r, name);
      }
    }
  }

  // ------------------------------------------------------- a whole deployment

  /** No replica up to k is blocked. */
  ghost predicate Clear(m: Containers, rt: Runtime, d: Deployment, k: int) {
    forall r :: 1 <= r <= k ==> !Blocked(m, rt, d, r)
  }

  /** The replicas up to k have up-to-date containers. */
  ghost predicate Fresh(m: Containers, rt: Runtime, d: Deployment, k: int) {
    forall r :: 1 <= r <= k ==> Canonical(rt.key, d, r) in m && !Stale(m[Canonical(rt.key, d, r)], d.specHash)
  }

  /** From a to b only the names given have changed. */
  ghost predicate Elsewhere(a: Containers, b: Containers, names: set<string>) {
    && a.Keys - names == b.Keys - names
    && forall n :: n in a && n in b && n !in names ==> a[n] == b[n]
  }

  lemma ElsewhereTransitive(a: Containers, b: Containers, c: Containers, s: set<string>, t: set<string>)
    requires Elsewhere(a, b, s) && Elsewhere(b, c, t)
    ensures Elsewhere(a, c, s + t)
  {
    forall n
      ensures n in a.Keys - (s + t) <==> n in c.Keys - (s + t)
    {
      assert n in a.Keys - s <==> n in b.Keys - s;
      assert n in b.Keys - t <==> n in c.Keys - t;
    }
    forall n | n in a && n in c && n !in s + t
      ensures a[n] == c[n]
    {
      assert n in a.Keys - s;
    }
  }

  lemma ElsewhereUpdate(a: Containers, n: string, x: Container)
    ensures Elsewhere(a, a[n := x], {n})
  {
  }

  lemma NotAmongFirst(key: Key, d: Deployment, k: nat, r: nat)
    requires r > k
    ensures Canonical(key, d, r) !in FirstNames(key, d, k)
  {
    forall i: nat | 1 <= i <= k
      ensures Canonical(key, d, i) != Canonical(key, d, r)
    {
      if Canonical(key, d, i) == Canonical(key, d, r) {
        CanonicalInjective(key, d, i, r);
      }
    }
    hide Canonical;
  }

  lemma SurgeNotAmongFirst(key: Key, d: Deployment, k: nat, r: nat, generation: int)
    ensures SurgeName(key, d, r, generation) !in FirstNames(key, d, k)
  {
    forall i: nat | 1 <= i <= k
      ensures Canonical(key, d, i) != SurgeName(key, d, r, generation)
    {
      SurgeNotCanonical(key, d, r, generation, i);
    }
    hide Canonical, SurgeName;
  }

  lemma BlockedKept(a: Containers, b: Containers, rt: Runtime, d: Deployment, k: nat, r: nat)
    requires Elsewhere(a, b, FirstNames(rt.key, d, k)) && r > k
    ensures Blocked(a, rt, d, r) <==> Blocked(b, rt, d, r)
  {
    NotAmongFirst(rt.key, d, k, r);
    SurgeNotAmongFirst(rt.key, d, k, r, rt.generation);
    hide Canonical, SurgeName, FirstNames;
    var name, surge := Canonical(rt.key, d, r), SurgeName(rt.key, d, r, rt.generation);
    var s := FirstNames(rt.key, d, k);
    assert name in a.Keys - s <==> name in b.Keys - s;
    assert surge in a.Keys - s <==> surge in b.Keys - s;
  }

  lemma {:induction false} ReplicasConverge(o: Oracle, cfg: SelfHeal, c: Cluster, rt: Runtime, d: Deployment, k: nat)
    requires FaultFree(o) && d.specHash != "" && k <= d.replicas
    requires Labelled(c.containers, rt.key, d)
    ensures var out := EnsureReplicas(o, cfg, c, rt, d, k);
            && (out.ok <==> Clear(c.containers, rt, d, k))
            && (out.ok ==>
                  && Fresh(out.cluster.containers, rt, d, k)
                  && Labelled(out.cluster.containers, rt.key, d)
                  && Elsewhere(c.containers, out.cluster.containers, FirstNames(rt.key, d, k)))
  {
    hide EnsureReplica, Blocked, Stale, FirstNames, Canonical, Labelled, Elsewhere, Fresh, FaultFree;
    if k > 0 {
      ReplicasConverge(o, cfg, c, rt, d, k - 1);
      var before := EnsureReplicas(o, cfg, c, rt, d, k - 1);
      if before.ok {
        var b := before.cluster;
        ReplicaConverges(o, cfg, b, rt, d, k);
        BlockedKept(c.containers, b.containers, rt, d, k - 1, k);
        if !Blocked(c.containers, rt, d, k) {
          TurnConverges(o, cfg, c, b, rt, d, k);
        }
      }
    } else {
      NothingConverges(c, rt, d);
    }
  }

  lemma NothingConverges(c: Cluster, rt: Runtime, d: Deployment)
    ensures Fresh(c.containers, rt, d, 0) && Clear(c.containers, rt, d, 0)
    ensures Elsewhere(c.containers, c.containers, FirstNames(rt.key, d, 0))
  {
  }

  lemma TurnConverges(o: Oracle, cfg: SelfHeal, c: Cluster, b: Cluster, rt: Runtime, d: Deployment, k: nat)
    requires 1 <= k <= d.replicas && FaultFree(o) && d.specHash != ""
    requires Fresh(b.containers, rt, d, k - 1) && Labelled(b.containers, rt.key, d)
    requires Elsewhere(c.containers, b.containers, FirstNames(rt.key, d, k - 1))
    requires EnsureReplica(o, cfg, b, rt, d, k).ok
    ensures var e := EnsureReplica(o, cfg, b, rt, d, k).cluster;
            && Fresh(e.containers, rt, d, k) && Labelled(e.containers, rt.key, d)
            && Elsewhere(c.containers, e.containers, FirstNames(rt.key, d, k))
  {
    var e := EnsureReplica(o, cfg, b, rt, d, k).cluster;
    var name := Canonical(rt.key, d, k);
    ReplicaConverges(o, cfg, b, rt, d, k);
    ReplicaEffect(o, cfg, b, rt, d, k);
    FirstNamesStep(rt.key, d, k);
    hide EnsureReplica, Blocked, Stale, FirstNames;
    LabelledKept(b, e, rt, d, k);
    hide Local, Labelled;
    FreshStep(b.containers, e.containers, rt, d, k);
    hide Canonical, Fresh;
    assert Elsewhere(b.containers, e.containers, {name}) by {
      ElsewhereUpdate(b.containers, name, Made(rt, d, k, READY));
    }
    hide Elsewhere;
    ElsewhereTransitive(c.containers, b.containers, e.containers, FirstNames(rt.key, d, k - 1), {name});
  }

  lemma FreshStep(b: Containers, e: Containers, rt: Runtime, d: Deployment, k: nat)
    requires k >= 1 && Fresh(b, rt, d, k - 1)
    requires e == b || e == b[Canonical(rt.key, d, k) := Made(rt, d, k, READY)]
    requires Canonical(rt.key, d, k) in e && !Stale(e[Canonical(rt.key, d, k)], d.specHash)
    ensures Fresh(e, rt, d, k)
  {
    hide Stale;
    forall r | 1 <= r <= k
      ensures Canonical(rt.key, d, r) in e && !Stale(e[Canonical(rt.key, d, r)], d.specHash)
    {
      if r < k && Canonical(rt.key, d, r) == Canonical(rt.key, d, k) {
        CanonicalInjective(rt.key, d, r, k);
      }
    }
  }

  /** The containers of a deployment that its spec has no place for. */
  function Surplus(m: Containers, rt: Runtime, d: Deployment): (names: set<string>) {
    set n | n in m && OwnedBy(m[n], rt.key, d.name) && !Wanted(m[n], d)
  }

  function Elements(q: seq<string>): (names: set<string>)
    ensures forall n :: n in names <==> n in q
  {
    if q == [] then {}
    else
      assert q == q[..|q| - 1] + [q[|q| - 1]];
      Elements(q[..|q| - 1]) + {q[|q| - 1]}
  }

  lemma {:induction false} RemovalWorks(o: Oracle, c: Cluster, names: seq<string>)
    requires FaultFree(o)
    ensures var out := RemoveEach(o, c, names);
            && out.ok && out.cluster.containers == c.containers - Elements(names)
            && (names == [] ==> out.cluster == c)
  {
    if names != [] {
      var u, x := names[..|names| - 1], names[|names| - 1];
      RemovalWorks(o, c, u);
      MinusMinus(c.containers, Elements(u), x);
    } else {
      assert c.containers - {} == c.containers;
    }
  }

  lemma MinusMinus(m: Containers, s: set<string>, x: string)
    ensures m - s - {x} == m - (s + {x})
  {
  }

  lemma RemoveExtraWorks(o: Oracle, c: Cluster, rt: Runtime, d: Deployment)
    requires FaultFree(o)
    ensures var out := RemoveExtra(o, c, rt, d);
            && out.ok && out.cluster.containers == c.containers - Surplus(c.containers, rt, d)
            && (Surplus(c.containers, rt, d) == {} ==> out.cluster == Tick(o, c))
  {
    var listed := o.listing(c.tick, OwnedNames(c.containers, rt.key, d.name));
    var q := Filter(listed, IsExtra(c.containers, d));
    forall n
      ensures n in q <==> n in Surplus(c.containers, rt, d)
    {
      FilterMembers(listed, IsExtra(c.containers, d), n);
    }
    assert q != [] ==> q[0] in q;
    hide Filter, OwnedBy;
    RemovalWorks(o, Tick(o, c), q);
    assert Elements(q) == Surplus(c.containers, rt, d);
  }

  /** Convergence. Without failures the pass succeeds exactly when no replica is blocked, and
      then: every canonical name holds an up-to-date, fitting container; nothing outside the
      canonical names is changed except that the deployment's surplus is gone. */
  lemma Converges(o: Oracle, cfg: SelfHeal, c: Cluster, rt: Runtime, d: Deployment)
    requires FaultFree(o) && d.specHash != "" && d.replicas >= 0
    requires Labelled(c.containers, rt.key, d)
    ensures var out := Ensure(o, cfg, c, rt, d);
            var m := out.cluster.containers;
            && (out.ok <==> Clear(c.containers, rt, d, d.replicas))
            && (out.ok ==>
                  && Fresh(m, rt, d, d.replicas) && Labelled(m, rt.key, d)
                  && forall n :: n !in CanonicalNames(rt.key, d) ==>
                       (n in m <==> n in c.containers && n !in Surplus(c.containers, rt, d))
                       && (n in m ==> m[n] == c.containers[n]))
  {
    ReplicasConverge(o, cfg, c, rt, d, d.replicas);
    var replicas := EnsureReplicas(o, cfg, c, rt, d, d.replicas);
    if replicas.ok {
      RemoveExtraWorks(o, replicas.cluster, rt, d);
      hide EnsureReplicas, RemoveExtra;
      SurplusElsewhere(c.containers, replicas.cluster.containers, rt, d);
    }
  }

  lemma SurplusElsewhere(a: Containers, b: Containers, rt: Runtime, d: Deployment)
    requires d.replicas >= 0 && Fresh(b, rt, d, d.replicas) && Labelled(b, rt.key, d)
    requires Elsewhere(a, b, CanonicalNames(rt.key, d))
    ensures var m := b - Surplus(b, rt, d);
            && Fresh(m, rt, d, d.replicas) && Labelled(m, rt.key, d)
            && forall n :: n !in CanonicalNames(rt.key, d) ==>
                 (n in m <==> n in a && n !in Surplus(a, rt, d)) && (n in m ==> m[n] == a[n])
  {
    var m, names := b - Surplus(b, rt, d), CanonicalNames(rt.key, d);
    hide Canonical, Stale, CanonicalNames;
    forall r | 1 <= r <= d.replicas
      ensures Canonical(rt.key, d, r) in m
    {
      assert Fitting(b[Canonical(rt.key, d, r)], rt.key, d, r);
    }
    forall n | n !in names
      ensures (n in m <==> n in a && n !in Surplus(a, rt, d)) && (n in m ==> m[n] == a[n])
    {
      assert n in a.Keys - names <==> n in b.Keys - names;
    }
  }

  /** A container that the spec has a place for, but under another name than its own: what a
      broken rename leaves behind, for one. */
  ghost predicate Stray(m: Containers, rt: Runtime, d: Deployment, n: string) {
    n in m && OwnedBy(m[n], rt.key, d.name) && Wanted(m[n], d) && n !in CanonicalNames(rt.key, d)
  }

  /** Only renames fail. */
  ghost predicate RenamesFail(o: Oracle) {
    forall op, t :: o.fault(op, t) == if op == CallRename then Refused else Works
  }

  /** A replacement whose rename fails has removed the old container and left the new one under
      its surge name, where it is a stray. */
  lemma BrokenRename(o: Oracle, cfg: SelfHeal, c: Cluster, rt: Runtime, d: Deployment, r: nat)
    requires RenamesFail(o) && Beside(d) && 1 <= r <= d.replicas
    requires var name := Canonical(rt.key, d, r);
             name in c.containers && Stale(c.containers[name], d.specHash)
             && SurgeName(rt.key, d, r, rt.generation) !in c.containers
    ensures var out := EnsureReplica(o, cfg, c, rt, d, r);
            var name, surge := Canonical(rt.key, d, r), SurgeName(rt.key, d, r, rt.generation);
            && !out.ok && out.cluster.containers == (c.containers - {name})[surge := Made(rt, d, r, READY)]
            && Stray(out.cluster.containers, rt, d, surge)
  {
    var name, surge := Canonical(rt.key, d, r), SurgeName(rt.key, d, r, rt.generation);
    SurgeNotCanonical(rt.key, d, r, rt.generation, r);
    assert Surges(d);
    hide Stray, Made, Surges, RenamesFail, Canonical, SurgeName, CanonicalNames, ReplaceWithSurge, Drifted, Settle, RunContainer, Exists, Stale;
    SeesStale(o, c, name, d.specHash);
    var drifted := Drifted(o, Exists(o, c, name).cluster, name, d.specHash);
    StrandedSurge(o, drifted.cluster, rt, d, r, name);
    assert EnsureReplica(o, cfg, c, rt, d, r) == Replace(o, drifted.cluster, rt, d, r, name);
    assert Replace(o, drifted.cluster, rt, d, r, name) == ReplaceWithSurge(o, drifted.cluster, rt, d, r, name);
    SurgeIsStray(EnsureReplica(o, cfg, c, rt, d, r).cluster.containers, rt, d, r);
  }

  lemma SurgeIsStray(m: Containers, rt: Runtime, d: Deployment, r: nat)
    requires var surge := SurgeName(rt.key, d, r, rt.generation); surge in m && m[surge] == Made(rt, d, r, READY)
    requires r <= d.replicas
    ensures Stray(m, rt, d, SurgeName(rt.key, d, r, rt.generation))
  {
    SurgeNotAmong(rt.key, d, r, rt.generation, rt.key, d);
    hide SurgeName, CanonicalNames;
  }

  lemma SeesStale(o: Oracle, c: Cluster, name: string, hash: string)
    requires RenamesFail(o) && name in c.containers && Stale(c.containers[name], hash)
    ensures var there := Exists(o, c, name);
            var drifted := Drifted(o, there.cluster, name, hash);
            there.yes && drifted.yes && drifted.cluster.containers == c.containers
  {
  }

  lemma StrandedSurge(o: Oracle, c: Cluster, rt: Runtime, d: Deployment, r: nat, name: string)
    requires RenamesFail(o)
    requires var surge := SurgeName(rt.key, d, r, rt.generation); surge !in c.containers && surge != name
    ensures var out := ReplaceWithSurge(o, c, rt, d, r, name);
            !out.ok && out.cluster.containers
                       == (c.containers - {name})[SurgeName(rt.key, d, r, rt.generation) := Made(rt, d, r, READY)]
  {
    hide SurgeName, NewStatus;
    var surge := SurgeName(rt.key, d, r, rt.generation);
    var run := RunContainer(o, c, rt, d, r, surge);
    assert run.ok && run.cluster.containers == c.containers[surge := Made(rt, d, r, READY)];
    hide RunContainer;
    assert c.containers[surge := Made(rt, d, r, READY)] - {name} == (c.containers - {name})[surge := Made(rt, d, r, READY)];
  }

  /** The deployment ends with exactly its canonical names if and only if it starts without
      strays: a stray is never removed by any later pass. */
  lemma ExactlyCanonical(o: Oracle, cfg: SelfHeal, c: Cluster, rt: Runtime, d: Deployment)
    requires FaultFree(o) && d.specHash != "" && d.replicas >= 0
    requires Labelled(c.containers, rt.key, d) && Clear(c.containers, rt, d, d.replicas)
    ensures OwnedNames(Ensure(o, cfg, c, rt, d).cluster.containers, rt.key, d.name) == CanonicalNames(rt.key, d)
            <==> forall n :: !Stray(c.containers, rt, d, n)
  {
    Converges(o, cfg, c, rt, d);
    var m := Ensure(o, cfg, c, rt, d).cluster.containers;
    hide Ensure, Canonical, Clear, Stale, CanonicalNames;
    var owned, names := OwnedNames(m, rt.key, d.name), CanonicalNames(rt.key, d);
    forall n | n in names
      ensures n in owned
    {
      CanonicalOwned(m, rt, d, n);
    }
    hide Fresh, Labelled;
    forall n | n !in names
      ensures n in owned <==> Stray(c.containers, rt, d, n)
    {
    }
    if owned == names {
      assert forall n :: Stray(c.containers, rt, d, n) ==> n in owned && n !in names;
    }
  }

  lemma CanonicalOwned(m: Containers, rt: Runtime, d: Deployment, n: string)
    requires Fresh(m, rt, d, d.replicas) && Labelled(m, rt.key, d) && n in CanonicalNames(rt.key, d)
    ensures n in OwnedNames(m, rt.key, d.name)
  {
    hide Canonical, Stale;
    var r :| 1 <= r <= d.replicas && n == Canonical(rt.key, d, r);
    assert Fitting(m[n], rt.key, d, r);
  }

  // ------------------------------------------------------------- idempotence

  /** Every canonical container is up to date and ready. */
  ghost predicate Steady(m: Containers, rt: Runtime, d: Deployment, k: int) {
    forall r :: 1 <= r <= k ==>
      var name := Canonical(rt.key, d, r);
      name in m && !Stale(m[name], d.specHash) && Ready(m[name].state)
  }

  /** Nothing that others can see has changed: no write to specs or containers, no write to a
      status. Only time has passed, and a restart streak may have been reset. */
  ghost predicate Idle(c: Cluster, e: Cluster) {
    e.specs == c.specs && e.statuses == c.statuses && e.containers == c.containers && e.trace == c.trace
  }

  lemma ReplicaIdle(o: Oracle, cfg: SelfHeal, c: Cluster, rt: Runtime, d: Deployment, r: nat)
    requires FaultFree(o)
    requires var name := Canonical(rt.key, d, r);
             name in c.containers && !Stale(c.containers[name], d.specHash) && Ready(c.containers[name].state)
    ensures EnsureReplica(o, cfg, c, rt, d, r).ok && Idle(c, EnsureReplica(o, cfg, c, rt, d, r).cluster)
  {
    var name := Canonical(rt.key, d, r);
    hide Canonical, Replace, HealContainer, MarkedHealthy;
    var drifted := Drifted(o, Tick(o, c), name, d.specHash);
    assert !drifted.yes && Idle(c, drifted.cluster);
  }

  lemma {:induction false} ReplicasIdle(o: Oracle, cfg: SelfHeal, c: Cluster, rt: Runtime, d: Deployment, k: nat)
    requires FaultFree(o) && Steady(c.containers, rt, d, k)
    ensures EnsureReplicas(o, cfg, c, rt, d, k).ok && Idle(c, EnsureReplicas(o, cfg, c, rt, d, k).cluster)
  {
    hide EnsureReplica, Canonical;
    if k > 0 {
      ReplicasIdle(o, cfg, c, rt, d, k - 1);
      ReplicaIdle(o, cfg, EnsureReplicas(o, cfg, c, rt, d, k - 1).cluster, rt, d, k);
    }
  }

  /** Idempotence: on a deployment that is ready, up to date and without surplus, a pass
      issues no run, no removal, no rename and no status. */
  lemma EnsureIdle(o: Oracle, cfg: SelfHeal, c: Cluster, rt: Runtime, d: Deployment)
    requires FaultFree(o) && d.replicas >= 0
    requires Steady(c.containers, rt, d, d.replicas) && Surplus(c.containers, rt, d) == {}
    ensures Ensure(o, cfg, c, rt, d).ok && Idle(c, Ensure(o, cfg, c, rt, d).cluster)
  {
    hide Steady, EnsureReplicas, RemoveExtra;
    ReplicasIdle(o, cfg, c, rt, d, d.replicas);
    RemoveExtraWorks(o, EnsureReplicas(o, cfg, c, rt, d, d.replicas).cluster, rt, d);
  }

  /** Once a pass has succeeded, a second one does nothing as soon as all its containers are
      ready. */
  lemma SecondPassIdle(o: Oracle, later: Oracle, cfg: SelfHeal, c: Cluster, rt: Runtime, d: Deployment)
    requires FaultFree(o) && FaultFree(later) && d.specHash != "" && d.replicas >= 0
    requires Labelled(c.containers, rt.key, d) && Clear(c.containers, rt, d, d.replicas)
    requires forall n :: n in CanonicalNames(rt.key, d) && n in Ensure(o, cfg, c, rt, d).cluster.containers ==>
               Ready(Ensure(o, cfg, c, rt, d).cluster.containers[n].state)
    ensures var first := Ensure(o, cfg, c, rt, d);
            var second := Ensure(later, cfg, first.cluster, rt, d);
            first.ok && second.ok && Idle(first.cluster, second.cluster)
  {
    Converges(o, cfg, c, rt, d);
    var e := Ensure(o, cfg, c, rt, d).cluster;
    hide Ensure, Canonical, Clear, Stale;
    var m := e.containers;
    forall n | n in CanonicalNames(rt.key, d)
      ensures n in m && n !in Surplus(m, rt, d)
    {
      var r :| 1 <= r <= d.replicas && n == Canonical(rt.key, d, r);
      assert Fitting(m[n], rt.key, d, r);
    }
    assert Steady(m, rt, d, d.replicas) by {
      forall r | 1 <= r <= d.replicas
        ensures Canonical(rt.key, d, r) in CanonicalNames(rt.key, d)
      {
      }
    }
    assert Surplus(m, rt, d) == {} by { hide FirstNames; }
    EnsureIdle(later, cfg, e, rt, d);
  }
}
