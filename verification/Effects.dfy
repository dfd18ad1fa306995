/** What a rollout can do to the containers, under every pattern of failures and at every
    intermediate point: it alters no container, it creates only containers of its own runtime
    and generation, and it removes another owner's container only from under one of the
    runtime's canonical names. */
module Effects {
  import opened Runtimes
  import opened Naming
  import opened Sorting
  import opened Statuses
  import opened Restarts
  import opened Docker
  import opened Rollout

  predicate MadeBy(c: Container, rt: Runtime) {
    Owned(c, rt.key) && c.generation == rt.generation
  }

  function NamesOfAll(rt: Runtime): set<string> {
    NamesOf(rt.key, rt.deployments)
  }

  /** From m0 to m nothing is altered, what is new is made by rt, and of other owners'
      containers only those under one of the names can be gone. */
  ghost predicate Within(m0: Containers, m: Containers, rt: Runtime, names: set<string>) {
    && (forall n :: n in m ==> (n in m0 && m[n] == m0[n]) || MadeBy(m[n], rt))
    && (forall n :: n in m0 && n !in names && !Owned(m0[n], rt.key) ==> n in m && m[n] == m0[n])
  }

  lemma WithinTransitive(a: Containers, b: Containers, c: Containers, rt: Runtime, names: set<string>)
    requires Within(a, b, rt, names) && Within(b, c, rt, names)
    ensures Within(a, c, rt, names)
  {
  }

  /** No status but that of rt has changed, and none is gone. */
  ghost predicate StatusesKept(c: Cluster, e: Cluster, rt: Runtime) {
    && c.statuses.Keys <= e.statuses.Keys
    && forall k :: k != rt.key.Path() ==>
      (k in e.statuses <==> k in c.statuses) && (k in c.statuses ==> e.statuses[k] == c.statuses[k])
  }

  /** Within, at every point between two states; the specs stay as they are. */
  ghost predicate Pass(c: Cluster, e: Cluster, rt: Runtime, names: set<string>) {
    && c.trace <= e.trace
    && e.specs == c.specs && c.tick <= e.tick && c.now <= e.now
    && StatusesKept(c, e, rt)
    && Within(c.containers, e.containers, rt, names)
    && forall i :: |c.trace| <= i < |e.trace| ==>
         e.trace[i].specs == c.specs && Within(c.containers, e.trace[i].containers, rt, names)
  }

  /** rt is what memory holds for its key. */
  ghost predicate Current(c: Cluster, rt: Runtime) {
    rt.key.Path() in c.specs && c.specs[rt.key.Path()] == rt
  }

  lemma PassReflexive(c: Cluster, rt: Runtime, names: set<string>)
    ensures Pass(c, c, rt, names)
  {
  }

  lemma PassTransitive(a: Cluster, b: Cluster, c: Cluster, rt: Runtime, names: set<string>)
    requires Pass(a, b, rt, names) && Pass(b, c, rt, names)
    ensures Pass(a, c, rt, names)
  {
    forall i | |a.trace| <= i < |c.trace|
      ensures c.trace[i].specs == a.specs && Within(a.containers, c.trace[i].containers, rt, names)
    {
      if i < |b.trace| {
        assert c.trace[i] == b.trace[i];
      } else {
        WithinTransitive(a.containers, b.containers, c.trace[i].containers, rt, names);
      }
    }
    WithinTransitive(a.containers, b.containers, c.containers, rt, names);
  }

  lemma PassTick(o: Oracle, c: Cluster, rt: Runtime, names: set<string>)
    ensures Pass(c, Tick(o, c), rt, names)
  {
  }

  lemma PassSet(c: Cluster, m: Containers, rt: Runtime, names: set<string>)
    requires Within(c.containers, m, rt, names)
    ensures Pass(c, SetContainers(c, m), rt, names)
  {
  }

  lemma PassRecord(c: Cluster, name: string, r: Record, rt: Runtime, names: set<string>)
    ensures Pass(c, SetRecord(c, name, r), rt, names)
  {
  }

  lemma PassWrite(c: Cluster, rt: Runtime, phase: Phase, names: set<string>)
    requires Current(c, rt)
    ensures Pass(c, WritePhase(c, rt, phase), rt, names) && WritePhase(c, rt, phase).containers == c.containers
  {
    hide NewStatus;
    assert c.specs[rt.key.Path() := rt] == c.specs;
  }

  lemma PassRemove(o: Oracle, c: Cluster, name: string, rt: Runtime, names: set<string>)
    requires name in names || name !in c.containers || Owned(c.containers[name], rt.key)
    ensures Pass(c, RemoveContainer(o, c, name).cluster, rt, names)
  {
    var m := c.containers - {name};
    var t := Tick(o, c);
    WithinLess(c.containers, name, rt, names);
    PassTick(o, c, rt, names);
    PassSet(t, m, rt, names);
    hide Pass, Within;
    PassTransitive(c, t, SetContainers(t, m), rt, names);
  }

  lemma WithinLess(m: Containers, name: string, rt: Runtime, names: set<string>)
    requires name in names || name !in m || Owned(m[name], rt.key)
    ensures Within(m, m - {name}, rt, names)
  {
  }

  lemma WithinRenamed(m: Containers, from: string, to: string, rt: Runtime, names: set<string>)
    requires from in m && to !in m && MadeBy(m[from], rt)
    ensures Within(m, (m - {from})[to := m[from]], rt, names)
  {
    hide Owned;
    assert Owned(m[from], rt.key);
  }

  lemma PassRename(o: Oracle, c: Cluster, from: string, to: string, rt: Runtime, names: set<string>)
    requires from in c.containers ==> MadeBy(c.containers[from], rt)
    ensures Pass(c, RenameContainer(o, c, from, to).cluster, rt, names)
  {
    var t := Tick(o, c);
    PassTick(o, c, rt, names);
    if from in c.containers && to !in c.containers {
      var m := (c.containers - {from})[to := c.containers[from]];
      WithinRenamed(c.containers, from, to, rt, names);
      PassSet(t, m, rt, names);
      hide Pass, Within;
      PassTransitive(c, t, SetContainers(t, m), rt, names);
    }
  }

  lemma PassRun(o: Oracle, c: Cluster, rt: Runtime, d: Deployment, replica: int, name: string, names: set<string>)
    requires Current(c, rt)
    ensures var out := RunContainer(o, c, rt, d, replica, name);
            Pass(c, out.cluster, rt, names)
            && (out.ok ==> out.cluster.containers == c.containers[name := Made(rt, d, replica, READY)] && name !in c.containers)
  {
    PassWrite(c, rt, Pulling, names);
    var c1 := WritePhase(c, rt, Pulling);
    PassWrite(c1, rt, Starting, names);
    var c2 := WritePhase(c1, rt, Starting);
    PassTransitive(c, c1, c2, rt, names);
    PassLaunch(o, c2, rt, d, replica, name, names);
    hide Pass, WritePhase, Launch;
    PassTransitive(c, c2, Launch(o, c2, rt, d, replica, name).cluster, rt, names);
  }

  lemma PassLaunch(o: Oracle, c: Cluster, rt: Runtime, d: Deployment, replica: int, name: string, names: set<string>)
    ensures var out := Launch(o, c, rt, d, replica, name);
            Pass(c, out.cluster, rt, names)
            && (out.ok ==> out.cluster.containers == c.containers[name := Made(rt, d, replica, READY)] && name !in c.containers)
  {
  }

  lemma PassHeal(o: Oracle, cfg: SelfHeal, c: Cluster, rt: Runtime, d: Deployment, replica: int, name: string, names: set<string>)
    requires Current(c, rt) && name in names
    ensures Pass(c, HealContainer(o, cfg, c, rt, d, replica, name).cluster, rt, names)
  {
    var rec := RecordOf(c, name);
    var noted := SetRecord(c, name, Healed(cfg, rec, c.now));
    PassRecord(c, name, Healed(cfg, rec, c.now), rt, names);
    PassWrite(noted, rt, Updating, names);
    hide Pass, Healed, Judge, RunContainer, WritePhase, RemoveContainer;
    var c1 := WritePhase(noted, rt, Updating);
    PassTransitive(c, noted, c1, rt, names);
    PassRemove(o, c1, name, rt, names);
    var removed := RemoveContainer(o, c1, name);
    PassTransitive(c, c1, removed.cluster, rt, names);
    PassKeepsCurrent(c, removed.cluster, rt, names);
    PassRun(o, removed.cluster, rt, d, replica, name, names);
    PassTransitive(c, removed.cluster, RunContainer(o, removed.cluster, rt, d, replica, name).cluster, rt, names);
  }

  lemma PassKeepsCurrent(c: Cluster, e: Cluster, rt: Runtime, names: set<string>)
    requires Pass(c, e, rt, names)
    ensures Current(c, rt) <==> Current(e, rt)
  {
  }

  lemma PassSettle(o: Oracle, cfg: SelfHeal, c: Cluster, rt: Runtime, d: Deployment, replica: int, name: string, names: set<string>)
    requires Current(c, rt) && name in names
    ensures Pass(c, Settle(o, cfg, c, rt, d, replica, name).cluster, rt, names)
  {
    var t := Tick(o, c);
    PassTick(o, c, rt, names);
    PassRecord(t, name, MarkedHealthy(RecordOf(t, name)), rt, names);
    PassTransitive(c, t, MarkHealthy(t, name), rt, names);
    hide Pass, HealContainer, MarkedHealthy;
    PassHeal(o, cfg, t, rt, d, replica, name, names);
    PassTransitive(c, t, HealContainer(o, cfg, t, rt, d, replica, name).cluster, rt, names);
  }

  lemma PassSurge(o: Oracle, c: Cluster, rt: Runtime, d: Deployment, replica: nat, names: set<string>)
    requires Current(c, rt) && Canonical(rt.key, d, replica) in names
    ensures Pass(c, ReplaceWithSurge(o, c, rt, d, replica, Canonical(rt.key, d, replica)).cluster, rt, names)
  {
    var name, surge := Canonical(rt.key, d, replica), SurgeName(rt.key, d, replica, rt.generation);
    SurgeNotCanonical(rt.key, d, replica, rt.generation, replica);
    hide Canonical, SurgeName, Pass, RunContainer;
    PassRun(o, c, rt, d, replica, surge, names);
    var run := RunContainer(o, c, rt, d, replica, surge);
    if run.ok {
      PassRemove(o, run.cluster, name, rt, names);
      var removed := RemoveContainer(o, run.cluster, name);
      PassTransitive(c, run.cluster, removed.cluster, rt, names);
      if removed.ok {
        assert MadeBy(removed.cluster.containers[surge], rt);
        PassRename(o, removed.cluster, surge, name, rt, names);
        PassTransitive(c, removed.cluster, RenameContainer(o, removed.cluster, surge, name).cluster, rt, names);
      }
    }
  }

  lemma PassReplace(o: Oracle, c: Cluster, rt: Runtime, d: Deployment, replica: nat, names: set<string>)
    requires Current(c, rt) && Canonical(rt.key, d, replica) in names
    ensures Pass(c, Replace(o, c, rt, d, replica, Canonical(rt.key, d, replica)).cluster, rt, names)
  {
    var name := Canonical(rt.key, d, replica);
    hide Canonical, Pass, RunContainer, RemoveContainer, ReplaceWithSurge;
    if Surges(d) {
      PassSurge(o, c, rt, d, replica, names);
    } else {
      PassRemove(o, c, name, rt, names);
      var removed := RemoveContainer(o, c, name);
      PassKeepsCurrent(c, removed.cluster, rt, names);
      PassRun(o, removed.cluster, rt, d, replica, name, names);
      PassTransitive(c, removed.cluster, RunContainer(o, removed.cluster, rt, d, replica, name).cluster, rt, names);
    }
  }

  lemma PassReplica(o: Oracle, cfg: SelfHeal, c: Cluster, rt: Runtime, d: Deployment, replica: nat, names: set<string>)
    requires Current(c, rt) && Canonical(rt.key, d, replica) in names
    ensures Pass(c, EnsureReplica(o, cfg, c, rt, d, replica).cluster, rt, names)
  {
    var name := Canonical(rt.key, d, replica);
    var t := Tick(o, c);
    PassTick(o, c, rt, names);
    PassTick(o, t, rt, names);
    PassTick(o, Tick(o, t), rt, names);
    PassTransitive(c, t, Tick(o, t), rt, names);
    PassTransitive(c, Tick(o, t), Tick(o, Tick(o, t)), rt, names);
    var there := Exists(o, c, name);
    if !there.yes {
      hide Pass, Canonical, RunContainer;
      PassRun(o, t, rt, d, replica, name, names);
      PassTransitive(c, t, RunContainer(o, t, rt, d, replica, name).cluster, rt, names);
    } else {
      var drifted := Drifted(o, t, name, d.specHash);
      hide Pass, Canonical, Replace, Settle;
      PassKeepsCurrent(c, drifted.cluster, rt, names);
      if drifted.yes {
        PassReplace(o, drifted.cluster, rt, d, replica, names);
        PassTransitive(c, drifted.cluster, Replace(o, drifted.cluster, rt, d, replica, name).cluster, rt, names);
      } else {
        PassSettle(o, cfg, drifted.cluster, rt, d, replica, name, names);
        PassTransitive(c, drifted.cluster, Settle(o, cfg, drifted.cluster, rt, d, replica, name).cluster, rt, names);
      }
    }
  }

  lemma {:induction false} PassReplicas(o: Oracle, cfg: SelfHeal, c: Cluster, rt: Runtime, d: Deployment, k: nat, names: set<string>)
    requires Current(c, rt) && FirstNames(rt.key, d, k) <= names
    ensures Pass(c, EnsureReplicas(o, cfg, c, rt, d, k).cluster, rt, names)
  {
    hide Pass, Canonical, EnsureReplica, Current;
    if k == 0 {
      PassReflexive(c, rt, names);
    } else {
      FirstNamesStep(rt.key, d, k);
      PassReplicas(o, cfg, c, rt, d, k - 1, names);
      var before := EnsureReplicas(o, cfg, c, rt, d, k - 1).cluster;
      PassKeepsCurrent(c, before, rt, names);
      PassReplica(o, cfg, before, rt, d, k, names);
      PassTransitive(c, before, EnsureReplica(o, cfg, before, rt, d, k).cluster, rt, names);
    }
  }

  lemma {:induction false} PassRemoveEach(o: Oracle, c: Cluster, q: seq<string>, rt: Runtime, names: set<string>)
    requires forall n :: n in q && n in c.containers ==> Owned(c.containers[n], rt.key)
    ensures Pass(c, RemoveEach(o, c, q).cluster, rt, names)
    ensures RemoveEach(o, c, q).cluster.containers.Keys <= c.containers.Keys
    ensures forall n :: n in RemoveEach(o, c, q).cluster.containers ==> RemoveEach(o, c, q).cluster.containers[n] == c.containers[n]
  {
    hide Pass, Owned;
    if q == [] {
      PassReflexive(c, rt, names);
    } else {
      var u, x := q[..|q| - 1], q[|q| - 1];
      assert forall n :: n in u ==> n in q;
      PassRemoveEach(o, c, u, rt, names);
      var before := RemoveEach(o, c, u);
      PassRemove(o, before.cluster, x, rt, names);
      PassTransitive(c, before.cluster, RemoveContainer(o, before.cluster, x).cluster, rt, names);
    }
  }

  lemma PassExtra(o: Oracle, c: Cluster, rt: Runtime, d: Deployment, names: set<string>)
    ensures Pass(c, RemoveExtra(o, c, rt, d).cluster, rt, names)
  {
    var t := Tick(o, c);
    PassTick(o, c, rt, names);
    var listed := ListNames(o, c, OwnedNames(c.containers, rt.key, d.name));
    if listed.value.Some? {
      var q := Filter(listed.value.value, IsExtra(c.containers, d));
      forall n | n in q && n in t.containers
        ensures Owned(t.containers[n], rt.key)
      {
        FilterMembers(listed.value.value, IsExtra(c.containers, d), n);
      }
      hide Pass, Owned;
      PassRemoveEach(o, t, q, rt, names);
      PassTransitive(c, t, RemoveEach(o, t, q).cluster, rt, names);
    }
  }

  lemma PassEnsure(o: Oracle, cfg: SelfHeal, c: Cluster, rt: Runtime, d: Deployment, names: set<string>)
    requires Current(c, rt) && CanonicalNames(rt.key, d) <= names
    ensures Pass(c, Ensure(o, cfg, c, rt, d).cluster, rt, names)
  {
    NegativeReplicas(rt.key, d);
    hide Pass, EnsureReplicas, RemoveExtra, CanonicalNames;
    PassReplicas(o, cfg, c, rt, d, Replicas(d), names);
    var replicas := EnsureReplicas(o, cfg, c, rt, d, Replicas(d)).cluster;
    PassExtra(o, replicas, rt, d, names);
    PassTransitive(c, replicas, RemoveExtra(o, replicas, rt, d).cluster, rt, names);
  }

  lemma NegativeReplicas(key: Key, d: Deployment)
    ensures FirstNames(key, d, Replicas(d)) == CanonicalNames(key, d)
  {
    hide Canonical;
  }

  lemma {:induction false} PassEnsureAll(o: Oracle, cfg: SelfHeal, c: Cluster, rt: Runtime, ds: seq<Deployment>, names: set<string>)
    requires Current(c, rt) && NamesOf(rt.key, ds) <= names
    ensures Pass(c, EnsureAll(o, cfg, c, rt, ds).cluster, rt, names)
  {
    hide Pass, Ensure, CanonicalNames, Current;
    if ds == [] {
      PassReflexive(c, rt, names);
    } else {
      var u, d := ds[..|ds| - 1], ds[|ds| - 1];
      PassEnsureAll(o, cfg, c, rt, u, names);
      var before := EnsureAll(o, cfg, c, rt, u).cluster;
      PassKeepsCurrent(c, before, rt, names);
      PassEnsure(o, cfg, before, rt, d, names);
      PassTransitive(c, before, Ensure(o, cfg, before, rt, d).cluster, rt, names);
    }
  }

  /** The effect of a whole reconciliation, for every oracle. */
  lemma ReconcileEffect(o: Oracle, cfg: SelfHeal, c: Cluster, rt: Runtime)
    requires Current(c, rt)
    ensures Pass(c, Reconcile(o, cfg, c, rt).cluster, rt, NamesOfAll(rt))
  {
    hide Pass, EnsureAll, NamesOf;
    PassEnsureAll(o, cfg, c, rt, rt.deployments, NamesOfAll(rt));
  }
}
