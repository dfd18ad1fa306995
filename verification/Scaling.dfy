/** What a rollout without failures makes of a deployment's containers, told of their names and
    labels alone; and that the strategy decides whether a replacement runs beside the old
    container. */
module Scaling {
  import opened Runtimes
  import opened Naming
  import opened Sorting
  import opened Statuses
  import opened Restarts
  import opened Docker
  import opened Rollout
  import opened Locality
  import opened Convergence

  /** The labels that make a container one of a deployment's. */
  predicate Bears(x: Container, key: Key, deployment: string) {
    x.managed && x.namespace == key.namespace && x.instance == key.name && x.service == deployment
  }

  /** Started from the digest of the spec, as either of the two labels has it. */
  predicate OfDigest(x: Container, hash: string) {
    x.hash == hash || (x.hash == "" && x.legacyHash == hash)
  }

  /** Every replica has its container, under its own name and labels, from the digest of the spec. */
  ghost predicate Complete(m: Containers, key: Key, d: Deployment) {
    forall r :: 1 <= r <= d.replicas ==>
      var name := Canonical(key, d, r);
      && name in m && Bears(m[name], key, d.name) && m[name].replica == r
      && (m[name].revision == "" || m[name].revision == d.revision) && OfDigest(m[name], d.specHash)
  }

  /** Out of the range of the replicas, or of another revision. */
  predicate OutOfPlace(x: Container, d: Deployment) {
    x.replica > d.replicas || (x.revision != "" && x.revision != d.revision)
  }

  /** A pass that succeeds without failures. Every replica has its container; no container of the
      deployment is out of the range of the replicas or of another revision; of the containers
      under other names exactly those are gone, and the rest are as they were. */
  lemma EnsureScales(o: Oracle, cfg: SelfHeal, c: Cluster, rt: Runtime, d: Deployment)
    requires FaultFree(o) && d.specHash != "" && d.replicas >= 0
    requires Labelled(c.containers, rt.key, d) && Ensure(o, cfg, c, rt, d).ok
    ensures var m0, m := c.containers, Ensure(o, cfg, c, rt, d).cluster.containers;
            && Complete(m, rt.key, d)
            && (forall n :: n in m && Bears(m[n], rt.key, d.name) ==> !OutOfPlace(m[n], d))
            && (forall n :: n !in CanonicalNames(rt.key, d) ==>
                  (n in m <==> n in m0 && !(Bears(m0[n], rt.key, d.name) && OutOfPlace(m0[n], d)))
                  && (n in m ==> m[n] == m0[n]))
  {
    Converges(o, cfg, c, rt, d);
    hide Ensure, Canonical, CanonicalNames, Clear;
    var m0, m := c.containers, Ensure(o, cfg, c, rt, d).cluster.containers;
    CompleteFrom(m, rt, d);
    forall n | n in m && Bears(m[n], rt.key, d.name)
      ensures !OutOfPlace(m[n], d)
    {
      if n in CanonicalNames(rt.key, d) {
        CanonicalInPlace(m, rt.key, d, n);
      }
    }
  }

  lemma CompleteFrom(m: Containers, rt: Runtime, d: Deployment)
    requires Fresh(m, rt, d, d.replicas) && Labelled(m, rt.key, d) && d.specHash != ""
    ensures Complete(m, rt.key, d)
  {
    hide Canonical;
  }

  lemma CanonicalInPlace(m: Containers, key: Key, d: Deployment, n: string)
    requires Labelled(m, key, d) && n in m && n in CanonicalNames(key, d)
    ensures !OutOfPlace(m[n], d)
  {
    hide Canonical;
    var r :| 1 <= r <= d.replicas && n == Canonical(key, d, r);
  }

  /** The deployment has exactly the containers of replicas 1 to k, up to date. */
  ghost predicate Scaled(m: Containers, key: Key, d: Deployment, k: int) {
    && Complete(m, key, d.(replicas := k))
    && forall n :: n in m && Bears(m[n], key, d.name) ==> n in FirstNames(key, d, k)
  }

  lemma NamesAlike(key: Key, d: Deployment, k: int)
    ensures forall r: nat :: Canonical(key, d.(replicas := k), r) == Canonical(key, d, r)
  {
    hide Sanitized;
  }

  /** Scaling, up or down: from exactly the first n containers of a deployment, up to date, a pass
      without failures that asks for k succeeds, leaves exactly the first k, and touches no
      container of any other owner or deployment. */
  lemma ScalesTo(o: Oracle, cfg: SelfHeal, c: Cluster, rt: Runtime, d: Deployment, n: nat)
    requires FaultFree(o) && d.specHash != "" && d.replicas >= 0
    requires Scaled(c.containers, rt.key, d, n)
    requires forall r :: 1 <= r <= d.replicas && Canonical(rt.key, d, r) in c.containers ==>
               Bears(c.containers[Canonical(rt.key, d, r)], rt.key, d.name)
    ensures var out := Ensure(o, cfg, c, rt, d);
            && out.ok && Scaled(out.cluster.containers, rt.key, d, d.replicas)
            && forall x :: x in c.containers && !Bears(c.containers[x], rt.key, d.name) ==>
                 x in out.cluster.containers && out.cluster.containers[x] == c.containers[x]
  {
    var m0 := c.containers;
    ScaledLabelled(m0, rt, d, n);
    Converges(o, cfg, c, rt, d);
    EnsureScales(o, cfg, c, rt, d);
    var m := Ensure(o, cfg, c, rt, d).cluster.containers;
    hide Ensure, Canonical, Clear, Labelled, Fresh, OutOfPlace, Complete, Surplus;
    assert d.(replicas := d.replicas) == d;
    forall x | x in m && Bears(m[x], rt.key, d.name)
      ensures x in FirstNames(rt.key, d, d.replicas)
    {
      if x !in CanonicalNames(rt.key, d) {
        ScaledSurplus(m0, rt.key, d, n, x);
      }
    }
    forall x | x in m0 && !Bears(m0[x], rt.key, d.name)
      ensures x in m && m[x] == m0[x]
    {
      NotCanonical(m0, rt.key, d, x);
    }
  }

  lemma NotCanonical(m: Containers, key: Key, d: Deployment, x: string)
    requires forall r :: 1 <= r <= d.replicas && Canonical(key, d, r) in m ==> Bears(m[Canonical(key, d, r)], key, d.name)
    requires x in m && !Bears(m[x], key, d.name)
    ensures x !in CanonicalNames(key, d)
  {
    hide Canonical;
  }

  lemma ScaledLabelled(m: Containers, rt: Runtime, d: Deployment, n: nat)
    requires Scaled(m, rt.key, d, n) && d.specHash != ""
    requires forall r :: 1 <= r <= d.replicas && Canonical(rt.key, d, r) in m ==> Bears(m[Canonical(rt.key, d, r)], rt.key, d.name)
    ensures Labelled(m, rt.key, d) && Clear(m, rt, d, d.replicas)
  {
    NamesAlike(rt.key, d, n);
    hide Canonical, SurgeName;
    forall r | 1 <= r <= d.replicas && Canonical(rt.key, d, r) in m
      ensures Fitting(m[Canonical(rt.key, d, r)], rt.key, d, r) && !Stale(m[Canonical(rt.key, d, r)], d.specHash)
    {
      ScaledAt(m, rt.key, d, n, r);
    }
  }

  lemma ScaledAt(m: Containers, key: Key, d: Deployment, n: nat, r: nat)
    requires Scaled(m, key, d, n) && Canonical(key, d, r) in m && Bears(m[Canonical(key, d, r)], key, d.name)
    ensures 1 <= r <= n
    ensures var x := m[Canonical(key, d, r)];
            x.replica == r && (x.revision == "" || x.revision == d.revision) && OfDigest(x, d.specHash)
  {
    var i :| 1 <= i <= n && Canonical(key, d, r) == Canonical(key, d, i);
    CanonicalInjective(key, d, r, i);
    NamesAlike(key, d, n);
    hide Canonical;
  }

  lemma ScaledSurplus(m: Containers, key: Key, d: Deployment, n: nat, x: string)
    requires Scaled(m, key, d, n) && x in m && Bears(m[x], key, d.name)
    requires x !in CanonicalNames(key, d)
    ensures OutOfPlace(m[x], d)
  {
    var r :| 1 <= r <= n && x == Canonical(key, d, r);
    ScaledAt(m, key, d, n, r);
    hide Canonical;
  }

  // ------------------------------------------------- beside the old container or not

  /** At every point between two states the only names that may be new are the ones given. */
  ghost predicate NewOnly(c: Cluster, e: Cluster, names: set<string>) {
    && c.trace <= e.trace && e.containers.Keys <= c.containers.Keys + names
    && forall i :: |c.trace| <= i < |e.trace| ==> e.trace[i].containers.Keys <= c.containers.Keys + names
  }

  lemma NewOnlyTransitive(a: Cluster, b: Cluster, c: Cluster, s: set<string>, t: set<string>)
    requires NewOnly(a, b, s) && NewOnly(b, c, t) && s <= t
    ensures NewOnly(a, c, t)
  {
    forall i | |a.trace| <= i < |c.trace|
      ensures c.trace[i].containers.Keys <= a.containers.Keys + t
    {
      if i < |b.trace| {
        assert c.trace[i] == b.trace[i];
      }
    }
  }

  lemma NewOnlyTick(o: Oracle, c: Cluster, names: set<string>)
    ensures NewOnly(c, Tick(o, c), names)
  {
  }

  lemma NewOnlyWrite(c: Cluster, rt: Runtime, phase: Phase, names: set<string>)
    ensures NewOnly(c, WritePhase(c, rt, phase), names)
  {
    hide NewStatus;
  }

  lemma NewOnlyRemove(o: Oracle, c: Cluster, name: string, names: set<string>)
    ensures NewOnly(c, RemoveContainer(o, c, name).cluster, names)
  {
  }

  lemma NewOnlyLaunch(o: Oracle, c: Cluster, rt: Runtime, d: Deployment, replica: int, name: string, names: set<string>)
    requires name in names
    ensures NewOnly(c, Launch(o, c, rt, d, replica, name).cluster, names)
  {
  }

  lemma NewOnlyRun(o: Oracle, c: Cluster, rt: Runtime, d: Deployment, replica: int, name: string, names: set<string>)
    requires name in names
    ensures NewOnly(c, RunContainer(o, c, rt, d, replica, name).cluster, names)
  {
    hide NewOnly, Launch, WritePhase;
    var pulling := WritePhase(c, rt, Pulling);
    var starting := WritePhase(pulling, rt, Starting);
    NewOnlyWrite(c, rt, Pulling, names);
    NewOnlyWrite(pulling, rt, Starting, names);
    NewOnlyLaunch(o, starting, rt, d, replica, name, names);
    NewOnlyTransitive(c, pulling, starting, names, names);
    NewOnlyTransitive(c, starting, RunContainer(o, c, rt, d, replica, name).cluster, names, names);
  }

  lemma NewOnlyMark(c: Cluster, name: string, r: Record, names: set<string>)
    ensures NewOnly(c, SetRecord(c, name, r), names) && NewOnly(c, MarkHealthy(c, name), names)
  {
  }

  lemma NewOnlyHeal(o: Oracle, cfg: SelfHeal, c: Cluster, rt: Runtime, d: Deployment, replica: int, name: string, names: set<string>)
    requires name in names
    ensures NewOnly(c, HealContainer(o, cfg, c, rt, d, replica, name).cluster, names)
  {
    hide NewOnly, WritePhase, RemoveContainer, RunContainer, Judge, Healed, MarkHealthy;
    var noted := SetRecord(c, name, Healed(cfg, RecordOf(c, name), c.now));
    var updating := WritePhase(noted, rt, Updating);
    var removed := RemoveContainer(o, updating, name).cluster;
    var run := RunContainer(o, removed, rt, d, replica, name).cluster;
    NewOnlyMark(c, name, Healed(cfg, RecordOf(c, name), c.now), names);
    NewOnlyWrite(noted, rt, Updating, names);
    NewOnlyRemove(o, updating, name, names);
    NewOnlyRun(o, removed, rt, d, replica, name, names);
    NewOnlyTransitive(c, noted, updating, names, names);
    NewOnlyTransitive(c, updating, removed, names, names);
    NewOnlyTransitive(c, removed, run, names, names);
  }

  lemma NewOnlySettle(o: Oracle, cfg: SelfHeal, c: Cluster, rt: Runtime, d: Deployment, replica: int, name: string, names: set<string>)
    requires name in names
    ensures NewOnly(c, Settle(o, cfg, c, rt, d, replica, name).cluster, names)
  {
    hide NewOnly, HealContainer, MarkHealthy;
    var t := Tick(o, c);
    NewOnlyTick(o, c, names);
    NewOnlyMark(t, name, RecordOf(t, name), names);
    NewOnlyTransitive(c, t, MarkHealthy(t, name), names, names);
    NewOnlyHeal(o, cfg, t, rt, d, replica, name, names);
    NewOnlyTransitive(c, t, HealContainer(o, cfg, t, rt, d, replica, name).cluster, names, names);
    NewOnlyHeal(o, cfg, MarkHealthy(t, name), rt, d, replica, name, names);
    NewOnlyTransitive(c, MarkHealthy(t, name), HealContainer(o, cfg, MarkHealthy(t, name), rt, d, replica, name).cluster, names, names);
  }

  lemma NewOnlyRecreate(o: Oracle, c: Cluster, rt: Runtime, d: Deployment, replica: nat, name: string, names: set<string>)
    requires name in names && !(d.strategy.RollingUpdate? && d.strategy.maxSurge >= 1)
    ensures NewOnly(c, Replace(o, c, rt, d, replica, name).cluster, names)
  {
    assert !Surges(d);
    hide NewOnly, RemoveContainer, RunContainer, ReplaceWithSurge, Surges;
    var removed := RemoveContainer(o, c, name).cluster;
    NewOnlyRemove(o, c, name, names);
    NewOnlyRun(o, removed, rt, d, replica, name, names);
    NewOnlyTransitive(c, removed, RunContainer(o, removed, rt, d, replica, name).cluster, names, names);
  }

  lemma NewOnlyTurn(o: Oracle, cfg: SelfHeal, c: Cluster, rt: Runtime, d: Deployment, replica: nat, names: set<string>)
    requires Canonical(rt.key, d, replica) in names && !(d.strategy.RollingUpdate? && d.strategy.maxSurge >= 1)
    ensures NewOnly(c, EnsureReplica(o, cfg, c, rt, d, replica).cluster, names)
  {
    hide NewOnly, Canonical, RunContainer, Replace, Settle, Exists, Drifted;
    var name := Canonical(rt.key, d, replica);
    var there := Exists(o, c, name).cluster;
    var drifted := Drifted(o, there, name, d.specHash).cluster;
    NewOnlyLook(o, c, name, d.specHash, names);
    NewOnlyRun(o, there, rt, d, replica, name, names);
    NewOnlyTransitive(c, there, RunContainer(o, there, rt, d, replica, name).cluster, names, names);
    NewOnlyRecreate(o, drifted, rt, d, replica, name, names);
    NewOnlyTransitive(c, drifted, Replace(o, drifted, rt, d, replica, name).cluster, names, names);
    NewOnlySettle(o, cfg, drifted, rt, d, replica, name, names);
    NewOnlyTransitive(c, drifted, Settle(o, cfg, drifted, rt, d, replica, name).cluster, names, names);
  }

  lemma NewOnlyLook(o: Oracle, c: Cluster, name: string, hash: string, names: set<string>)
    ensures var there := Exists(o, c, name).cluster;
            NewOnly(c, there, names) && NewOnly(c, Drifted(o, there, name, hash).cluster, names)
  {
  }

  lemma {:induction false} NewOnlyReplicas(o: Oracle, cfg: SelfHeal, c: Cluster, rt: Runtime, d: Deployment, k: nat)
    requires k <= d.replicas && !(d.strategy.RollingUpdate? && d.strategy.maxSurge >= 1)
    ensures NewOnly(c, EnsureReplicas(o, cfg, c, rt, d, k).cluster, CanonicalNames(rt.key, d))
  {
    hide EnsureReplica, Canonical;
    if k > 0 {
      NewOnlyReplicas(o, cfg, c, rt, d, k - 1);
      var before := EnsureReplicas(o, cfg, c, rt, d, k - 1).cluster;
      NewOnlyTurn(o, cfg, before, rt, d, k, CanonicalNames(rt.key, d));
      hide NewOnly, CanonicalNames;
      NewOnlyTransitive(c, before, EnsureReplica(o, cfg, before, rt, d, k).cluster, CanonicalNames(rt.key, d), CanonicalNames(rt.key, d));
    }
  }

  lemma {:induction false} NewOnlyRemoval(o: Oracle, c: Cluster, q: seq<string>, names: set<string>)
    ensures NewOnly(c, RemoveEach(o, c, q).cluster, names)
  {
    hide NewOnly, RemoveContainer;
    if q != [] {
      NewOnlyRemoval(o, c, q[..|q| - 1], names);
      var before := RemoveEach(o, c, q[..|q| - 1]).cluster;
      NewOnlyRemove(o, before, q[|q| - 1], names);
      NewOnlyTransitive(c, before, RemoveContainer(o, before, q[|q| - 1]).cluster, names, names);
    } else {
      NewOnlyItself(c, names);
    }
  }

  lemma NewOnlyItself(c: Cluster, names: set<string>)
    ensures NewOnly(c, c, names)
  {
  }

  lemma NewOnlyExtra(o: Oracle, c: Cluster, rt: Runtime, d: Deployment, names: set<string>)
    ensures NewOnly(c, RemoveExtra(o, c, rt, d).cluster, names)
  {
    hide NewOnly, RemoveEach;
    var listed := ListNames(o, c, OwnedNames(c.containers, rt.key, d.name));
    NewOnlyTick(o, c, names);
    if listed.value.Some? {
      var q := Filter(listed.value.value, IsExtra(c.containers, d));
      NewOnlyRemoval(o, listed.cluster, q, names);
      NewOnlyTransitive(c, listed.cluster, RemoveEach(o, listed.cluster, q).cluster, names, names);
    }
  }

  /** A strategy without surge, whatever fails: at no point of a pass is there a container that
      was not there before under any but the deployment's own canonical names, so none ever runs
      beside the one it replaces. */
  lemma NeverBeside(o: Oracle, cfg: SelfHeal, c: Cluster, rt: Runtime, d: Deployment)
    requires d.strategy.Recreate? || d.strategy.maxSurge <= 0
    ensures NewOnly(c, Ensure(o, cfg, c, rt, d).cluster, CanonicalNames(rt.key, d))
  {
    var names, k := CanonicalNames(rt.key, d), Replicas(d);
    hide NewOnly, RemoveExtra, CanonicalNames;
    if d.replicas > 0 {
      NewOnlyReplicas(o, cfg, c, rt, d, k);
    } else {
      NewOnlyItself(c, names);
    }
    var replicas := EnsureReplicas(o, cfg, c, rt, d, k).cluster;
    NewOnlyExtra(o, replicas, rt, d, names);
    NewOnlyTransitive(c, replicas, RemoveExtra(o, replicas, rt, d).cluster, names, names);
  }

  /** With surge and nothing failing, a replacement does run beside the old container: the pass
      shows both before it shows the old one gone. */
  lemma AlwaysBeside(o: Oracle, cfg: SelfHeal, c: Cluster, rt: Runtime, d: Deployment, r: nat)
    requires FaultFree(o) && d.strategy.RollingUpdate? && d.strategy.maxSurge >= 1
    requires var name := Canonical(rt.key, d, r);
             && name in c.containers && c.containers[name].hash != "" && c.containers[name].hash != d.specHash
             && SurgeName(rt.key, d, r, rt.generation) !in c.containers
    ensures exists i :: |c.trace| <= i < |EnsureReplica(o, cfg, c, rt, d, r).cluster.trace|
              && EnsureReplica(o, cfg, c, rt, d, r).cluster.trace[i].containers.Keys
                 == c.containers.Keys + {SurgeName(rt.key, d, r, rt.generation)}
  {
    var name, surge := Canonical(rt.key, d, r), SurgeName(rt.key, d, r, rt.generation);
    hide Canonical, SurgeName, NewStatus, Settle;
    var drifted := Drifted(o, Exists(o, c, name).cluster, name, d.specHash);
    assert drifted.yes && drifted.cluster.containers == c.containers && drifted.cluster.trace == c.trace;
    var run := RunContainer(o, drifted.cluster, rt, d, r, surge);
    assert run.ok && run.cluster.trace[|run.cluster.trace| - 1].containers.Keys == c.containers.Keys + {surge};
    assert |run.cluster.trace| > |c.trace|;
    hide RunContainer;
    var e := EnsureReplica(o, cfg, c, rt, d, r).cluster;
    assert e == ReplaceWithSurge(o, drifted.cluster, rt, d, r, name).cluster;
    assert run.cluster.trace <= e.trace;
    assert e.trace[|run.cluster.trace| - 1].containers.Keys == c.containers.Keys + {surge};
  }
}
