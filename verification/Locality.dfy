/** How far one turn of the replica loop reaches: its canonical name and its surge name. */
module Locality {
  import opened Runtimes
  import opened Naming
  import opened Statuses
  import opened Restarts
  import opened Docker
  import opened Rollout

  /** Containers under canonical names carry the labels of that name. */
  ghost predicate Labelled(m: Containers, key: Key, d: Deployment) {
    forall r :: 1 <= r <= d.replicas && Canonical(key, d, r) in m ==> Fitting(m[Canonical(key, d, r)], key, d, r)
  }

  predicate Fitting(x: Container, key: Key, d: Deployment, r: int) {
    OwnedBy(x, key, d.name) && x.replica == r && (x.revision == "" || x.revision == d.revision)
  }

  /** What the spec of a deployment has a place for: a replica it counts, of its revision or of
      none. Told of the labels, whatever the rollout makes of them. */
  predicate Wanted(x: Container, d: Deployment) {
    x.replica <= d.replicas && (x.revision == "" || x.revision == d.revision)
  }

  /** The strategy starts a replacement beside the old container. */
  predicate Beside(d: Deployment) {
    d.strategy.RollingUpdate? && d.strategy.maxSurge >= 1
  }

  /** The labels and the state a container is started with. */
  lemma MadeAs(rt: Runtime, d: Deployment, r: int)
    ensures var x := Made(rt, d, r, READY);
            && x.managed && x.legacy && x.namespace == rt.key.namespace && x.instance == rt.key.name && x.service == d.name
            && x.replica == r && x.generation == rt.generation && x.revision == d.revision && x.hash == d.specHash
            && x.state.running && x.state.health.NoCheck?
  {
  }

  /** Between two states only the names in s have changed, and what is new under them was
      started for one replica. Restart records change only for the same names. */
  ghost predicate Local(c: Cluster, e: Cluster, rt: Runtime, d: Deployment, replica: int, s: set<string>) {
    && c.now <= e.now
    && (forall n :: n !in s ==> (n in e.containers <==> n in c.containers))
    && (forall n :: n !in s && n in c.containers ==> e.containers[n] == c.containers[n])
    && (forall n :: n !in s ==> RecordOf(e, n) == RecordOf(c, n))
    && (forall n :: n in s && n in e.containers ==>
          (n in c.containers && e.containers[n] == c.containers[n])
          || e.containers[n] == Made(rt, d, replica, e.containers[n].state))
  }

  lemma LocalTransitive(a: Cluster, b: Cluster, c: Cluster, rt: Runtime, d: Deployment, replica: int, s: set<string>)
    requires Local(a, b, rt, d, replica, s) && Local(b, c, rt, d, replica, s)
    ensures Local(a, c, rt, d, replica, s)
  {
  }

  lemma LocalTick(o: Oracle, c: Cluster, rt: Runtime, d: Deployment, replica: int, s: set<string>)
    ensures Local(c, Tick(o, c), rt, d, replica, s)
  {
  }

  lemma LocalRecord(c: Cluster, name: string, r: Record, rt: Runtime, d: Deployment, replica: int, s: set<string>)
    requires name in s
    ensures Local(c, SetRecord(c, name, r), rt, d, replica, s)
  {
  }

  lemma LocalRemove(o: Oracle, c: Cluster, name: string, rt: Runtime, d: Deployment, replica: int, s: set<string>)
    requires name in s
    ensures Local(c, RemoveContainer(o, c, name).cluster, rt, d, replica, s)
  {
  }

  lemma LocalRename(o: Oracle, c: Cluster, from: string, to: string, rt: Runtime, d: Deployment, replica: int, s: set<string>)
    requires from in s && to in s
    requires from in c.containers ==> c.containers[from] == Made(rt, d, replica, c.containers[from].state)
    ensures Local(c, RenameContainer(o, c, from, to).cluster, rt, d, replica, s)
  {
  }

  lemma LocalRun(o: Oracle, c: Cluster, rt: Runtime, d: Deployment, replica: int, name: string, s: set<string>)
    requires name in s
    ensures var out := RunContainer(o, c, rt, d, replica, name);
            && Local(c, out.cluster, rt, d, replica, s)
            && (out.ok ==> out.cluster.containers == c.containers[name := Made(rt, d, replica, READY)])
  {
    hide NewStatus;
  }

  lemma LocalHeal(o: Oracle, cfg: SelfHeal, c: Cluster, rt: Runtime, d: Deployment, replica: int, name: string, s: set<string>)
    requires name in s
    ensures Local(c, HealContainer(o, cfg, c, rt, d, replica, name).cluster, rt, d, replica, s)
    ensures var h := HealContainer(o, cfg, c, rt, d, replica, name);
            h.restarted && h.ok ==> h.cluster.containers == c.containers[name := Made(rt, d, replica, READY)]
    ensures var h := HealContainer(o, cfg, c, rt, d, replica, name);
            !h.restarted ==> h.cluster.containers == c.containers && h.ok
    ensures HealContainer(o, cfg, c, rt, d, replica, name).restarted <==> Judge(cfg, RecordOf(c, name), c.now) == Attempt
  {
    hide NewStatus, Local, RunContainer, Healed, Judge;
    var rec := RecordOf(c, name);
    var noted := SetRecord(c, name, Healed(cfg, rec, c.now));
    LocalRecord(c, name, Healed(cfg, rec, c.now), rt, d, replica, s);
    LocalWrite(noted, rt, Updating, d, replica, s);
    var c1 := WritePhase(noted, rt, Updating);
    LocalTransitive(c, noted, c1, rt, d, replica, s);
    LocalRemove(o, c1, name, rt, d, replica, s);
    var removed := RemoveContainer(o, c1, name);
    LocalTransitive(c, c1, removed.cluster, rt, d, replica, s);
    LocalRun(o, removed.cluster, rt, d, replica, name, s);
    LocalTransitive(c, removed.cluster, RunContainer(o, removed.cluster, rt, d, replica, name).cluster, rt, d, replica, s);
  }

  lemma LocalWrite(c: Cluster, rt: Runtime, phase: Phase, d: Deployment, replica: int, s: set<string>)
    ensures Local(c, WritePhase(c, rt, phase), rt, d, replica, s)
  {
    hide NewStatus;
  }

  lemma LocalMark(c: Cluster, name: string, rt: Runtime, d: Deployment, replica: int, s: set<string>)
    requires name in s
    ensures Local(c, MarkHealthy(c, name), rt, d, replica, s)
    ensures MarkHealthy(c, name).containers == c.containers
  {
    LocalRecord(c, name, MarkedHealthy(RecordOf(c, name)), rt, d, replica, s);
  }

  /** What a settled container comes to: itself, or a fresh one if it was restarted. */
  lemma LocalSettle(o: Oracle, cfg: SelfHeal, c: Cluster, rt: Runtime, d: Deployment, replica: int, name: string, s: set<string>)
    requires name in s
    ensures var out := Settle(o, cfg, c, rt, d, replica, name);
            && Local(c, out.cluster, rt, d, replica, s)
            && (out.ok ==>
                  name in c.containers
                  && out.cluster.containers ==
                     if NeedsRestart(c.containers[name].state) && Judge(cfg, RecordOf(c, name), c.now + o.delay(c.tick)) == Attempt
                     then c.containers[name := Made(rt, d, replica, READY)] else c.containers)
  {
    var t := Tick(o, c);
    LocalTick(o, c, rt, d, replica, s);
    LocalMark(t, name, rt, d, replica, s);
    hide Local, HealContainer, MarkHealthy, Judge;
    LocalTransitive(c, t, MarkHealthy(t, name), rt, d, replica, s);
    LocalHeal(o, cfg, t, rt, d, replica, name, s);
    LocalTransitive(c, t, HealContainer(o, cfg, t, rt, d, replica, name).cluster, rt, d, replica, s);
  }

  lemma LocalSurge(o: Oracle, c: Cluster, rt: Runtime, d: Deployment, replica: nat, s: set<string>)
    requires Canonical(rt.key, d, replica) in s && SurgeName(rt.key, d, replica, rt.generation) in s
    ensures var name := Canonical(rt.key, d, replica);
            var out := ReplaceWithSurge(o, c, rt, d, replica, name);
            && Local(c, out.cluster, rt, d, replica, s)
            && (out.ok ==> out.cluster.containers == c.containers[name := Made(rt, d, replica, READY)])
  {
    var name, surge := Canonical(rt.key, d, replica), SurgeName(rt.key, d, replica, rt.generation);
    SurgeNotCanonical(rt.key, d, replica, rt.generation, replica);
    hide Canonical, SurgeName, Local, RunContainer;
    LocalRun(o, c, rt, d, replica, surge, s);
    var run := RunContainer(o, c, rt, d, replica, surge);
    if run.ok {
      RunOnFreeName(o, c, rt, d, replica, surge);
      LocalRemove(o, run.cluster, name, rt, d, replica, s);
      var removed := RemoveContainer(o, run.cluster, name);
      LocalTransitive(c, run.cluster, removed.cluster, rt, d, replica, s);
      if removed.ok {
        var renamed := RenameContainer(o, removed.cluster, surge, name);
        LocalRename(o, removed.cluster, surge, name, rt, d, replica, s);
        LocalTransitive(c, removed.cluster, renamed.cluster, rt, d, replica, s);
        if renamed.ok {
          assert renamed.cluster.containers == c.containers[name := Made(rt, d, replica, READY)];
        }
      }
    }
  }

  lemma RunOnFreeName(o: Oracle, c: Cluster, rt: Runtime, d: Deployment, replica: int, name: string)
    requires RunContainer(o, c, rt, d, replica, name).ok
    ensures name !in c.containers
  {
    hide NewStatus;
  }

  lemma Replaced(m: Containers, name: string, x: Container)
    ensures (m - {name})[name := x] == m[name := x]
  {
  }

  lemma LocalRecreate(o: Oracle, c: Cluster, rt: Runtime, d: Deployment, replica: nat, name: string, s: set<string>)
    requires name in s
    ensures var removed := RemoveContainer(o, c, name);
            var out := RunContainer(o, removed.cluster, rt, d, replica, name);
            && Local(c, removed.cluster, rt, d, replica, s)
            && Local(c, out.cluster, rt, d, replica, s)
            && (removed.ok && out.ok ==> out.cluster.containers == c.containers[name := Made(rt, d, replica, READY)])
  {
    LocalRemove(o, c, name, rt, d, replica, s);
    var removed := RemoveContainer(o, c, name);
    LocalRun(o, removed.cluster, rt, d, replica, name, s);
    assert removed.ok ==> removed.cluster.containers == c.containers - {name};
    hide Local, RunContainer, RemoveContainer;
    LocalTransitive(c, removed.cluster, RunContainer(o, removed.cluster, rt, d, replica, name).cluster, rt, d, replica, s);
    Replaced(c.containers, name, Made(rt, d, replica, READY));
  }

  lemma LocalReplace(o: Oracle, c: Cluster, rt: Runtime, d: Deployment, replica: nat, s: set<string>)
    requires Canonical(rt.key, d, replica) in s && SurgeName(rt.key, d, replica, rt.generation) in s
    ensures var name := Canonical(rt.key, d, replica);
            var out := Replace(o, c, rt, d, replica, name);
            && Local(c, out.cluster, rt, d, replica, s)
            && (out.ok ==> out.cluster.containers == c.containers[name := Made(rt, d, replica, READY)])
  {
    hide Canonical, SurgeName, Local, RunContainer, RemoveContainer, ReplaceWithSurge, Surges;
    if Surges(d) {
      LocalSurge(o, c, rt, d, replica, s);
    } else {
      LocalRecreate(o, c, rt, d, replica, Canonical(rt.key, d, replica), s);
    }
  }

  function Names(rt: Runtime, d: Deployment, replica: nat): set<string> {
    {Canonical(rt.key, d, replica), SurgeName(rt.key, d, replica, rt.generation)}
  }

  /** A container that is due for a restart: down or unhealthy, with self-heal on, restarts left
      and the backoff over. */
  ghost predicate Heals(cfg: SelfHeal, c: Cluster, name: string) {
    && name in c.containers && (!c.containers[name].state.running || c.containers[name].state.health.Unhealthy?)
    && cfg.enabled && RecordOf(c, name).streak < cfg.maxRestarts && c.now >= RecordOf(c, name).next
  }

  /** One replica, for every oracle: it touches its two names only, and when it succeeds its
      canonical container is a fresh ready one, or the old one as it was. In the latter case a
      container that was due for a restart has had it. */
  lemma ReplicaEffect(o: Oracle, cfg: SelfHeal, c: Cluster, rt: Runtime, d: Deployment, replica: nat)
    ensures var name := Canonical(rt.key, d, replica);
            var out := EnsureReplica(o, cfg, c, rt, d, replica);
            && Local(c, out.cluster, rt, d, replica, Names(rt, d, replica))
            && (out.ok ==>
                  || out.cluster.containers == c.containers[name := Made(rt, d, replica, READY)]
                  || (out.cluster.containers == c.containers && name in c.containers && !Heals(cfg, c, name)))
  {
    var name, s := Canonical(rt.key, d, replica), Names(rt, d, replica);
    var t := Tick(o, c);
    LocalTick(o, c, rt, d, replica, s);
    LocalTick(o, t, rt, d, replica, s);
    LocalTick(o, Tick(o, t), rt, d, replica, s);
    LocalTransitive(c, t, Tick(o, t), rt, d, replica, s);
    LocalTransitive(c, Tick(o, t), Tick(o, Tick(o, t)), rt, d, replica, s);
    var there := Exists(o, c, name);
    hide Local, Canonical, SurgeName, RunContainer, Replace, Settle;
    if !there.yes {
      LocalRun(o, t, rt, d, replica, name, s);
      LocalTransitive(c, t, RunContainer(o, t, rt, d, replica, name).cluster, rt, d, replica, s);
    } else {
      var drifted := Drifted(o, t, name, d.specHash);
      if drifted.yes {
        LocalReplace(o, drifted.cluster, rt, d, replica, s);
        LocalTransitive(c, drifted.cluster, Replace(o, drifted.cluster, rt, d, replica, name).cluster, rt, d, replica, s);
      } else {
        LocalSettle(o, cfg, drifted.cluster, rt, d, replica, name, s);
        LocalTransitive(c, drifted.cluster, Settle(o, cfg, drifted.cluster, rt, d, replica, name).cluster, rt, d, replica, s);
      }
    }
  }

  lemma OtherNames(rt: Runtime, d: Deployment, r: nat, replica: nat)
    requires r != replica
    ensures Canonical(rt.key, d, r) !in Names(rt, d, replica)
  {
    if Canonical(rt.key, d, r) == Canonical(rt.key, d, replica) {
      CanonicalInjective(rt.key, d, r, replica);
    }
    SurgeNotCanonical(rt.key, d, replica, rt.generation, r);
  }

  lemma LabelledKept(c: Cluster, e: Cluster, rt: Runtime, d: Deployment, replica: nat)
    requires Labelled(c.containers, rt.key, d) && Local(c, e, rt, d, replica, Names(rt, d, replica))
    ensures Labelled(e.containers, rt.key, d)
  {
    forall r | 1 <= r <= d.replicas && Canonical(rt.key, d, r) in e.containers
      ensures Fitting(e.containers[Canonical(rt.key, d, r)], rt.key, d, r)
    {
      if r != replica {
        OtherNames(rt, d, r, replica);
      }
    }
  }
}
