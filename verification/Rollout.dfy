/** Bringing a deployment's containers to its spec: replica by replica, with surge where the
    strategy asks for it, self-heal where a container is down, and removal of the surplus. */
module Rollout {
  import opened Runtimes
  import opened Naming
  import opened Sorting
  import opened Statuses
  import opened Restarts
  import opened Docker

  predicate Surges(d: Deployment) {
    d.strategy.RollingUpdate? && d.strategy.maxSurge > 0
  }

  datatype Healing = Healing(cluster: Cluster, restarted: bool, ok: bool)

  /** `healContainer` */
  function HealContainer(o: Oracle, cfg: SelfHeal, c: Cluster, rt: Runtime, d: Deployment, replica: int, name: string): Healing {
    var rec := RecordOf(c, name);
    var noted := SetRecord(c, name, Healed(cfg, rec, c.now));
    if Judge(cfg, rec, c.now) != Attempt then Healing(noted, false, true)
    else
      var removed := RemoveContainer(o, WritePhase(noted, rt, Updating), name);
      if !removed.ok then Healing(removed.cluster, true, false)
      else
        var run := RunContainer(o, removed.cluster, rt, d, replica, name);
        Healing(run.cluster, true, run.ok)
  }

  /** `markRestartHealthy` */
  function MarkHealthy(c: Cluster, name: string): Cluster {
    if Untried(RecordOf(c, name)) then c else SetRecord(c, name, MarkedHealthy(RecordOf(c, name)))
  }

  /** A container that is there and has the right digest. */
  function Settle(o: Oracle, cfg: SelfHeal, c: Cluster, rt: Runtime, d: Deployment, replica: int, name: string): Outcome {
    var state := Read(o, c, InspectState, name);
    if state.value.None? then Outcome(state.cluster, false)
    else
      var s := state.value.value.state;
      var marked := if Ready(s) then MarkHealthy(state.cluster, name) else state.cluster;
      if !NeedsRestart(s) then Outcome(marked, true)
      else
        var healing := HealContainer(o, cfg, marked, rt, d, replica, name);
        Outcome(healing.cluster, healing.ok)
  }

  /** `replaceContainerWithSurge` */
  function ReplaceWithSurge(o: Oracle, c: Cluster, rt: Runtime, d: Deployment, replica: nat, name: string): Outcome {
    var surge := SurgeName(rt.key, d, replica, rt.generation);
    var run := RunContainer(o, c, rt, d, replica, surge);
    if !run.ok then run
    else
      var removed := RemoveContainer(o, run.cluster, name);
      if !removed.ok then removed else RenameContainer(o, removed.cluster, surge, name)
  }

  /** A container whose digest is not the spec's. */
  function Replace(o: Oracle, c: Cluster, rt: Runtime, d: Deployment, replica: nat, name: string): Outcome {
    if Surges(d) then ReplaceWithSurge(o, c, rt, d, replica, name)
    else
      var removed := RemoveContainer(o, c, name);
      if !removed.ok then removed else RunContainer(o, removed.cluster, rt, d, replica, name)
  }

  /** One turn of the replica loop of `ensureDeployment`. */
  function EnsureReplica(o: Oracle, cfg: SelfHeal, c: Cluster, rt: Runtime, d: Deployment, replica: nat): Outcome {
    var name := Canonical(rt.key, d, replica);
    var there := Exists(o, c, name);
    if !there.yes then RunContainer(o, there.cluster, rt, d, replica, name)
    else
      var drifted := Drifted(o, there.cluster, name, d.specHash);
      if drifted.yes then Replace(o, drifted.cluster, rt, d, replica, name)
      else Settle(o, cfg, drifted.cluster, rt, d, replica, name)
  }

  function EnsureReplicas(o: Oracle, cfg: SelfHeal, c: Cluster, rt: Runtime, d: Deployment, k: nat): Outcome {
    if k == 0 then Outcome(c, true)
    else
      var before := EnsureReplicas(o, cfg, c, rt, d, k - 1);
      if !before.ok then before else EnsureReplica(o, cfg, before.cluster, rt, d, k)
  }

  /** Replica out of range, or of another revision. */
  predicate Extra(c: Container, d: Deployment) {
    c.replica > d.replicas || (c.revision != "" && c.revision != d.revision)
  }

  function OwnedNames(m: Containers, key: Key, deployment: string): set<string> {
    set n | n in m && OwnedBy(m[n], key, deployment)
  }

  function IsExtra(m: Containers, d: Deployment): string -> bool {
    (n: string) => n in m && Extra(m[n], d)
  }

  function RemoveEach(o: Oracle, c: Cluster, names: seq<string>): Outcome {
    if names == [] then Outcome(c, true)
    else
      var before := RemoveEach(o, c, names[..|names| - 1]);
      if !before.ok then before else RemoveContainer(o, before.cluster, names[|names| - 1])
  }

  /** `removeExtraReplicas` */
  function RemoveExtra(o: Oracle, c: Cluster, rt: Runtime, d: Deployment): Outcome {
    var listed := ListNames(o, c, OwnedNames(c.containers, rt.key, d.name));
    if listed.value.None? then Outcome(listed.cluster, false)
    else RemoveEach(o, listed.cluster, Filter(listed.value.value, IsExtra(c.containers, d)))
  }

  function Replicas(d: Deployment): nat {
    if d.replicas < 0 then 0 else d.replicas
  }

  /** `ensureDeployment` */
  function Ensure(o: Oracle, cfg: SelfHeal, c: Cluster, rt: Runtime, d: Deployment): Outcome {
    var replicas := EnsureReplicas(o, cfg, c, rt, d, Replicas(d));
    if !replicas.ok then replicas else RemoveExtra(o, replicas.cluster, rt, d)
  }

  function EnsureAll(o: Oracle, cfg: SelfHeal, c: Cluster, rt: Runtime, ds: seq<Deployment>): Outcome {
    if ds == [] then Outcome(c, true)
    else
      var before := EnsureAll(o, cfg, c, rt, ds[..|ds| - 1]);
      if !before.ok then before else Ensure(o, cfg, before.cluster, rt, ds[|ds| - 1])
  }

  /** `reconcileDeployments` */
  function Reconcile(o: Oracle, cfg: SelfHeal, c: Cluster, rt: Runtime): Outcome {
    EnsureAll(o, cfg, c, rt, rt.deployments)
  }
}
