/** What single failures lead to: where a rollout, a refresh or a Resync breaks off, and what is
    reported of it. */
module Failures {
  import opened Runtimes
  import opened Statuses
  import opened Docker
  import opened Controller
  import opened Effects
  import opened Safety
  import opened Endpoints
  import Quantities
  import Restarts
  import Rollout
  import Success

  // ------------------------------------------------------------ breaking off

  lemma {:induction false} RemovalStops(o: Oracle, c: Cluster, u: seq<string>, v: seq<string>)
    requires !Rollout.RemoveEach(o, c, u).ok
    ensures Rollout.RemoveEach(o, c, u + v) == Rollout.RemoveEach(o, c, u)
    decreases |v|
  {
    hide RemoveContainer;
    if v == [] {
      assert u + v == u;
    } else {
      assert (u + v)[..|u + v| - 1] == u + v[..|v| - 1];
      RemovalStops(o, c, u, v[..|v| - 1]);
    }
  }

  lemma {:induction false} ReplicasStop(o: Oracle, cfg: Restarts.SelfHeal, c: Cluster, rt: Runtime, d: Deployment, j: nat, k: nat)
    requires j <= k && !Rollout.EnsureReplicas(o, cfg, c, rt, d, j).ok
    ensures Rollout.EnsureReplicas(o, cfg, c, rt, d, k) == Rollout.EnsureReplicas(o, cfg, c, rt, d, j)
    decreases k
  {
    hide Rollout.EnsureReplica;
    if j < k {
      ReplicasStop(o, cfg, c, rt, d, j, k - 1);
    }
  }

  /** A rollout breaks off at the first deployment that fails: later ones are not touched. */
  lemma {:induction false} RolloutStops(o: Oracle, cfg: Restarts.SelfHeal, c: Cluster, rt: Runtime, u: seq<Deployment>, v: seq<Deployment>)
    requires !Rollout.EnsureAll(o, cfg, c, rt, u).ok
    ensures Rollout.EnsureAll(o, cfg, c, rt, u + v) == Rollout.EnsureAll(o, cfg, c, rt, u)
    decreases |v|
  {
    hide Rollout.Ensure;
    if v == [] {
      assert u + v == u;
    } else {
      assert (u + v)[..|u + v| - 1] == u + v[..|v| - 1];
      RolloutStops(o, cfg, c, rt, u, v[..|v| - 1]);
    }
  }

  /** A Resync breaks off at the first runtime that fails: later ones are not touched. */
  lemma {:induction false} ResyncStops(o: Oracle, cfg: Config, w: World, u: seq<Runtime>, v: seq<Runtime>)
    requires !ResyncEach(o, cfg, w, u).ok
    ensures ResyncEach(o, cfg, w, u + v) == ResyncEach(o, cfg, w, u)
    decreases |v|
  {
    hide ResyncOne;
    if v == [] {
      assert u + v == u;
    } else {
      assert (u + v)[..|u + v| - 1] == u + v[..|v| - 1];
      ResyncStops(o, cfg, w, u, v[..|v| - 1]);
    }
  }

  // ------------------------------------------------------------- not found out

  /** A deployment's endpoints are unknown, exactly, if the second lookup is refused and the first
      was refused or found nothing running. */
  lemma UnknownExactly(o: Oracle, c: Cluster, key: Key, deployment: string, port: int)
    ensures DiscoverDeployment(o, c, key, deployment, port).value.None?
            <==> o.fault(List, c.tick + 1) != Works
                 && (o.fault(List, c.tick) != Works
                     || forall n :: n in c.containers && c.containers[n].state.running ==>
                          !(c.containers[n].managed && c.containers[n].namespace == key.namespace
                            && c.containers[n].instance == key.name && c.containers[n].service == deployment))
  {
    LookupUnknown(o, c, key, deployment);
    var listed := ListPods(o, c, key, deployment);
    assert DiscoverDeployment(o, c, key, deployment, port).value.None? == listed.value.None? by { hide ListPods, Inspect; }
    hide Inspect, DiscoverDeployment, ListPods;
    var m, names := c.containers, Pods(c.containers, key, deployment);
    assert forall n :: n in names <==>
        n in m && m[n].state.running
        && m[n].managed && m[n].namespace == key.namespace && m[n].instance == key.name && m[n].service == deployment;
    assert names == {} <==> forall n :: n !in names;
  }

  lemma LookupUnknown(o: Oracle, c: Cluster, key: Key, deployment: string)
    ensures ListPods(o, c, key, deployment).value.None?
            <==> o.fault(List, c.tick + 1) != Works && (o.fault(List, c.tick) != Works || Pods(c.containers, key, deployment) == {})
  {
    hide Pods, LegacyPods;
    var names := Pods(c.containers, key, deployment);
    var q := o.listing(c.tick, names);
    assert forall n :: n in q <==> n in names;
    if q == [] {
      assert names == {};
    } else {
      assert q[0] in names;
    }
  }

  /** When no container can be inspected, none is an endpoint. */
  lemma {:induction false} UninspectedLeftOut(o: Oracle, c: Cluster, names: seq<string>, port: int)
    requires forall t :: o.fault(InspectEndpoint, t) != Works
    ensures Inspect(o, c, names, port).endpoints == []
  {
    if names != [] {
      UninspectedLeftOut(o, c, names[..|names| - 1], port);
    }
  }

  /** When nothing can be listed, a refresh of a runtime whose services select deployments fails. */
  lemma {:induction false} UnlistedRefreshFails(o: Oracle, c: Cluster, rt: Runtime, k: nat)
    requires 1 <= k <= |rt.services| && forall t :: o.fault(List, t) != Works
    requires forall s :: s in rt.services ==> Matching(rt, s.selector) != []
    ensures Refresh(o, c, rt, k).value.None?
  {
    hide Matching, TargetPort, DiscoverDeployment;
    if k > 1 {
      UnlistedRefreshFails(o, c, rt, k - 1);
    } else {
      var s := rt.services[0];
      assert s in rt.services && Refresh(o, c, rt, 0).value.Some?;
      UnlistedEachFails(o, c, rt.key, Matching(rt, s.selector), TargetPort(s, Matching(rt, s.selector)));
    }
  }

  lemma {:induction false} UnlistedEachFails(o: Oracle, c: Cluster, key: Key, ds: seq<Deployment>, port: int)
    requires ds != [] && forall t :: o.fault(List, t) != Works
    ensures DiscoverEach(o, c, key, ds, port).value.None?
  {
    hide DiscoverDeployment;
    var u := ds[..|ds| - 1];
    if u != [] {
      UnlistedEachFails(o, c, key, u, port);
    } else {
      assert DiscoverEach(o, c, key, u, port) == Answer(c, Quantities.Some([]));
      UnlistedDeploymentFails(o, c, key, ds[0].name, port);
    }
  }

  lemma UnlistedDeploymentFails(o: Oracle, c: Cluster, key: Key, deployment: string, port: int)
    requires forall t :: o.fault(List, t) != Works
    ensures DiscoverDeployment(o, c, key, deployment, port).value.None?
  {
    hide Inspect;
  }

  // --------------------------------------------------------------- the reports

  /** A turn of a Resync in which the rollout or the refresh fails leaves the runtime reported as
      failed, part by part. */
  lemma ResyncFailureReported(o: Oracle, cfg: Config, w: World, rt: Runtime)
    requires var out := Rollout.Reconcile(o, cfg.selfHeal, w.cluster, rt);
             !out.ok || Refresh(o, out.cluster, rt, |rt.services|).value.None?
    ensures !ResyncOne(o, cfg, w, rt).ok && Success.ReportedFailed(ResyncOne(o, cfg, w, rt).world, rt)
  {
    var out := Rollout.Reconcile(o, cfg.selfHeal, w.cluster, rt);
    var found := Refresh(o, out.cluster, rt, |rt.services|);
    Success.RecordReports(o, w.(cluster := out.cluster), rt);
    Success.RecordReports(o, w.(cluster := found.cluster), rt);
    hide Rollout.Reconcile, Refresh, RecordFailed, Success.ReportedFailed;
  }

  /** The last stretch of an Apply reports success if and only if all three files are written. */
  lemma FinishExactly(o: Oracle, w: World, rt: Runtime, found: Discovered)
    ensures var t := w.cluster.tick;
            Finish(o, w, rt, found).ending
            == if o.disk(t) == Done && o.disk(t + 1) == Done && o.disk(t + 2) == Done then Applied else SaveFailed
  {
    hide NewStatus;
  }

  /** A rollback is complete if and only if the cleanup is and both files are written. */
  lemma RolledBackExactly(o: Oracle, w: World, failed: Runtime, prior: Prior)
    requires prior.Prior?
    ensures var cleaned := Cleanup(o, w.cluster, failed);
            var t := cleaned.cluster.tick;
            Rollback(o, w, failed, prior).ending
            == if cleaned.ok && o.disk(t) == Done && o.disk(t + 1) == Done then RolledBack else RollbackFailed
  {
    hide Cleanup, NewStatus, CachedEndpoints;
  }
}
