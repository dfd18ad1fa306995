/** The bounds on restarts, carried from one record to whole runs of the controller: each
    container's record has always come about by heals, healthy marks and messages alone. */
module Histories {
  import opened Runtimes
  import opened Naming
  import opened Statuses
  import opened Restarts
  import opened Docker
  import opened Rollout
  import Controller
  import Endpoints
  import Safety
  import RouteTable
  import Runs
  import Sorting

  // ------------------------------------------------------- one record's history

  /** No restart of the history lies outside a span of time. */
  ghost predicate During(es: seq<Event>, from: nat, to: nat) {
    forall i :: 0 <= i < |es| && es[i].Heal? ==> from <= es[i].at <= to
  }

  /** Heals, healthy marks and messages of a span of time lead from one record to another. */
  ghost predicate Grown(cfg: SelfHeal, r: Record, from: nat, s: Record, to: nat) {
    exists es :: During(es, from, to) && Restarts.Run(cfg, r, es) == s
  }

  lemma GrownTransitive(cfg: SelfHeal, r: Record, a: nat, s: Record, b: nat, t: Record, c: nat)
    requires Grown(cfg, r, a, s, b) && Grown(cfg, s, b, t, c) && a <= b <= c
    ensures Grown(cfg, r, a, t, c)
  {
    var x :| During(x, a, b) && Restarts.Run(cfg, r, x) == s;
    var y :| During(y, b, c) && Restarts.Run(cfg, s, y) == t;
    RunAppend(cfg, r, x, y);
    assert During(x + y, a, c);
  }

  lemma GrownStep(cfg: SelfHeal, r: Record, e: Event, a: nat, b: nat)
    requires e.Heal? ==> a <= e.at <= b
    ensures Grown(cfg, r, a, Restarts.Step(cfg, r, e), b)
  {
    hide Restarts.Step;
    var next := Restarts.Step(cfg, r, e);
    assert Restarts.Run(cfg, next, [][..]) == next;
    assert [e][1..] == [];
    assert Restarts.Run(cfg, r, [e]) == Restarts.Run(cfg, next, [e][1..]);
    assert During([e], a, b);
  }

  lemma GrownItself(cfg: SelfHeal, r: Record, a: nat, b: nat)
    ensures Grown(cfg, r, a, r, b)
  {
    assert During([], a, b) && Restarts.Run(cfg, r, []) == r;
  }

  // ------------------------------------------------------------ all records

  /** From one state to another every record grows, by restarts between the two times. */
  ghost predicate Aged(cfg: SelfHeal, c: Cluster, d: Cluster) {
    c.now <= d.now && forall n :: Grown(cfg, RecordOf(c, n), c.now, RecordOf(d, n), d.now)
  }

  /** The records are the same and no time is taken back. */
  ghost predicate Still(c: Cluster, d: Cluster) {
    d.restarts == c.restarts && c.now <= d.now
  }

  lemma AgedTransitive(cfg: SelfHeal, a: Cluster, b: Cluster, c: Cluster)
    requires Aged(cfg, a, b) && Aged(cfg, b, c)
    ensures Aged(cfg, a, c)
  {
    hide Grown, RecordOf;
    forall n
      ensures Grown(cfg, RecordOf(a, n), a.now, RecordOf(c, n), c.now)
    {
      GrownTransitive(cfg, RecordOf(a, n), a.now, RecordOf(b, n), b.now, RecordOf(c, n), c.now);
    }
  }

  lemma AgedSame(cfg: SelfHeal, c: Cluster, d: Cluster)
    requires Still(c, d)
    ensures Aged(cfg, c, d)
  {
    hide Grown;
    forall n
      ensures Grown(cfg, RecordOf(c, n), c.now, RecordOf(d, n), d.now)
    {
      GrownItself(cfg, RecordOf(c, n), c.now, d.now);
    }
  }

  lemma AgedByStep(cfg: SelfHeal, c: Cluster, name: string, e: Event)
    requires e.Heal? ==> e.at == c.now
    ensures Aged(cfg, c, SetRecord(c, name, Restarts.Step(cfg, RecordOf(c, name), e)))
  {
    hide Grown, Restarts.Step;
    var d := SetRecord(c, name, Restarts.Step(cfg, RecordOf(c, name), e));
    forall n
      ensures Grown(cfg, RecordOf(c, n), c.now, RecordOf(d, n), c.now)
    {
      GrownStep(cfg, RecordOf(c, name), e, c.now, c.now);
      GrownItself(cfg, RecordOf(c, n), c.now, c.now);
    }
  }

  lemma RunSame(o: Oracle, c: Cluster, rt: Runtime, d: Deployment, replica: int, name: string)
    ensures Still(c, RunContainer(o, c, rt, d, replica, name).cluster)
  {
    hide NewStatus;
  }

  lemma RemoveSameOne(o: Oracle, c: Cluster, name: string)
    ensures Still(c, RemoveContainer(o, c, name).cluster)
  {
  }

  lemma RenameSame(o: Oracle, c: Cluster, from: string, to: string)
    ensures Still(c, RenameContainer(o, c, from, to).cluster)
  {
  }

  lemma ReplaceSame(o: Oracle, c: Cluster, rt: Runtime, d: Deployment, replica: nat, name: string)
    ensures Still(c, Replace(o, c, rt, d, replica, name).cluster)
  {
    hide RunContainer, SurgeName, RemoveContainer, RenameContainer;
    var surge := SurgeName(rt.key, d, replica, rt.generation);
    var run := RunContainer(o, c, rt, d, replica, surge);
    RunSame(o, c, rt, d, replica, surge);
    RemoveSameOne(o, c, name);
    RemoveSameOne(o, run.cluster, name);
    RenameSame(o, RemoveContainer(o, run.cluster, name).cluster, surge, name);
    RunSame(o, RemoveContainer(o, c, name).cluster, rt, d, replica, name);
  }

  lemma HealAges(o: Oracle, cfg: SelfHeal, c: Cluster, rt: Runtime, d: Deployment, replica: int, name: string)
    ensures Aged(cfg, c, HealContainer(o, cfg, c, rt, d, replica, name).cluster)
  {
    var noted := SetRecord(c, name, Healed(cfg, RecordOf(c, name), c.now));
    assert Healed(cfg, RecordOf(c, name), c.now) == Restarts.Step(cfg, RecordOf(c, name), Heal(c.now));
    AgedByStep(cfg, c, name, Heal(c.now));
    hide RunContainer, Healed, Judge, Aged, NewStatus;
    var removed := RemoveContainer(o, WritePhase(noted, rt, Updating), name);
    RunSame(o, removed.cluster, rt, d, replica, name);
    var e := HealContainer(o, cfg, c, rt, d, replica, name).cluster;
    AgedSame(cfg, noted, e);
    AgedTransitive(cfg, c, noted, e);
  }

  lemma MarkAges(cfg: SelfHeal, c: Cluster, name: string)
    ensures Aged(cfg, c, MarkHealthy(c, name))
  {
    if Untried(RecordOf(c, name)) {
      AgedSame(cfg, c, c);
    } else {
      assert MarkHealthy(c, name) == SetRecord(c, name, Restarts.Step(cfg, RecordOf(c, name), Event.Healthy));
      AgedByStep(cfg, c, name, Event.Healthy);
    }
  }

  lemma SettleAges(o: Oracle, cfg: SelfHeal, c: Cluster, rt: Runtime, d: Deployment, replica: int, name: string)
    ensures Aged(cfg, c, Settle(o, cfg, c, rt, d, replica, name).cluster)
  {
    var t := Tick(o, c);
    MarkAges(cfg, t, name);
    AgedSame(cfg, c, t);
    hide HealContainer, MarkHealthy, Aged;
    AgedTransitive(cfg, c, t, MarkHealthy(t, name));
    HealAges(o, cfg, t, rt, d, replica, name);
    AgedTransitive(cfg, c, t, HealContainer(o, cfg, t, rt, d, replica, name).cluster);
  }

  lemma ReplicaAges(o: Oracle, cfg: SelfHeal, c: Cluster, rt: Runtime, d: Deployment, replica: nat)
    ensures Aged(cfg, c, EnsureReplica(o, cfg, c, rt, d, replica).cluster)
  {
    var name := Canonical(rt.key, d, replica);
    var there := Exists(o, c, name);
    var drifted := Drifted(o, there.cluster, name, d.specHash);
    assert Still(c, drifted.cluster);
    hide Canonical, RunContainer, Replace, Settle, Aged;
    RunSame(o, there.cluster, rt, d, replica, name);
    ReplaceSame(o, drifted.cluster, rt, d, replica, name);
    SettleAges(o, cfg, drifted.cluster, rt, d, replica, name);
    AgedSame(cfg, c, drifted.cluster);
    AgedTransitive(cfg, c, drifted.cluster, Settle(o, cfg, drifted.cluster, rt, d, replica, name).cluster);
    AgedSame(cfg, c, RunContainer(o, there.cluster, rt, d, replica, name).cluster);
    AgedSame(cfg, c, Replace(o, drifted.cluster, rt, d, replica, name).cluster);
  }

  lemma {:induction false} ReplicasAge(o: Oracle, cfg: SelfHeal, c: Cluster, rt: Runtime, d: Deployment, k: nat)
    ensures Aged(cfg, c, EnsureReplicas(o, cfg, c, rt, d, k).cluster)
  {
    hide EnsureReplica, Aged;
    if k == 0 {
      AgedSame(cfg, c, c);
    } else {
      ReplicasAge(o, cfg, c, rt, d, k - 1);
      var before := EnsureReplicas(o, cfg, c, rt, d, k - 1).cluster;
      ReplicaAges(o, cfg, before, rt, d, k);
      AgedTransitive(cfg, c, before, EnsureReplica(o, cfg, before, rt, d, k).cluster);
    }
  }

  lemma {:induction false} RemovalSame(o: Oracle, c: Cluster, names: seq<string>)
    ensures Still(c, RemoveEach(o, c, names).cluster)
  {
    if names != [] {
      RemovalSame(o, c, names[..|names| - 1]);
    }
  }

  lemma EnsureAges(o: Oracle, cfg: SelfHeal, c: Cluster, rt: Runtime, d: Deployment)
    ensures Aged(cfg, c, Ensure(o, cfg, c, rt, d).cluster)
  {
    var replicas := EnsureReplicas(o, cfg, c, rt, d, Replicas(d)).cluster;
    ReplicasAge(o, cfg, c, rt, d, Replicas(d));
    var listed := ListNames(o, replicas, OwnedNames(replicas.containers, rt.key, d.name));
    if listed.value.Some? {
      RemovalSame(o, listed.cluster, Sorting.Filter(listed.value.value, IsExtra(replicas.containers, d)));
    }
    var e := RemoveExtra(o, replicas, rt, d).cluster;
    assert Still(replicas, e);
    hide EnsureReplicas, RemoveExtra, Aged;
    AgedSame(cfg, replicas, e);
    AgedTransitive(cfg, c, replicas, e);
  }

  lemma {:induction false} ReconcileAges(o: Oracle, cfg: SelfHeal, c: Cluster, rt: Runtime, ds: seq<Deployment>)
    ensures Aged(cfg, c, EnsureAll(o, cfg, c, rt, ds).cluster)
  {
    hide Ensure, Aged;
    if ds == [] {
      AgedSame(cfg, c, c);
    } else {
      ReconcileAges(o, cfg, c, rt, ds[..|ds| - 1]);
      var before := EnsureAll(o, cfg, c, rt, ds[..|ds| - 1]).cluster;
      EnsureAges(o, cfg, before, rt, ds[|ds| - 1]);
      AgedTransitive(cfg, c, before, Ensure(o, cfg, before, rt, ds[|ds| - 1]).cluster);
    }
  }

  // --------------------------------------------------------------- all runs

  lemma PurgeSame(o: Oracle, c: Cluster, names: set<string>)
    ensures Still(c, Controller.Purge(o, c, names).cluster)
  {
    var listed := ListNames(o, c, names);
    if listed.value.Some? {
      RemovalSame(o, listed.cluster, listed.value.value);
    }
  }

  lemma RollbackSame(o: Oracle, w: Controller.World, failed: Runtime, prior: Controller.Prior)
    requires prior.Prior?
    ensures Still(w.cluster, Controller.Rollback(o, w, failed, prior).world.cluster)
  {
    PurgeSame(o, w.cluster, Controller.OfGeneration(w.cluster.containers, failed.key, failed.generation));
    hide Controller.Purge, NewStatus, Controller.CachedEndpoints, Controller.OfGeneration;
  }

  lemma FailedSame(o: Oracle, w: Controller.World, rt: Runtime)
    ensures Still(w.cluster, Controller.RecordFailed(o, w, rt).cluster)
  {
    hide NewStatus;
  }

  lemma FinishSame(o: Oracle, w: Controller.World, rt: Runtime, found: Discovered)
    ensures Still(w.cluster, Controller.Finish(o, w, rt, found).world.cluster)
  {
    hide NewStatus;
  }

  lemma PublishSame(o: Oracle, w: Controller.World, rt: Runtime, found: Discovered)
    ensures Still(w.cluster, Controller.Publish(o, w, rt, found).world.cluster)
  {
    var b := Controller.Binding(o, w, rt, found);
    assert Still(w.cluster, b.world.cluster) by {
      hide RouteTable.Replace, RouteTable.StartPorts, RouteTable.Ascending, Controller.RouteMap;
    }
    hide Controller.Binding, Controller.RecordFailed, Controller.Finish;
    FailedSame(o, b.world, rt);
    FinishSame(o, b.world.(table := RouteTable.StopPorts(b.world.table, b.stops)), rt, found);
  }

  lemma DiscoveringSame(o: Oracle, w: Controller.World, rt: Runtime)
    ensures Still(w.cluster, Controller.Discovering(o, w, rt).world.cluster)
  {
    Endpoints.RefreshOnlyReads(o, w.cluster, rt, |rt.services|);
    hide Endpoints.Refresh, Controller.RecordFailed, Controller.Publish;
    var found := Endpoints.Refresh(o, w.cluster, rt, |rt.services|);
    var seen := w.(cluster := found.cluster);
    FailedSame(o, seen, rt);
    if found.value.Some? {
      PublishSame(o, seen, rt, found.value.value);
    }
  }

  lemma RollingSame(o: Oracle, cfg: Controller.Config, w: Controller.World, rt: Runtime, prior: Controller.Prior)
    ensures Still(Reconcile(o, cfg.selfHeal, w.cluster, rt).cluster, Controller.Rolling(o, cfg, w, rt, prior).world.cluster)
  {
    hide Reconcile, Controller.Discovering, Controller.Rollback, Controller.RecordFailed;
    var rolled := w.(cluster := Reconcile(o, cfg.selfHeal, w.cluster, rt).cluster);
    DiscoveringSame(o, rolled, rt);
    FailedSame(o, rolled, rt);
    if prior.Prior? {
      RollbackSame(o, rolled, rt, prior);
    }
  }

  lemma RollingAges(o: Oracle, cfg: Controller.Config, w: Controller.World, rt: Runtime, prior: Controller.Prior)
    ensures Aged(cfg.selfHeal, w.cluster, Controller.Rolling(o, cfg, w, rt, prior).world.cluster)
  {
    ReconcileAges(o, cfg.selfHeal, w.cluster, rt, rt.deployments);
    RollingSame(o, cfg, w, rt, prior);
    var out := Reconcile(o, cfg.selfHeal, w.cluster, rt);
    var e := Controller.Rolling(o, cfg, w, rt, prior).world.cluster;
    assert Aged(cfg.selfHeal, w.cluster, out.cluster);
    hide Reconcile, Controller.Rolling, Aged;
    AgedSame(cfg.selfHeal, out.cluster, e);
    AgedTransitive(cfg.selfHeal, w.cluster, out.cluster, e);
  }

  lemma BegunSame(o: Oracle, w: Controller.World, rt: Runtime, phase: Phase)
    ensures var network := Controller.EnsureNetwork(o, WritePhase(w.cluster, rt, phase)).cluster;
            Still(w.cluster, network) && Still(w.cluster, WritePhase(network, rt, Starting))
  {
    hide NewStatus;
  }

  lemma CarryAges(o: Oracle, cfg: Controller.Config, w: Controller.World, rt: Runtime, prior: Controller.Prior)
    ensures Aged(cfg.selfHeal, w.cluster, Controller.Carry(o, cfg, w, rt, prior).world.cluster)
  {
    var phase := if rt.key.Path() in w.cluster.specs then Updating else Pending;
    BegunSame(o, w, rt, phase);
    var network := Controller.EnsureNetwork(o, WritePhase(w.cluster, rt, phase)).cluster;
    var starting := WritePhase(network, rt, Starting);
    var failed := Controller.RecordFailed(o, w.(cluster := network), rt).cluster;
    FailedSame(o, w.(cluster := network), rt);
    hide Aged, WritePhase, Controller.EnsureNetwork, Controller.Rolling, Controller.RecordFailed;
    AgedSame(cfg.selfHeal, w.cluster, failed);
    AgedSame(cfg.selfHeal, w.cluster, starting);
    RollingAges(o, cfg, w.(cluster := starting), rt, prior);
    AgedTransitive(cfg.selfHeal, w.cluster, starting,
                   Controller.Rolling(o, cfg, w.(cluster := starting), rt, prior).world.cluster);
  }

  lemma ApplyAges(o: Oracle, cfg: Controller.Config, w: Controller.World, rt: Runtime, filed: Option<Status>)
    ensures Aged(cfg.selfHeal, w.cluster, Controller.Apply(o, cfg, w, rt, filed).world.cluster)
  {
    hide Aged, Safety.Accepted, Controller.Apply, Controller.Carry, Controller.WithGeneration;
    if Safety.Accepted(cfg, w, rt) {
      Safety.AcceptedCarries(o, cfg, w, rt, filed);
      var p := Controller.Previous(o, w, rt.key.Path(), filed);
      var v := w.(cluster := p.cluster);
      var given := Controller.WithGeneration(w.cluster.specs, rt);
      AgedSame(cfg.selfHeal, w.cluster, p.cluster);
      CarryAges(o, cfg, v, given, p.prior);
      AgedTransitive(cfg.selfHeal, w.cluster, p.cluster, Controller.Carry(o, cfg, v, given, p.prior).world.cluster);
    } else {
      Runs.RejectedIsSilent(o, cfg, w, rt, filed);
      AgedSame(cfg.selfHeal, w.cluster, Controller.Apply(o, cfg, w, rt, filed).world.cluster);
    }
  }

  lemma VanishingSame(o: Oracle, w: Controller.World, key: Key)
    ensures Still(w.cluster, Controller.Vanishing(o, w, key).world.cluster)
  {
    hide NewStatus, RouteTable.Drop;
  }

  lemma ClearingSame(o: Oracle, w: Controller.World, key: Key, rt: Docker.Option<Runtime>)
    ensures Still(w.cluster, Controller.Clearing(o, w, key, rt).world.cluster)
  {
    hide Controller.Purge, OwnedAll;
    if rt.Some? {
      PurgeSame(o, w.cluster, OwnedAll(w.cluster.containers, rt.value.key));
    }
  }

  lemma RemoveSame(o: Oracle, w: Controller.World, key: Key)
    ensures Still(w.cluster, Controller.Remove(o, w, key).world.cluster)
  {
    VanishingSame(o, w, key);
    var v := Controller.Vanishing(o, w, key);
    ClearingSame(o, v.world, key, v.rt);
    hide Controller.Vanishing, Controller.Clearing;
  }

  lemma {:induction false} ResyncAges(o: Oracle, cfg: Controller.Config, w: Controller.World, rts: seq<Runtime>)
    ensures Aged(cfg.selfHeal, w.cluster, Controller.ResyncEach(o, cfg, w, rts).world.cluster)
  {
    hide Aged, Controller.ResyncOne;
    if rts == [] {
      AgedSame(cfg.selfHeal, w.cluster, w.cluster);
    } else {
      ResyncAges(o, cfg, w, rts[..|rts| - 1]);
      var before := Controller.ResyncEach(o, cfg, w, rts[..|rts| - 1]).world;
      ResyncOneAges(o, cfg, before, rts[|rts| - 1]);
      AgedTransitive(cfg.selfHeal, w.cluster, before.cluster, Controller.ResyncOne(o, cfg, before, rts[|rts| - 1]).world.cluster);
    }
  }

  lemma ResyncOneSame(o: Oracle, cfg: Controller.Config, w: Controller.World, rt: Runtime)
    ensures Still(Reconcile(o, cfg.selfHeal, w.cluster, rt).cluster, Controller.ResyncOne(o, cfg, w, rt).world.cluster)
  {
    var out := Reconcile(o, cfg.selfHeal, w.cluster, rt);
    Endpoints.RefreshOnlyReads(o, out.cluster, rt, |rt.services|);
    hide Reconcile, Endpoints.Refresh, NewStatus, RouteTable.PutEndpoints, Controller.RecordFailed;
    FailedSame(o, w.(cluster := out.cluster), rt);
    FailedSame(o, w.(cluster := Endpoints.Refresh(o, out.cluster, rt, |rt.services|).cluster), rt);
  }

  lemma ResyncOneAges(o: Oracle, cfg: Controller.Config, w: Controller.World, rt: Runtime)
    ensures Aged(cfg.selfHeal, w.cluster, Controller.ResyncOne(o, cfg, w, rt).world.cluster)
  {
    ReconcileAges(o, cfg.selfHeal, w.cluster, rt, rt.deployments);
    ResyncOneSame(o, cfg, w, rt);
    var out := Reconcile(o, cfg.selfHeal, w.cluster, rt);
    var e := Controller.ResyncOne(o, cfg, w, rt).world.cluster;
    assert Aged(cfg.selfHeal, w.cluster, out.cluster);
    hide Reconcile, Controller.ResyncOne, Aged;
    AgedSame(cfg.selfHeal, out.cluster, e);
    AgedTransitive(cfg.selfHeal, w.cluster, out.cluster, e);
  }

  lemma StepAges(o: Oracle, cfg: Controller.Config, w: Controller.World, e: Controller.Event)
    ensures Aged(cfg.selfHeal, w.cluster, Controller.Step(o, cfg, w, e).cluster)
  {
    hide Aged, Controller.Apply, Controller.Remove, Controller.ResyncEach;
    match e
    case Applying(rt, filed) => ApplyAges(o, cfg, w, rt, filed);
    case Removing(key) =>
      RemoveSame(o, w, key);
      AgedSame(cfg.selfHeal, w.cluster, Controller.Remove(o, w, key).world.cluster);
    case Resyncing => ResyncAges(o, cfg, w, Controller.InMemory(w.cluster.specs));
    case Stopping => AgedSame(cfg.selfHeal, w.cluster, Controller.Shutdown(o, w).world.cluster);
    case Elsewhere(m, pause) =>
      AgedSame(cfg.selfHeal, w.cluster, SetContainers(w.cluster.(now := w.cluster.now + pause), m));
  }

  /** In every run, whatever fails, each container's restart record is the outcome of heals,
      healthy marks and messages, its restarts made between the run's start and its end. */
  lemma {:induction false} RunAges(o: Oracle, cfg: Controller.Config, w: Controller.World, es: seq<Controller.Event>)
    ensures Aged(cfg.selfHeal, w.cluster, Controller.Run(o, cfg, w, es).cluster)
    decreases |es|
  {
    hide Aged, Controller.Step;
    if es == [] {
      AgedSame(cfg.selfHeal, w.cluster, w.cluster);
    } else {
      var u := es[..|es| - 1];
      RunAges(o, cfg, w, u);
      var v := Controller.Run(o, cfg, w, u);
      StepAges(o, cfg, v, es[|es| - 1]);
      AgedTransitive(cfg.selfHeal, w.cluster, v.cluster, Controller.Step(o, cfg, v, es[|es| - 1]).cluster);
    }
  }

  /** What a run did to one container: a history of its record. */
  lemma HistoryOf(o: Oracle, cfg: Controller.Config, w: Controller.World, es: seq<Controller.Event>, name: string)
    returns (history: seq<Event>)
    ensures var v := Controller.Run(o, cfg, w, es);
            && During(history, w.cluster.now, v.cluster.now)
            && Restarts.Run(cfg.selfHeal, RecordOf(w.cluster, name), history) == RecordOf(v.cluster, name)
  {
    RunAges(o, cfg, w, es);
    hide Controller.Run, RecordOf;
    var v := Controller.Run(o, cfg, w, es);
    assert Grown(cfg.selfHeal, RecordOf(w.cluster, name), w.cluster.now, RecordOf(v.cluster, name), v.cluster.now);
    history :| During(history, w.cluster.now, v.cluster.now)
               && Restarts.Run(cfg.selfHeal, RecordOf(w.cluster, name), history) == RecordOf(v.cluster, name);
  }

  /** So in every reachable state no container's failure streak exceeds the limit or its
      restart count, and counts never go down. */
  lemma RunStreaks(o: Oracle, cfg: Controller.Config, w: Controller.World, es: seq<Controller.Event>, name: string)
    requires var r := RecordOf(w.cluster, name); r.streak <= cfg.selfHeal.maxRestarts && r.streak <= r.count
    ensures var r, s := RecordOf(w.cluster, name), RecordOf(Controller.Run(o, cfg, w, es).cluster, name);
            s.streak <= cfg.selfHeal.maxRestarts && s.streak <= s.count && r.count <= s.count
  {
    var history := HistoryOf(o, cfg, w, es, name);
    hide Controller.Run, RecordOf;
    StreakBounded(cfg.selfHeal, RecordOf(w.cluster, name), history);
  }

  /** The times of the restarts that a run makes of one container. */
  ghost function RestartTimes(o: Oracle, cfg: Controller.Config, w: Controller.World, es: seq<Controller.Event>, name: string): seq<nat> {
    var p, q := RecordOf(w.cluster, name).past, RecordOf(Controller.Run(o, cfg, w, es).cluster, name).past;
    Times(q[if |p| <= |q| then |p| else |q|..])
  }

  lemma {:induction false} AttemptsDuring(cfg: SelfHeal, r: Record, es: seq<Event>, a: nat, b: nat)
    requires During(es, a, b)
    ensures forall i :: 0 <= i < |Attempts(cfg, r, es)| ==> a <= Attempts(cfg, r, es)[i] <= b
    decreases |es|
  {
    if es != [] {
      AttemptsDuring(cfg, Restarts.Step(cfg, r, es[0]), es[1..], a, b);
    }
  }

  /** Over every run a past only grows, and its new restarts are the run's: made in its time,
      none before the next attempt the record allowed, and any two of them a backoff apart per
      restart from one to the other. */
  lemma RunSpaced(o: Oracle, cfg: Controller.Config, w: Controller.World, es: seq<Controller.Event>, name: string)
    ensures var v := Controller.Run(o, cfg, w, es);
            var r, t := RecordOf(w.cluster, name), RestartTimes(o, cfg, w, es, name);
            && r.past <= RecordOf(v.cluster, name).past
            && (forall i :: 0 <= i < |t| ==> w.cluster.now <= t[i] <= v.cluster.now && r.next <= t[i])
            && (forall i, j :: 0 <= i <= j < |t| ==> t[j] >= t[i] + (j - i) * cfg.selfHeal.backoff)
  {
    var history := HistoryOf(o, cfg, w, es, name);
    hide Controller.Run, RecordOf;
    var v, r := Controller.Run(o, cfg, w, es), RecordOf(w.cluster, name);
    PastIsTrail(cfg.selfHeal, r, history);
    TrailTimes(cfg.selfHeal, r, history);
    AttemptsDuring(cfg.selfHeal, r, history, w.cluster.now, v.cluster.now);
    var t := RestartTimes(o, cfg, w, es, name);
    assert t == Attempts(cfg.selfHeal, r, history);
    forall i, j | 0 <= i <= j < |t|
      ensures r.next <= t[i] && t[j] >= t[i] + (j - i) * cfg.selfHeal.backoff
    {
      AttemptsSpaced(cfg.selfHeal, r, history, i, j);
    }
  }

  /** So any span of time of a run holds few restarts of one container. */
  lemma RunWindow(
    o: Oracle, cfg: Controller.Config, w: Controller.World, es: seq<Controller.Event>, name: string, i: nat, j: nat, window: nat)
    requires cfg.selfHeal.backoff > 0 && i <= j < |RestartTimes(o, cfg, w, es, name)|
    requires RestartTimes(o, cfg, w, es, name)[j] <= RestartTimes(o, cfg, w, es, name)[i] + window
    ensures j - i + 1 <= window / cfg.selfHeal.backoff + 1
  {
    RunSpaced(o, cfg, w, es, name);
    hide RestartTimes;
    Quotient(j - i, window, cfg.selfHeal.backoff);
  }

  /** Over every run, k restarts of one container with no recovery between them take at least
      backoff * k * (k - 1) / 2, and there are at most MaxRestarts of them. */
  lemma RunQuadratic(
    o: Oracle, cfg: Controller.Config, w: Controller.World, es: seq<Controller.Event>, name: string, a: nat, b: nat)
    requires var r := RecordOf(w.cluster, name); r.streak <= cfg.selfHeal.maxRestarts && r.streak <= r.count
    requires var p, q := RecordOf(w.cluster, name).past, RecordOf(Controller.Run(o, cfg, w, es).cluster, name).past;
             |p| <= a <= b <= |q| && Recovered !in q[a..b]
    ensures var t := Times(RecordOf(Controller.Run(o, cfg, w, es).cluster, name).past[a..b]);
            var k := |t|;
            k <= cfg.selfHeal.maxRestarts && (k > 0 ==> 2 * (t[k - 1] - t[0]) >= k * (k - 1) * cfg.selfHeal.backoff)
  {
    var history := HistoryOf(o, cfg, w, es, name);
    hide Controller.Run, RecordOf;
    StretchQuadratic(cfg.selfHeal, RecordOf(w.cluster, name), history, a, b);
  }
}
