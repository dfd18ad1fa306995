/** What the proxy can forward to after an Apply or a Resync, told of the containers' labels and
    health: the cached endpoints of every service, and the phase that is reported of them. */
module Discovery {
  import opened Runtimes
  import opened Naming
  import opened RouteTable
  import opened Statuses
  import opened Docker
  import opened Controller
  import opened Effects
  import opened Invariants
  import opened Safety
  import opened Selection
  import opened Scaling
  import Dating
  import Endpoints
  import Rollout
  import Runs
  import Serving

  // ------------------------------------------------------------ who backs a service

  /** Running, and healthy if there is a health check. */
  predicate InService(x: Container) {
    x.state.running && (x.state.health.NoCheck? || x.state.health.Healthy?)
  }

  /** Some running container has the deployment's own labels. */
  ghost predicate Manned(m: Docker.Containers, key: Key, deployment: string) {
    exists n :: n in m && m[n].state.running && Bears(m[n], key, deployment)
  }

  /** The container has the deployment's labels; or, if no running container has, the labels of
      old, which leave the namespace out. */
  ghost predicate TakenFor(m: Docker.Containers, key: Key, deployment: string, x: Container) {
    if Manned(m, key, deployment) then Bears(x, key, deployment)
    else x.legacy && x.instance == key.name && x.service == deployment
  }

  /** The endpoint is a container in service that is taken for one of a deployment that the
      service selects, on the service's port. */
  ghost predicate Backs(m: Docker.Containers, rt: Runtime, s: Service, e: Endpoint) {
    && e.port == TargetPort(s, Matching(rt, s.selector))
    && e.container in m && InService(m[e.container])
    && exists d :: d in rt.deployments && Picks(s, d) && TakenFor(m, rt.key, d.name, m[e.container])
  }

  lemma VisibleTaken(m: Docker.Containers, key: Key, deployment: string, n: string)
    requires n in m && m[n].state.running
    ensures n in Endpoints.Visible(m, key, deployment) <==> TakenFor(m, key, deployment, m[n])
  {
    if Manned(m, key, deployment) {
      var p :| p in m && m[p].state.running && Bears(m[p], key, deployment);
      assert p in Endpoints.Pods(m, key, deployment);
    } else {
      forall p
        ensures p !in Endpoints.Pods(m, key, deployment)
      {
      }
    }
  }

  lemma ServiceBacks(o: Oracle, c: Cluster, rt: Runtime, s: Service, e: Endpoint)
    requires FaultFree(o) && TargetPort(s, Matching(rt, s.selector)) > 0
    ensures var a := Endpoints.Discover(o, c, rt, s);
            a.value.Some? && (e in a.value.value <==> Backs(c.containers, rt, s, e))
  {
    Endpoints.ServiceFinds(o, c, rt, s, e);
    var m, n := c.containers, e.container;
    forall d: Deployment
      ensures LabelsMatch(d.selector, s.selector) <==> Picks(s, d)
    {
      PicksMatch(s, d);
    }
    if n in m && InService(m[n]) {
      forall d: Deployment
        ensures n in Endpoints.Visible(m, rt.key, d.name) <==> TakenFor(m, rt.key, d.name, m[n])
      {
        VisibleTaken(m, rt.key, d.name, n);
      }
    }
    hide Endpoints.Discover, Endpoints.Visible, TakenFor, Picks, LabelsMatch, TargetPort, Matching, Text.TrimSpace;
  }

  /** The entry of every service up to k holds exactly what backs it. */
  ghost predicate Covers(found: Discovered, m: Docker.Containers, rt: Runtime, k: nat)
    requires k <= |rt.services|
  {
    forall i :: 0 <= i < k ==>
      && rt.services[i].name in found
      && forall e :: e in found[rt.services[i].name] <==> Backs(m, rt, rt.services[i], e)
  }

  /** A refresh without failures: every service has exactly the endpoints that back it. */
  lemma {:induction false} RefreshCovers(o: Oracle, c: Cluster, rt: Runtime, k: nat)
    requires FaultFree(o) && k <= |rt.services| && DistinctServices(rt.services)
    requires forall s :: s in rt.services ==> TargetPort(s, Matching(rt, s.selector)) > 0
    ensures var a := Endpoints.Refresh(o, c, rt, k); a.value.Some? && Covers(a.value.value, c.containers, rt, k)
  {
    hide Backs, Endpoints.Discover, TargetPort, Matching;
    if k > 0 {
      RefreshCovers(o, c, rt, k - 1);
      Endpoints.RefreshOnlyReads(o, c, rt, k - 1);
      var before := Endpoints.Refresh(o, c, rt, k - 1);
      var s := rt.services[k - 1];
      forall e
        ensures var a := Endpoints.Discover(o, before.cluster, rt, s);
                a.value.Some? && (e in a.value.value <==> Backs(c.containers, rt, s, e))
      {
        ServiceBacks(o, before.cluster, rt, s, e);
      }
      var here := Endpoints.Discover(o, before.cluster, rt, s);
      ServiceBacks(o, before.cluster, rt, s, Endpoint("", 0));
      CoversOne(before.value.value, c.containers, rt, k, here.value.value);
    }
  }

  lemma CoversOne(found: Discovered, m: Docker.Containers, rt: Runtime, k: nat, es: seq<Endpoint>)
    requires 1 <= k <= |rt.services| && DistinctServices(rt.services) && Covers(found, m, rt, k - 1)
    requires forall e :: e in es <==> Backs(m, rt, rt.services[k - 1], e)
    ensures Covers(found[rt.services[k - 1].name := es], m, rt, k)
  {
    hide Backs;
    forall i | 0 <= i < k - 1
      ensures rt.services[i].name != rt.services[k - 1].name
    {
    }
  }

  // ------------------------------------------------------------------ the reports

  /** The cache holds, for every service, exactly what backs it. */
  ghost predicate Cached(t: Table, m: Docker.Containers, rt: Runtime) {
    forall s :: s in rt.services ==>
      var name := EndpointKey(rt.key, s.name);
      name in t.endpoints && forall e :: e in t.endpoints[name] <==> Backs(m, rt, s, e)
  }

  /** A service has the replica's own container among its endpoints. */
  ghost predicate ReplicaServed(m: Docker.Containers, rt: Runtime, d: Deployment, r: nat) {
    exists s, e :: s in rt.services && Picks(s, d) && Backs(m, rt, s, e) && e.container == Canonical(rt.key, d, r)
  }

  /** The runtime is reported Running if every replica of it is served, and Degraded if not. */
  ghost predicate Reported(v: World, m: Docker.Containers, rt: Runtime) {
    var path := rt.key.Path();
    && path in v.cluster.statuses && v.cluster.statuses[path].observedGeneration == rt.generation
    && v.cluster.statuses[path].phase
       == if forall d, r :: d in rt.deployments && 1 <= r <= d.replicas ==> ReplicaServed(m, rt, d, r) then Running else Degraded
  }

  lemma CoversServes(found: Discovered, m: Docker.Containers, rt: Runtime, d: Deployment, r: nat)
    requires Covers(found, m, rt, |rt.services|)
    ensures Serves(rt, found, d, Canonical(rt.key, d, r)) <==> ReplicaServed(m, rt, d, r)
  {
    hide Canonical, Backs, Picks, LabelsMatch;
    var name := Canonical(rt.key, d, r);
    forall s: Service
      ensures LabelsMatch(d.selector, s.selector) <==> Picks(s, d)
    {
      PicksMatch(s, d);
    }
    if s, e :| s in rt.services && LabelsMatch(d.selector, s.selector) && e in EndpointsOf(found, s.name) && e.container == name {
      var i :| 0 <= i < |rt.services| && rt.services[i] == s;
      assert Backs(m, rt, rt.services[i], e);
    }
    if s, e :| s in rt.services && Picks(s, d) && Backs(m, rt, s, e) && e.container == name {
      var i :| 0 <= i < |rt.services| && rt.services[i] == s;
      assert e in found[rt.services[i].name] && e in EndpointsOf(found, s.name);
    }
  }

  lemma {:induction false} NamesExactly(key: Key, d: Deployment, k: nat)
    ensures |FirstNames(key, d, k)| == k
  {
    hide Canonical;
    if k == 0 {
      assert FirstNames(key, d, k) == {};
    } else {
      NamesExactly(key, d, k - 1);
      FirstNamesStep(key, d, k);
      assert Canonical(key, d, k) !in FirstNames(key, d, k - 1) by {
        if r :| 1 <= r <= k - 1 && Canonical(key, d, r) == Canonical(key, d, k) {
          CanonicalInjective(key, d, r, k);
        }
      }
    }
  }

  lemma FullSet(a: set<string>, b: set<string>)
    requires a <= b
    ensures |a| >= |b| <==> a == b
  {
    assert b == a + (b - a) && |b| == |a| + |b - a|;
  }

  /** As many ready as replicas, exactly if each replica's own container is found. */
  lemma ReadyCountFull(rt: Runtime, found: Discovered, d: Deployment)
    requires d.replicas >= 0
    ensures ReadyCount(rt, found, d) >= d.replicas <==>
              forall r: nat :: 1 <= r <= d.replicas ==> Serves(rt, found, d, Canonical(rt.key, d, r))
  {
    hide Canonical, Serves;
    NamesExactly(rt.key, d, d.replicas);
    var ready, names := ReadyNames(rt, found, d), CanonicalNames(rt.key, d);
    FullSet(ready, names);
    if forall r: nat :: 1 <= r <= d.replicas ==> Serves(rt, found, d, Canonical(rt.key, d, r)) {
      assert forall n :: n in names ==> n in ready;
      assert ready == names;
    } else {
      var r: nat :| 1 <= r <= d.replicas && !Serves(rt, found, d, Canonical(rt.key, d, r));
      assert Canonical(rt.key, d, r) in names && Canonical(rt.key, d, r) !in ready;
    }
  }

  lemma PhaseTold(rt: Runtime, found: Discovered, m: Docker.Containers)
    requires WellFormed(rt) && NamesApart(rt) && Covers(found, m, rt, |rt.services|)
    ensures NewStatus(rt, Running, found, false).phase
            == if forall d, r :: d in rt.deployments && 1 <= r <= d.replicas ==> ReplicaServed(m, rt, d, r) then Running else Degraded
  {
    RunningExactly(rt, found);
    forall d | d in rt.deployments
      ensures ReadyCount(rt, found, d) >= d.replicas <==> forall r: nat :: 1 <= r <= d.replicas ==> ReplicaServed(m, rt, d, r)
    {
      DeploymentTold(rt, found, m, d);
    }
    hide NewStatus, ReadyCount, ReplicaServed, NamesApart, Covers, ValidDeployment, ValidService, ValidIngress;
  }

  lemma DeploymentTold(rt: Runtime, found: Discovered, m: Docker.Containers, d: Deployment)
    requires WellFormed(rt) && Covers(found, m, rt, |rt.services|) && d in rt.deployments
    ensures ReadyCount(rt, found, d) >= d.replicas <==> forall r: nat :: 1 <= r <= d.replicas ==> ReplicaServed(m, rt, d, r)
  {
    assert ValidDeployment(d);
    hide WellFormed, Covers, ReadyCount, ReplicaServed, Serves, Canonical;
    ReadyCountFull(rt, found, d);
    forall r: nat
      ensures Serves(rt, found, d, Canonical(rt.key, d, r)) <==> ReplicaServed(m, rt, d, r)
    {
      CoversServes(found, m, rt, d, r);
    }
  }

  // ----------------------------------------------------------------------- Apply

  /** Cache and status are those of what was found. */
  ghost predicate Told(v: World, rt: Runtime, found: Discovered) {
    && rt.key.Path() in v.cluster.statuses && v.cluster.statuses[rt.key.Path()] == NewStatus(rt, Running, found, false)
    && forall s :: s in found ==> EndpointKey(rt.key, s) in v.table.endpoints && v.table.endpoints[EndpointKey(rt.key, s)] == found[s]
  }

  lemma FinishTells(o: Oracle, w: World, rt: Runtime, found: Discovered)
    requires forall s :: s in found ==> EndpointKey(rt.key, s) in w.table.endpoints && w.table.endpoints[EndpointKey(rt.key, s)] == found[s]
    ensures Told(Finish(o, w, rt, found).world, rt, found)
  {
    hide NewStatus, EndpointKey;
  }

  lemma PublishTells(o: Oracle, w: World, rt: Runtime, found: Discovered)
    requires Publish(o, w, rt, found).ending == Applied
    ensures Told(Publish(o, w, rt, found).world, rt, found)
  {
    var rep := Replace(w.table, rt, found, RouteMap(rt));
    var c := Rewrite(w.cluster, rt);
    StartPortsEffect(rep.table, Ascending(rep.starts), o.bind, c.tick);
    var b := Binding(o, w, rt, found);
    assert b.world.table.endpoints == rep.table.endpoints by {
      hide Replace, StartPorts, Ascending, RouteMap;
    }
    assert rep.table.endpoints == PutEndpoints(DropEndpoints(w.table.endpoints, rt.key), rt.key, found);
    hide Binding, Finish, Told, EndpointKey, PutEndpoints, DropEndpoints, Replace, StartPorts, Ascending, RouteMap, RecordFailed;
    FinishTells(o, b.world.(table := StopPorts(b.world.table, b.stops)), rt, found);
  }

  /** The cache and the report that tell what was found, told of the containers. */
  lemma ToldOf(v: World, rt: Runtime, found: Discovered, m: Docker.Containers)
    requires WellFormed(rt) && Told(v, rt, found) && Covers(found, m, rt, |rt.services|)
    ensures Cached(v.table, m, rt)
    ensures NamesApart(rt) ==> Reported(v, m, rt)
  {
    hide WellFormed, EndpointKey, Backs, NamesApart, NewStatus, ReplicaServed;
    if NamesApart(rt) {
      PhaseTold(rt, found, m);
    }
    forall s | s in rt.services
      ensures var name := EndpointKey(rt.key, s.name);
              name in v.table.endpoints && forall e :: e in v.table.endpoints[name] <==> Backs(m, rt, s, e)
    {
      var i :| 0 <= i < |rt.services| && rt.services[i] == s;
      assert rt.services[i].name in found;
    }
  }

  lemma WellFormedServices(rt: Runtime)
    requires WellFormed(rt)
    ensures DistinctServices(rt.services)
  {
  }

  lemma DiscoveringTells(o: Oracle, w: World, rt: Runtime)
    requires FaultFree(o) && WellFormed(rt) && Discovering(o, w, rt).ending == Applied
    ensures var v := Discovering(o, w, rt).world;
            && v.cluster.containers == w.cluster.containers && Cached(v.table, w.cluster.containers, rt)
            && (NamesApart(rt) ==> Reported(v, w.cluster.containers, rt))
  {
    hide WellFormed, Endpoints.Refresh, RecordFailed, Publish, Told, Covers, Cached, Reported, NamesApart, TargetPort, Matching;
    Dating.DiscoveringContainers(o, w, rt);
    Serving.TargetPortsFound(rt);
    WellFormedServices(rt);
    RefreshCovers(o, w.cluster, rt, |rt.services|);
    var found := Endpoints.Refresh(o, w.cluster, rt, |rt.services|);
    PublishTells(o, w.(cluster := found.cluster), rt, found.value.value);
    ToldOf(Discovering(o, w, rt).world, rt, found.value.value, w.cluster.containers);
  }

  lemma RollingTells(o: Oracle, cfg: Config, w: World, rt: Runtime, prior: Prior)
    requires FaultFree(o) && WellFormed(rt) && Rolling(o, cfg, w, rt, prior).ending == Applied
    ensures var v := Rolling(o, cfg, w, rt, prior).world;
            Cached(v.table, v.cluster.containers, rt) && (NamesApart(rt) ==> Reported(v, v.cluster.containers, rt))
  {
    hide FaultFree, WellFormed, Rollout.Reconcile, Discovering, RecordFailed, Rollback, Cached, Reported, NamesApart;
    var out := Rollout.Reconcile(o, cfg.selfHeal, w.cluster, rt);
    if out.ok {
      DiscoveringTells(o, w.(cluster := out.cluster), rt);
    } else if prior.Prior? {
      RollbackShows(o, w.(cluster := out.cluster), rt, prior, out.cluster.specs, out.cluster.specs[prior.rt.key.Path() := prior.rt]);
    }
  }

  /** After an Apply that reports success with no engine call failing, the cached endpoints of
      every service are exactly the containers in service that back it, as they are when Apply
      returns; and the runtime is reported Running if and only if each replica's own container is
      among them, and otherwise Degraded. */
  lemma AppliedIsServed(o: Oracle, cfg: Config, w: World, rt: Runtime, filed: Option<Status>)
    requires Inv(w) && FaultFree(o) && Apply(o, cfg, w, rt, filed).ending == Applied
    ensures var v, given := Apply(o, cfg, w, rt, filed).world, WithGeneration(w.cluster.specs, rt);
            && Cached(v.table, v.cluster.containers, given)
            && (NamesApart(given) ==> Reported(v, v.cluster.containers, given))
  {
    hide FaultFree, Inv, Accepted, Apply, WithGeneration, WritePhase, EnsureNetwork, Rolling, RecordFailed, Cached, Reported, NamesApart;
    if Accepted(cfg, w, rt) {
      var v, given, prior := ApplyIsCarry(o, cfg, w, rt, filed);
      AcceptedValid(cfg, w, rt);
      var phase := if given.key.Path() in v.cluster.specs then Updating else Pending;
      var network := EnsureNetwork(o, WritePhase(v.cluster, given, phase));
      if network.ok {
        RollingTells(o, cfg, v.(cluster := WritePhase(network.cluster, given, Starting)), given, prior);
      }
    } else {
      Runs.RejectedIsSilent(o, cfg, w, rt, filed);
    }
  }

  lemma AcceptedValid(cfg: Config, w: World, rt: Runtime)
    requires Accepted(cfg, w, rt)
    ensures WellFormed(WithGeneration(w.cluster.specs, rt))
  {
  }

  // ---------------------------------------------------------------------- Resync

  /** One turn of a Resync that works tells the same. */
  lemma ResyncOneServes(o: Oracle, cfg: Config, w: World, rt: Runtime)
    requires FaultFree(o) && WellFormed(rt) && ResyncOne(o, cfg, w, rt).ok
    ensures var v := ResyncOne(o, cfg, w, rt).world;
            Cached(v.table, v.cluster.containers, rt) && (NamesApart(rt) ==> Reported(v, v.cluster.containers, rt))
  {
    hide FaultFree, WellFormed, Rollout.Reconcile, Endpoints.Refresh, RecordFailed, Covers, Cached, Reported, NamesApart, TargetPort, Matching,
      NewStatus, EndpointKey, PutEndpoints;
    var out := Rollout.Reconcile(o, cfg.selfHeal, w.cluster, rt);
    if out.ok {
      Serving.TargetPortsFound(rt);
      WellFormedServices(rt);
      RefreshCovers(o, out.cluster, rt, |rt.services|);
      Endpoints.RefreshOnlyReads(o, out.cluster, rt, |rt.services|);
      var found := Endpoints.Refresh(o, out.cluster, rt, |rt.services|);
      var v := ResyncOne(o, cfg, w, rt).world;
      assert Told(v, rt, found.value.value);
      ToldOf(v, rt, found.value.value, v.cluster.containers);
    }
  }

  /** Nothing of another runtime has changed in the cache or among the statuses. */
  ghost predicate Apart(w: World, v: World, other: Key) {
    && (other.Path() in w.cluster.statuses ==>
          other.Path() in v.cluster.statuses && v.cluster.statuses[other.Path()] == w.cluster.statuses[other.Path()])
    && forall s :: var e := EndpointKey(other, s);
         (e in v.table.endpoints <==> e in w.table.endpoints) && (e in v.table.endpoints ==> v.table.endpoints[e] == w.table.endpoints[e])
  }

  lemma CacheApart(endpoints: map<string, seq<Endpoint>>, key: Key, found: Discovered, other: Key)
    requires ValidKey(key) && ValidKey(other) && key != other
    ensures forall s :: var e, out := EndpointKey(other, s), PutEndpoints(endpoints, key, found);
              (e in out <==> e in endpoints) && (e in out ==> out[e] == endpoints[e])
  {
    forall s, t
      ensures EndpointKey(other, s) != EndpointKey(key, t)
    {
      PrefixIsOwner(key, other, s);
      OwnKeyHasPrefix(key, t);
    }
    hide EndpointKey, PutEndpoints;
  }

  lemma RolloutApart(o: Oracle, cfg: Config, w: World, rt: Runtime, other: Key)
    requires Current(w.cluster, rt) && ValidKey(rt.key) && rt.key != other
    ensures var c := Rollout.Reconcile(o, cfg.selfHeal, w.cluster, rt).cluster;
            && other.Path() != rt.key.Path()
            && (other.Path() in w.cluster.statuses ==>
                  other.Path() in c.statuses && c.statuses[other.Path()] == w.cluster.statuses[other.Path()])
            && Endpoints.OnlyTime(c, Endpoints.Refresh(o, c, rt, |rt.services|).cluster)
  {
    ReconcileEffect(o, cfg.selfHeal, w.cluster, rt);
    var c := Rollout.Reconcile(o, cfg.selfHeal, w.cluster, rt).cluster;
    Endpoints.RefreshOnlyReads(o, c, rt, |rt.services|);
    if other.Path() == rt.key.Path() {
      KeyPathInjective(rt.key, other);
    }
    assert StatusesKept(w.cluster, c, rt);
    hide Rollout.Reconcile, Endpoints.Refresh, ValidKey, Within, Endpoints.OnlyTime;
  }

  /** What a turn writes: the runtime's own status, and its own cache entries if it comes to that. */
  lemma ResyncOneWrites(o: Oracle, cfg: Config, w: World, rt: Runtime)
    requires var c := Rollout.Reconcile(o, cfg.selfHeal, w.cluster, rt).cluster;
             Endpoints.OnlyTime(c, Endpoints.Refresh(o, c, rt, |rt.services|).cluster)
    ensures var c := Rollout.Reconcile(o, cfg.selfHeal, w.cluster, rt).cluster;
            var found, v := Endpoints.Refresh(o, c, rt, |rt.services|), ResyncOne(o, cfg, w, rt).world;
            && OwnStatus(c, v.cluster, rt)
            && (v.table.endpoints == w.table.endpoints
                || (found.value.Some? && v.table.endpoints == PutEndpoints(w.table.endpoints, rt.key, found.value.value)))
  {
    hide Rollout.Reconcile, Endpoints.Refresh, NewStatus, PutEndpoints, RecordFailed, OwnStatus;
    var c := Rollout.Reconcile(o, cfg.selfHeal, w.cluster, rt).cluster;
    var found := Endpoints.Refresh(o, c, rt, |rt.services|);
    FailedWrites(o, w.(cluster := c), c, rt);
    FailedWrites(o, w.(cluster := found.cluster), c, rt);
    assert OwnStatus(c, ResyncOne(o, cfg, w, rt).world.cluster, rt) by {
      if Rollout.Reconcile(o, cfg.selfHeal, w.cluster, rt).ok && found.value.Some? {
        DoneWrites(c, found.cluster, ResyncOne(o, cfg, w, rt).world.cluster, rt, NewStatus(rt, Running, found.value.value, false));
      }
    }
  }

  ghost predicate OwnStatus(c: Cluster, e: Cluster, rt: Runtime) {
    forall k :: k in c.statuses && k != rt.key.Path() ==> k in e.statuses && e.statuses[k] == c.statuses[k]
  }

  lemma DoneWrites(c: Cluster, d: Cluster, e: Cluster, rt: Runtime, status: Status)
    requires d.statuses == c.statuses && e.statuses == d.statuses[rt.key.Path() := status]
    ensures OwnStatus(c, e, rt)
  {
  }

  lemma FailedWrites(o: Oracle, w: World, c: Cluster, rt: Runtime)
    requires w.cluster.statuses == c.statuses
    ensures RecordFailed(o, w, rt).table == w.table && OwnStatus(c, RecordFailed(o, w, rt).cluster, rt)
  {
    hide NewStatus;
  }

  /** A later turn touches neither cache nor status of another runtime. */
  lemma ResyncOneApart(o: Oracle, cfg: Config, w: World, rt: Runtime, other: Key)
    requires Current(w.cluster, rt) && ValidKey(rt.key) && ValidKey(other) && rt.key != other
    ensures Apart(w, ResyncOne(o, cfg, w, rt).world, other)
  {
    hide Rollout.Reconcile, Endpoints.Refresh, PutEndpoints, EndpointKey, ValidKey, ResyncOne, Endpoints.OnlyTime, Current;
    RolloutApart(o, cfg, w, rt, other);
    ResyncOneWrites(o, cfg, w, rt);
    var found := Endpoints.Refresh(o, Rollout.Reconcile(o, cfg.selfHeal, w.cluster, rt).cluster, rt, |rt.services|);
    if found.value.Some? {
      CacheApart(w.table.endpoints, rt.key, found.value.value, other);
    }
  }

  /** A Resync, turn by turn: every runtime in memory is told of as its own turn left the
      containers, and no later turn changes what is told. */
  lemma {:induction false} ResyncServes(o: Oracle, cfg: Config, w: World, rts: seq<Runtime>, i: nat)
    requires FaultFree(o) && Keyed(w.cluster.specs) && i < |rts| && ResyncEach(o, cfg, w, rts).ok
    requires forall rt :: rt in rts ==> Current(w.cluster, rt) && WellFormed(rt)
    requires forall j, k :: 0 <= j < k < |rts| ==> rts[j].key != rts[k].key
    ensures var v, m := ResyncEach(o, cfg, w, rts).world, ResyncEach(o, cfg, w, rts[..i + 1]).world.cluster.containers;
            Cached(v.table, m, rts[i]) && (NamesApart(rts[i]) ==> Reported(v, m, rts[i]))
    decreases |rts|
  {
    hide FaultFree, WellFormed, ResyncOne, Cached, Reported, NamesApart, Keyed, Shows;
    var u, rt := rts[..|rts| - 1], rts[|rts| - 1];
    assert rts == u + [rt];
    var before := ResyncEach(o, cfg, w, u);
    assert forall r :: r in u ==> r in rts;
    Runs.ResyncEachShows(o, cfg, w, u);
    if i == |rts| - 1 {
      assert rts[..i + 1] == rts;
      ResyncOneServes(o, cfg, before.world, rt);
    } else {
      ResyncServes(o, cfg, w, u, i);
      assert u[..i + 1] == rts[..i + 1];
      assert rt in rts && u[i] in rts && u[i] == rts[i];
      StillTold(o, cfg, before.world, rt, u[i], ResyncEach(o, cfg, w, rts[..i + 1]).world.cluster.containers);
    }
  }

  lemma StillTold(o: Oracle, cfg: Config, w: World, rt: Runtime, other: Runtime, m: Docker.Containers)
    requires Current(w.cluster, rt) && WellFormed(rt) && WellFormed(other) && rt.key != other.key
    requires Cached(w.table, m, other) && (NamesApart(other) ==> Reported(w, m, other))
    ensures var v := ResyncOne(o, cfg, w, rt).world;
            Cached(v.table, m, other) && (NamesApart(other) ==> Reported(v, m, other))
  {
    WellFormedKey(rt);
    WellFormedKey(other);
    ResyncOneApart(o, cfg, w, rt, other.key);
    hide WellFormed, ResyncOne, NamesApart, ReplicaServed, Backs, EndpointKey;
  }

  /** So after a Resync that works with no engine call failing, every runtime in memory has its
      services' endpoints in the cache and its phase reported, as its turn left the containers. */
  lemma ResyncIsServed(o: Oracle, cfg: Config, w: World, i: nat)
    requires Inv(w) && FaultFree(o) && Resync(o, cfg, w).ok && i < |InMemory(w.cluster.specs)|
    ensures var rts := InMemory(w.cluster.specs);
            var v, m := Resync(o, cfg, w).world, ResyncEach(o, cfg, w, rts[..i + 1]).world.cluster.containers;
            Cached(v.table, m, rts[i]) && (NamesApart(rts[i]) ==> Reported(v, m, rts[i]))
  {
    var rts := InMemory(w.cluster.specs);
    Runs.SoundOfInv(w);
    InMemoryCurrent(w.cluster);
    InMemoryApart(w);
    hide Inv, FaultFree, WellFormed, ResyncEach, Cached, Reported, NamesApart, InMemory, Keyed;
    ResyncServes(o, cfg, w, rts, i);
  }

  lemma InMemoryApart(w: World)
    requires Inv(w)
    ensures var rts := InMemory(w.cluster.specs);
            && Keyed(w.cluster.specs) && (forall rt :: rt in rts ==> WellFormed(rt))
            && forall j, k :: 0 <= j < k < |rts| ==> rts[j].key != rts[k].key
  {
    hide WellFormed, Rebuilt;
    var specs := w.cluster.specs;
    var keys, rts := InOrder(specs.Keys), InMemory(specs);
    forall j, k | 0 <= j < k < |rts|
      ensures rts[j].key != rts[k].key
    {
      assert keys[j] in keys && keys[k] in keys && keys[j] != keys[k];
      assert specs[keys[j]].key.Path() == keys[j] && specs[keys[k]].key.Path() == keys[k];
    }
    forall rt | rt in rts
      ensures WellFormed(rt)
    {
      var j :| 0 <= j < |rts| && rts[j] == rt;
      assert keys[j] in keys;
    }
  }
}
