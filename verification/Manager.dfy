/** The controller itself: an object with the program's fields, whose methods work on them step
    by step. Each method is proved to do what the state machine does, so what is proved of
    the machine holds of the object. */
module Managers {
  import opened Collections
  import opened Text
  import opened Sorting
  import opened Runtimes
  import opened Naming
  import opened Routing
  import opened RouteTable
  import opened Statuses
  import opened Restarts
  import opened Docker
  import opened Rollout
  import opened Controller
  import opened Invariants
  import Endpoints
  import Admission
  import Quantities
  import RoundRobin

  class Manager {
    const o: Oracle
    const cfg: Config

    var specs: map<string, Runtime>
    var statuses: map<string, Status>
    var restarts: map<string, Record>
    var routes: map<int, seq<Route>>
    var servers: map<int, nat>
    var endpoints: map<string, seq<Endpoint>>
    var next: map<string, int>

    // The surroundings: the engine's containers, the spec files, the clock.
    var containers: map<string, Container>
    var store: map<string, Runtime>
    var started: nat
    var tick: nat
    var now: nat

    ghost var trace: seq<Snapshot>
    ghost var routed: map<string, Runtime>

    ghost function Here(): Cluster
      reads this
    {
      Cluster(specs, statuses, restarts, containers, tick, now, trace)
    }

    ghost function Proxy(): Table
      reads this
    {
      Table(routes, servers, endpoints, started)
    }

    ghost function View(): World
      reads this
    {
      World(Here(), Proxy(), store, routed)
    }

    /** `NewManager`, on the files and containers it finds. */
    constructor (o: Oracle, cfg: Config, store: map<string, Runtime>, containers: map<string, Container>)
      ensures this.o == o && this.cfg == cfg
      ensures View() == World(Cluster(map[], map[], map[], containers, 0, 0, []), Table(map[], map[], map[], 0), store, map[])
      ensures next == map[]
    {
      this.o, this.cfg, this.store, this.containers := o, cfg, store, containers;
      specs, statuses, restarts, routes, servers, endpoints, next := map[], map[], map[], map[], map[], map[], map[];
      started, tick, now, trace, routed := 0, 0, 0, [], map[];
    }

    // ------------------------------------------------------------- the engine

    method Call(op: Op) returns (fault: Fault)
      modifies this`tick, this`now
      ensures Here() == Tick(o, old(Here())) && fault == o.fault(op, old(tick))
    {
      fault := o.fault(op, tick);
      now := now + o.delay(tick);
      tick := tick + 1;
    }

    method SetContainers(m: map<string, Container>)
      modifies this`containers, this`trace
      ensures Here() == Docker.SetContainers(old(Here()), m)
    {
      containers := m;
      trace := trace + [Snapshot(specs, m)];
    }

    method RemoveOne(name: string) returns (ok: bool)
      modifies this`containers, this`trace, this`tick, this`now
      ensures Outcome(Here(), ok) == RemoveContainer(o, old(Here()), name)
    {
      var fault := Call(CallRm);
      if fault != Refused {
        SetContainers(containers - {name});
      }
      ok := fault == Works;
    }

    method Rename(from: string, to: string) returns (ok: bool)
      modifies this`containers, this`trace, this`tick, this`now
      ensures Outcome(Here(), ok) == RenameContainer(o, old(Here()), from, to)
    {
      var fault := Call(CallRename);
      if from !in containers || to in containers {
        return false;
      }
      if fault != Refused {
        SetContainers((containers - {from})[to := containers[from]]);
      }
      ok := fault == Works;
    }

    method Inspect(op: Op, name: string) returns (found: Option<Container>)
      modifies this`tick, this`now
      ensures Answer(Here(), found) == Read(o, old(Here()), op, name)
    {
      var fault := Call(op);
      found := if fault == Works && name in containers then Quantities.Some(containers[name]) else Quantities.None;
    }

    method ListContainers(names: set<string>) returns (listed: Option<seq<string>>)
      modifies this`tick, this`now
      ensures Answer(Here(), listed) == ListNames(o, old(Here()), names)
    {
      var order := o.listing(tick, names);
      var fault := Call(List);
      listed := if fault == Works then Quantities.Some(order) else Quantities.None;
    }

    // ---------------------------------------------------------- status writes

    method WriteStatus(rt: Runtime, status: Status)
      modifies this`specs, this`statuses, this`trace
      ensures Here() == Write(old(Here()), rt, status)
    {
      specs := specs[rt.key.Path() := rt];
      statuses := statuses[rt.key.Path() := status];
      trace := trace + [Snapshot(specs, containers)];
    }

    method UpdateRuntimeStatus(rt: Runtime, phase: Phase)
      modifies this`specs, this`statuses, this`trace
      ensures Here() == WritePhase(old(Here()), rt, phase)
    {
      var status := NewStatusWithOptions(rt, phase, map[], false);
      WriteStatus(rt, status);
    }

    method RunContainer(rt: Runtime, d: Deployment, replica: int, name: string) returns (ok: bool)
      modifies this`specs, this`statuses, this`containers, this`trace, this`tick, this`now
      ensures Outcome(Here(), ok) == Docker.RunContainer(o, old(Here()), rt, d, replica, name)
    {
      hide NewStatus;
      UpdateRuntimeStatus(rt, Pulling);
      UpdateRuntimeStatus(rt, Starting);
      var fault := Call(CallRun);
      if name in containers {
        return false;
      }
      match fault {
        case Works => SetContainers(containers[name := Made(rt, d, replica, READY)]);
        case Refused =>
        case Broken(left) => SetContainers(containers[name := Made(rt, d, replica, left)]);
      }
      ok := fault == Works;
    }

    // -------------------------------------------------------------- self-heal

    function RestartRecord(name: string): Record
      reads this
    {
      if name in restarts then restarts[name] else FRESH
    }

    method MarkRestartHealthy(name: string)
      modifies this`restarts
      ensures Here() == MarkHealthy(old(Here()), name)
    {
      var r := RestartRecord(name);
      if r.count == 0 && r.streak == 0 {
        return;
      }
      r := r.(streak := 0, note := Nothing, past := r.past + [Recovered]);
      restarts := restarts[name := r];
    }

    method SetRestartMessage(name: string, note: Note)
      modifies this`restarts
      ensures Here() == SetRecord(old(Here()), name, RecordOf(old(Here()), name).(note := note))
    {
      restarts := restarts[name := RestartRecord(name).(note := note)];
    }

    method HealContainer(rt: Runtime, d: Deployment, replica: int, name: string) returns (restarted: bool, ok: bool)
      modifies this`specs, this`statuses, this`restarts, this`containers, this`trace, this`tick, this`now
      ensures Healing(Here(), restarted, ok) == Rollout.HealContainer(o, cfg.selfHeal, old(Here()), rt, d, replica, name)
    {
      hide NewStatus, Docker.RunContainer, RemoveContainer;
      var selfHeal := cfg.selfHeal;
      if !selfHeal.enabled {
        SetRestartMessage(name, Failing);
        return false, true;
      }
      var record := RestartRecord(name);
      if record.streak >= selfHeal.maxRestarts {
        SetRestartMessage(name, LimitExceeded);
        return false, true;
      }
      if now < record.next {
        SetRestartMessage(name, BackingOff);
        return false, true;
      }
      var streak := record.streak + 1;
      var past := record.past + [Restarted(now)];
      restarts := restarts[name := Record(record.count + 1, streak, now, now + streak * selfHeal.backoff, Failing, past)];
      UpdateRuntimeStatus(rt, Updating);
      ok := RemoveOne(name);
      if ok {
        ok := RunContainer(rt, d, replica, name);
      }
      return true, ok;
    }

    // ---------------------------------------------------------------- rollout

    method ContainerExists(name: string) returns (there: bool)
      modifies this`tick, this`now
      ensures Probe(Here(), there) == Exists(o, old(Here()), name)
    {
      var found := Inspect(InspectId, name);
      there := found.Some?;
    }

    method ContainerNeedsRecreate(name: string, d: Deployment) returns (recreate: bool)
      modifies this`tick, this`now
      ensures Probe(Here(), recreate) == Drifted(o, old(Here()), name, d.specHash)
    {
      var found := Inspect(InspectHash, name);
      if found.Some? && found.value.hash != "" {
        return found.value.hash != d.specHash;
      }
      found := Inspect(InspectHash, name);
      if found.None? {
        return false;
      }
      recreate := found.value.legacyHash == "" || found.value.legacyHash != d.specHash;
    }

    method ReplaceContainerWithSurge(rt: Runtime, d: Deployment, replica: nat, name: string) returns (ok: bool)
      modifies this`specs, this`statuses, this`containers, this`trace, this`tick, this`now
      ensures Outcome(Here(), ok) == ReplaceWithSurge(o, old(Here()), rt, d, replica, name)
    {
      hide NewStatus, Docker.RunContainer, RemoveContainer, RenameContainer, SurgeName;
      var surge := SurgeName(rt.key, d, replica, rt.generation);
      ok := RunContainer(rt, d, replica, surge);
      if ok {
        ok := RemoveOne(name);
      }
      if ok {
        ok := Rename(surge, name);
      }
    }

    /** One turn of the loop of `ensureDeployment`. */
    method EnsureReplica(rt: Runtime, d: Deployment, replica: nat) returns (ok: bool)
      modifies this`specs, this`statuses, this`restarts, this`containers, this`trace, this`tick, this`now
      ensures Outcome(Here(), ok) == Rollout.EnsureReplica(o, cfg.selfHeal, old(Here()), rt, d, replica)
    {
      hide Canonical, Docker.RunContainer, Rollout.HealContainer, ReplaceWithSurge, RemoveContainer, Read, MarkHealthy;
      var name := Canonical(rt.key, d, replica);
      var there := ContainerExists(name);
      if there {
        var recreate := ContainerNeedsRecreate(name, d);
        if recreate {
          if d.strategy.RollingUpdate? && d.strategy.maxSurge > 0 {
            ok := ReplaceContainerWithSurge(rt, d, replica, name);
            return;
          }
          ok := RemoveOne(name);
          if !ok {
            return;
          }
          there := false;
        }
      }
      if there {
        var state := Inspect(InspectState, name);
        if state.None? {
          return false;
        }
        if Ready(state.value.state) {
          MarkRestartHealthy(name);
        }
        ok := true;
        if NeedsRestart(state.value.state) {
          var restarted;
          restarted, ok := HealContainer(rt, d, replica, name);
        }
      } else {
        ok := RunContainer(rt, d, replica, name);
      }
    }

    method EnsureDeployment(rt: Runtime, d: Deployment) returns (ok: bool)
      modifies this`specs, this`statuses, this`restarts, this`containers, this`trace, this`tick, this`now
      ensures Outcome(Here(), ok) == Ensure(o, cfg.selfHeal, old(Here()), rt, d)
    {
      hide Rollout.EnsureReplica, RemoveExtra;
      var replica := 1;
      while replica <= d.replicas
        invariant 1 <= replica && (d.replicas >= 0 ==> replica <= d.replicas + 1)
        invariant d.replicas < 0 ==> replica == 1
        invariant Outcome(Here(), true) == EnsureReplicas(o, cfg.selfHeal, old(Here()), rt, d, replica - 1)
      {
        ok := EnsureReplica(rt, d, replica);
        if !ok {
          StopsEarly(o, cfg, old(Here()), rt, d, replica, Replicas(d));
          return;
        }
        replica := replica + 1;
      }
      ok := RemoveExtraReplicas(rt, d);
    }

    /** `docker rm` one by one, up to the first failure. */
    method RemoveAll(names: seq<string>) returns (ok: bool)
      modifies this`containers, this`trace, this`tick, this`now
      ensures Outcome(Here(), ok) == RemoveEach(o, old(Here()), names)
    {
      hide RemoveContainer;
      for i := 0 to |names|
        invariant Outcome(Here(), true) == RemoveEach(o, old(Here()), names[..i])
      {
        ok := RemoveOne(names[i]);
        assert names[..i + 1][..i] == names[..i];
        if !ok {
          RemovalStops(o, old(Here()), names, i + 1);
          return;
        }
      }
      assert names[..|names|] == names;
      ok := true;
    }

    method RemoveExtraReplicas(rt: Runtime, d: Deployment) returns (ok: bool)
      modifies this`containers, this`trace, this`tick, this`now
      ensures Outcome(Here(), ok) == RemoveExtra(o, old(Here()), rt, d)
    {
      hide RemoveEach;
      var seen := containers;
      var listed := ListContainers(OwnedNames(containers, rt.key, d.name));
      if listed.None? {
        return false;
      }
      var extra: seq<string> := [];
      var names := listed.value;
      for i := 0 to |names|
        invariant extra == Filter(names[..i], IsExtra(seen, d))
        invariant Here() == ListNames(o, old(Here()), OwnedNames(seen, rt.key, d.name)).cluster
      {
        FilterSnoc(names[..i], names[i], IsExtra(seen, d));
        assert names[..i + 1] == names[..i] + [names[i]];
        if names[i] in seen && Extra(seen[names[i]], d) {
          extra := extra + [names[i]];
        }
      }
      assert names[..|names|] == names;
      ok := RemoveAll(extra);
    }

    method ReconcileDeployments(rt: Runtime) returns (ok: bool)
      modifies this`specs, this`statuses, this`restarts, this`containers, this`trace, this`tick, this`now
      ensures Outcome(Here(), ok) == Reconcile(o, cfg.selfHeal, old(Here()), rt)
    {
      hide Ensure;
      var ds := rt.deployments;
      for i := 0 to |ds|
        invariant Outcome(Here(), true) == EnsureAll(o, cfg.selfHeal, old(Here()), rt, ds[..i])
      {
        ok := EnsureDeployment(rt, ds[i]);
        assert ds[..i + 1][..i] == ds[..i];
        if !ok {
          ReconcileStops(o, cfg, old(Here()), rt, ds, i + 1);
          return;
        }
      }
      assert ds[..|ds|] == ds;
      ok := true;
    }

    // -------------------------------------------------------------- endpoints

    method DiscoverDeploymentEndpoints(key: Key, deployment: string, port: int) returns (found: Option<seq<Endpoint>>)
      modifies this`tick, this`now
      ensures Answer(Here(), found) == Endpoints.DiscoverDeployment(o, old(Here()), key, deployment, port)
    {
      hide Endpoints.Pods, Endpoints.LegacyPods, Ready;
      var listed := ListContainers(Endpoints.Pods(containers, key, deployment));
      if listed.None? || listed.value == [] {
        listed := ListContainers(Endpoints.LegacyPods(containers, key, deployment));
      }
      if listed.None? {
        return Quantities.None;
      }
      ghost var before := Here();
      var names := listed.value;
      var es: seq<Endpoint> := [];
      for i := 0 to |names|
        invariant Endpoints.Found.Found(Here(), es) == Endpoints.Inspect(o, before, names[..i], port)
      {
        assert names[..i + 1][..i] == names[..i];
        var pod := Inspect(InspectEndpoint, names[i]);
        if pod.Some? && Ready(pod.value.state) {
          es := es + [Endpoint(names[i], port)];
        }
      }
      assert names[..|names|] == names;
      found := Quantities.Some(es);
    }

    method DiscoverEndpoints(rt: Runtime, s: Service) returns (found: Option<seq<Endpoint>>)
      modifies this`tick, this`now
      ensures Answer(Here(), found) == Endpoints.Discover(o, old(Here()), rt, s)
    {
      hide Matching, TargetPort, Endpoints.DiscoverDeployment;
      var ds := Matching(rt, s.selector);
      var port := TargetPort(s, ds);
      if port == 0 {
        return Quantities.None;
      }
      var es: seq<Endpoint> := [];
      for i := 0 to |ds|
        invariant Answer(Here(), Quantities.Some(es)) == Endpoints.DiscoverEach(o, old(Here()), rt.key, ds[..i], port)
      {
        assert ds[..i + 1][..i] == ds[..i];
        var here := DiscoverDeploymentEndpoints(rt.key, ds[i].name, port);
        if here.None? {
          DiscoveryStops(o, old(Here()), rt.key, ds, port, i + 1);
          return Quantities.None;
        }
        es := es + here.value;
      }
      assert ds[..|ds|] == ds;
      found := Quantities.Some(SortBy(es, Endpoints.ByContainer()));
    }

    method RefreshRuntimeEndpoints(rt: Runtime) returns (found: Option<Discovered>)
      modifies this`tick, this`now
      ensures Answer(Here(), found) == Endpoints.Refresh(o, old(Here()), rt, |rt.services|)
    {
      hide Endpoints.Discover;
      var refreshed: Discovered := map[];
      for i := 0 to |rt.services|
        invariant Answer(Here(), Quantities.Some(refreshed)) == Endpoints.Refresh(o, old(Here()), rt, i)
      {
        var es := DiscoverEndpoints(rt, rt.services[i]);
        if es.None? {
          RefreshStops(o, old(Here()), rt, i + 1, |rt.services|);
          return Quantities.None;
        }
        refreshed := refreshed[rt.services[i].name := es.value];
      }
      found := Quantities.Some(refreshed);
    }

    method EnsureNetwork() returns (ok: bool)
      modifies this`tick, this`now
      ensures Outcome(Here(), ok) == Controller.EnsureNetwork(o, old(Here()))
    {
      var found := Call(Network);
      if found == Works {
        return true;
      }
      var created := Call(Network);
      ok := created == Works;
    }

    // ------------------------------------------------------------ route table

    method KeepOthers(rs: seq<Route>, key: Key) returns (kept: seq<Route>)
      ensures kept == Others(rs, key)
    {
      kept := [];
      for i := 0 to |rs|
        invariant kept == Others(rs[..i], key)
      {
        FilterSnoc(rs[..i], rs[i], NotOf(key));
        assert rs[..i + 1] == rs[..i] + [rs[i]];
        if rs[i].key != key {
          kept := kept + [rs[i]];
        }
      }
      assert rs[..|rs|] == rs;
    }

    /** Port by port in any order: filter the list, drop it when empty, note the listener. */
    method RemoveRoutesForKey(key: Key) returns (stops: set<int>)
      modifies this`routes
      ensures routes == WithoutKey(old(routes), key) && stops == Emptied(old(routes), servers, key)
    {
      hide Others;
      ghost var before := routes;
      var todo := routes.Keys;
      stops := {};
      while todo != {}
        invariant todo <= before.Keys
        invariant forall p :: p in todo ==> p in routes && routes[p] == before[p]
        invariant forall p :: p in routes <==> p in todo || (p in before && Others(before[p], key) != [])
        invariant forall p :: p in routes && p !in todo ==> routes[p] == Others(before[p], key)
        invariant forall p :: p in stops <==> p in before && p !in todo && p in servers && Others(before[p], key) == []
      {
        ghost var some := SomeMember(todo);
        var p :| p in todo;
        todo := todo - {p};
        var filtered := KeepOthers(routes[p], key);
        if filtered == [] {
          routes := routes - {p};
          if p in servers {
            stops := stops + {p};
          }
        } else {
          routes := routes[p := filtered];
        }
      }
      RemovalIs(before, routes, servers, key, stops);
    }

    method ForgetEndpoints(key: Key)
      modifies this`endpoints
      ensures endpoints == DropEndpoints(old(endpoints), key)
    {
      ghost var before := endpoints;
      var todo := endpoints.Keys;
      while todo != {}
        invariant todo <= before.Keys
        invariant forall e :: e in endpoints ==> e in before && endpoints[e] == before[e]
        invariant forall e :: e in todo ==> e in endpoints
        invariant forall e :: e in before && e !in todo ==> (e in endpoints <==> !(key.Path() + "/" <= e))
      {
        var e :| e in todo;
        todo := todo - {e};
        if key.Path() + "/" <= e {
          endpoints := endpoints - {e};
        }
      }
      assert endpoints == DropEndpoints(before, key);
    }

    method StoreEndpoints(key: Key, refreshed: Discovered)
      modifies this`endpoints
      ensures endpoints == PutEndpoints(old(endpoints), key, refreshed)
    {
      hide EndpointKey, PutEndpoints;
      NothingPut(endpoints, key);
      var todo := refreshed.Keys;
      assert refreshed - todo == map[];
      while todo != {}
        invariant todo <= refreshed.Keys
        invariant endpoints == PutEndpoints(old(endpoints), key, refreshed - todo)
      {
        var s :| s in todo;
        PutOneMore(old(endpoints), key, refreshed - todo, s, refreshed[s]);
        LeaveOneLess(refreshed, todo, s);
        todo := todo - {s};
        endpoints := endpoints[EndpointKey(key, s) := refreshed[s]];
      }
      assert refreshed - todo == refreshed;
    }

    /** Appends and sorts the lists of the given ports, and notes the ports to start. */
    method AddRoutes(added: map<int, seq<Route>>) returns (starts: set<int>)
      modifies this`routes
      ensures routes == Appended(old(routes), added) && starts == set p | p in added && p !in servers
    {
      hide SortRoutes;
      ghost var before := routes;
      var todo := added.Keys;
      starts := {};
      while todo != {}
        invariant todo <= added.Keys
        invariant forall p :: p in routes <==> p in before || (p in added && p !in todo)
        invariant forall p :: p in routes && (p !in added || p in todo) ==> p in before && routes[p] == before[p]
        invariant forall p :: p in added && p !in todo ==> routes[p] == SortRoutes(RoutesAt(before, p) + added[p])
        invariant forall p :: p in starts <==> p in added && p !in todo && p !in servers
      {
        ghost var some := SomeMember(todo);
        var p :| p in todo;
        todo := todo - {p};
        var list := if p in routes then routes[p] else [];
        routes := routes[p := SortRoutes(list + added[p])];
        if p !in servers {
          starts := starts + {p};
        }
      }
      AdditionIs(before, routes, servers, added, starts);
    }

    method ReplaceRoutesAndState(rt: Runtime, refreshed: Discovered, added: map<int, seq<Route>>)
      returns (starts: set<int>, stops: set<int>)
      modifies this`specs, this`trace, this`endpoints, this`routes, this`routed
      ensures Here() == Rewrite(old(Here()), rt)
      ensures Replacement(Proxy(), starts, stops) == RouteTable.Replace(old(Proxy()), rt, refreshed, added)
      ensures routed == old(routed)[rt.key.Path() := rt]
    {
      hide WithoutKey, Appended, PutEndpoints, DropEndpoints, Emptied;
      specs := specs[rt.key.Path() := rt];
      trace := trace + [Snapshot(specs, containers)];
      routed := routed[rt.key.Path() := rt];
      ForgetEndpoints(rt.key);
      StoreEndpoints(rt.key, refreshed);
      var emptied := RemoveRoutesForKey(rt.key);
      starts := AddRoutes(added);
      stops := set p | p in emptied && p !in routes;
    }

    /** `sort.Ints` */
    method SortPorts(s: set<int>) returns (ports: seq<int>)
      ensures ports == Ascending(s)
      decreases |s|
    {
      if s == {} {
        return [];
      }
      ghost var some := SomeMember(s);
      var m :| m in s;
      var todo := s - {m};
      while todo != {}
        invariant todo <= s && m in s && m !in todo
        invariant forall x :: x in s && x !in todo ==> m <= x
      {
        ghost var another := SomeMember(todo);
        var x :| x in todo;
        todo := todo - {x};
        if x < m {
          m := x;
        }
      }
      LeastUnique(s, m);
      var rest := SortPorts(s - {m});
      ports := [m] + rest;
    }

    method StartPort(port: int) returns (ok: bool)
      modifies this`servers, this`started, this`tick
      ensures ok == o.bind(old(tick)) && tick == old(tick) + 1
      ensures Proxy() == if ok then Listening(old(Proxy()), port) else old(Proxy())
    {
      ok := o.bind(tick);
      tick := tick + 1;
      if ok && port !in servers {
        servers := servers[port := started];
        started := started + 1;
      }
    }

    method StartAll(ports: seq<int>) returns (ok: bool)
      modifies this`servers, this`started, this`tick
      ensures var up := StartPorts(old(Proxy()), ports, o.bind, old(tick));
              Proxy() == up.table && tick == old(tick) + up.attempts && ok == up.ok
    {
      hide Listening;
      ghost var all := StartPorts(Proxy(), ports, o.bind, tick);
      assert ports[0..] == ports;
      for i := 0 to |ports|
        invariant var rest := StartPorts(Proxy(), ports[i..], o.bind, tick);
                  all == rest.(attempts := rest.attempts + i) && tick == old(tick) + i
      {
        assert ports[i..][0] == ports[i] && ports[i..][1..] == ports[i + 1..];
        ok := StartPort(ports[i]);
        if !ok {
          return;
        }
      }
      ok := true;
    }

    method StopPort(port: int)
      modifies this`servers
      ensures servers == old(servers) - {port}
    {
      servers := servers - {port};
    }

    method StopAll(ports: set<int>)
      modifies this`servers
      ensures Proxy() == StopPorts(old(Proxy()), ports)
    {
      var todo := ports;
      while todo != {}
        invariant todo <= ports && servers == old(servers) - (ports - todo)
        invariant routes == old(routes) && endpoints == old(endpoints) && started == old(started)
      {
        ghost var some := SomeMember(todo);
        var p :| p in todo;
        todo := todo - {p};
        assert old(servers) - (ports - todo) == old(servers) - (ports - todo - {p}) - {p};
        StopPort(p);
      }
    }

    /** `resolveRoute`: the first route of the port that matches and whose runtime is known. */
    method ResolveRoute(port: int, host: string, path: string) returns (target: Option<(Runtime, string)>)
      ensures var rs := RoutesAt(routes, port);
              var i := FirstMatch(rs, specs.Keys, host, path);
              target == if i < |rs| then Quantities.Some((specs[rs[i].key.Path()], rs[i].service)) else Quantities.None
    {
      hide Matches;
      var rs := RoutesAt(routes, port);
      for i := 0 to |rs|
        invariant forall j :: 0 <= j < i ==> !(Matches(rs[j], host, path) && rs[j].key.Path() in specs)
      {
        if Matches(rs[i], host, path) && rs[i].key.Path() in specs {
          return Quantities.Some((specs[rs[i].key.Path()], rs[i].service));
        }
      }
      return Quantities.None;
    }

    /** The caller has made sure that there is an endpoint. */
    method PickEndpoint(key: Key, service: string, es: seq<Endpoint>) returns (e: Endpoint)
      requires es != [] && RoundRobin.Bounded(next)
      modifies this`next
      ensures var name := EndpointKey(key, service);
              && e == es[RoundRobin.Counter(old(next), name) % |es|]
              && next == RoundRobin.Advance(old(next), name)
      ensures RoundRobin.Bounded(next)
    {
      var name := EndpointKey(key, service);
      var index := if name in next then next[name] else 0;
      next := next[name := (index + 1) % RoundRobin.TURN];
      e := es[index % |es|];
    }

    // -------------------------------------------------------------- the files

    method SaveRuntime(rt: Runtime) returns (ok: bool)
      modifies this`store, this`tick, this`now
      ensures Saved(View(), ok) == Controller.SaveRuntime(o, old(View()), rt)
    {
      var disk := FileCall();
      match disk {
        case Done => store := store[rt.key.Path() := rt];
        case Unchanged =>
        case Lost => store := store - {rt.key.Path()};
      }
      ok := disk == Done;
    }

    method FileCall() returns (disk: Disk)
      modifies this`tick, this`now
      ensures Here() == Tick(o, old(Here())) && disk == o.disk(old(tick))
    {
      disk := o.disk(tick);
      now := now + o.delay(tick);
      tick := tick + 1;
    }

    method DeleteRuntime(key: Key) returns (ok: bool)
      modifies this`store, this`tick, this`now
      ensures Saved(View(), ok) == Controller.DeleteRuntime(o, old(View()), key)
    {
      var disk := FileCall();
      if disk != Unchanged {
        store := store - {key.Path()};
      }
      ok := disk == Done;
    }

    /** `SaveStatus` and `writeProxyState` */
    method SaveOther() returns (ok: bool)
      modifies this`tick, this`now
      ensures Saved(View(), ok) == Controller.SaveOther(o, old(View()))
    {
      var disk := FileCall();
      ok := disk == Done;
    }

    method ReadStore(path: string) returns (found: Option<Runtime>)
      modifies this`tick, this`now
      ensures Answer(Here(), found) == Controller.ReadStore(o, old(View()), path)
    {
      var disk := FileCall();
      found := if disk == Done && path in store then Quantities.Some(store[path]) else Quantities.None;
    }

    method RecordFailedStatus(rt: Runtime)
      modifies this`specs, this`statuses, this`trace, this`store, this`tick, this`now
      ensures View() == RecordFailed(o, old(View()), rt)
    {
      hide NewStatus, Controller.SaveRuntime;
      var status := NewStatusWithOptions(rt, Failed, map[], true);
      WriteStatus(rt, status);
      var ok := SaveRuntime(rt);
      ok := SaveOther();
    }

    // --------------------------------------------------------------- rollback

    method PreviousRuntimeState(path: string, filed: Option<Status>) returns (prior: Prior)
      modifies this`tick, this`now
      ensures Recalled(Here(), prior) == Previous(o, old(View()), path, filed)
    {
      if path in specs {
        return Prior(specs[path], if path in statuses then Quantities.Some(statuses[path]) else Quantities.None);
      }
      var found := ReadStore(path);
      prior := if found.Some? then Prior(found.value, filed) else NoPrior;
    }

    method Purge(names: set<string>) returns (ok: bool)
      modifies this`containers, this`trace, this`tick, this`now
      ensures Outcome(Here(), ok) == Controller.Purge(o, old(Here()), names)
    {
      hide RemoveEach;
      var listed := ListContainers(names);
      if listed.None? {
        return false;
      }
      ok := RemoveAll(listed.value);
    }

    method RemoveOwnedContainersForGeneration(rt: Runtime) returns (ok: bool)
      modifies this`containers, this`trace, this`tick, this`now
      ensures Outcome(Here(), ok) == Cleanup(o, old(Here()), rt)
    {
      hide Controller.Purge, OfGeneration;
      if rt.generation <= 0 {
        return true;
      }
      ok := Purge(OfGeneration(containers, rt.key, rt.generation));
    }

    method RuntimeEndpoints(rt: Runtime) returns (out: Discovered)
      ensures out == CachedEndpoints(Proxy(), rt)
    {
      hide EndpointKey;
      out := map[];
      for i := 0 to |rt.services|
        invariant forall n :: n in out <==> exists j :: 0 <= j < i && rt.services[j].name == n
        invariant forall n :: n in out ==>
                    out[n] == if EndpointKey(rt.key, n) in endpoints then endpoints[EndpointKey(rt.key, n)] else []
      {
        var name := rt.services[i].name;
        out := out[name := if EndpointKey(rt.key, name) in endpoints then endpoints[EndpointKey(rt.key, name)] else []];
      }
      CachedIs(Proxy(), rt, out);
    }

    method RestorePreviousRuntime(prior: Prior) returns (ok: bool)
      requires prior.Prior?
      modifies this`specs, this`statuses, this`trace, this`store, this`tick, this`now
      ensures var status := if prior.status.Some? then prior.status.value
                            else NewStatus(prior.rt, Running, CachedEndpoints(old(Proxy()), prior.rt), false);
              Saved(View(), ok) == Restore(o, old(View()), prior.rt, status)
    {
      hide NewStatus, Controller.SaveRuntime;
      var status;
      if prior.status.Some? {
        status := prior.status.value;
      } else {
        var cached := RuntimeEndpoints(prior.rt);
        status := NewStatusWithOptions(prior.rt, Running, cached, false);
      }
      WriteStatus(prior.rt, status);
      ok := SaveRuntime(prior.rt);
      if ok {
        ok := SaveOther();
      }
    }

    method RollbackRuntime(failed: Runtime, prior: Prior) returns (ending: Ending)
      requires prior.Prior?
      modifies this`specs, this`statuses, this`containers, this`trace, this`store, this`tick, this`now
      ensures Result(View(), ending) == Rollback(o, old(View()), failed, prior)
    {
      hide NewStatus, Cleanup, Restore, CachedEndpoints;
      var cleaned := RemoveOwnedContainersForGeneration(failed);
      var restored := RestorePreviousRuntime(prior);
      ending := if cleaned && restored then RolledBack else RollbackFailed;
    }

    // -------------------------------------------------------------- admission

    method SortedRuntimeKeys(s: set<string>) returns (keys: seq<string>)
      ensures keys == InOrder(s)
      decreases |s|
    {
      if s == {} {
        return [];
      }
      var m :| m in s;
      LessTransitive(m, m, m);
      var todo := s - {m};
      while todo != {}
        invariant todo <= s && m in s && m !in todo
        invariant forall x :: x in s && x !in todo ==> !Less(x, m)
      {
        var x :| x in todo;
        todo := todo - {x};
        if Less(x, m) {
          SmallerStill(s, todo, m, x);
          m := x;
        }
      }
      FirstUnique(s, m);
      var rest := SortedRuntimeKeys(s - {m});
      keys := [m] + rest;
    }

    /** `runtimesForScheduling`: all runtimes in memory but the one with the given key. No
        runtime has an empty name. */
    method RuntimesForScheduling(exclude: Key) returns (existing: seq<Runtime>)
      requires Keyed(specs)
      ensures Gathered(existing, specs - {exclude.Path()})
    {
      hide Gathered, Chosen, ValidKey;
      var keys := SortedRuntimeKeys(specs.Keys);
      existing := [];
      NothingGathered(specs, exclude.Path());
      for i := 0 to |keys|
        invariant Gathered(existing, Chosen(specs, keys[..i], exclude.Path()))
      {
        assert keys[i] in keys;
        var rt := specs[keys[i]];
        NextGathered(existing, specs, keys, i, exclude);
        if exclude.name == "" || rt.key != exclude {
          existing := existing + [rt];
        }
      }
      AllChosen(specs, keys, exclude.Path());
    }

    /** `AdmitRuntime`, on the node the runtime is assigned to. */
    method AdmitRuntime(rt: Runtime) returns (ok: bool)
      requires Keyed(specs)
      ensures ok <==> Admitted(specs, rt, cfg.node)
    {
      hide Admission.ClashFree, Admission.OwnClaimsApart, Admission.RuntimeRequest, Admission.Total, Admission.Allocatable,
        Admission.Wrapped, ValidKey, Gathered;
      var existing := RuntimesForScheduling(rt.key);
      GatheredClashes(existing, specs - {rt.key.Path()}, rt);
      var ports := Admission.ValidateGlobalPortConflicts(rt, existing);
      if !ports {
        return false;
      }
      ok := Admission.ValidateNodeCapacity(rt, existing, cfg.node);
    }

    /** `ResourceSnapshot`: over all runtimes in memory. */
    method ResourceSnapshot() returns (snapshot: Admission.ResourceSnapshot)
      requires Keyed(specs)
      ensures snapshot.allocatable == Admission.Allocatable(cfg.node)
      ensures snapshot.requested == Admission.Wrapped(Admission.Total(specs))
      ensures (forall k :: k in specs ==> Admission.Staffed(specs[k])) ==>
                snapshot.requested == Admission.Wrapped(Admission.Demand(specs))
      ensures snapshot.available
              == Admission.Sub(Admission.Allocatable(cfg.node), Admission.Wrapped(Admission.Total(specs)))
    {
      hide Admission.Total, Admission.Demand, Admission.Staffed, Admission.Allocatable, Admission.Wrapped, Admission.Sub, Gathered, ValidKey;
      var existing := RuntimesForScheduling(Key("", ""));
      NoEmptyKey(specs);
      GatheredSum(existing, specs);
      if forall k :: k in specs ==> Admission.Staffed(specs[k]) {
        Admission.TotalIsDemand(specs);
      }
      snapshot := Admission.ResourceSnapshotFor(cfg.node, existing);
    }

    method NextGeneration(path: string) returns (g: int)
      ensures g == Controller.NextGeneration(specs, path)
    {
      if path in specs && specs[path].generation > 0 {
        return Quantities.Wrap64(specs[path].generation + 1);
      }
      return 1;
    }

    // ------------------------------------------------------------------ apply

    method Finish(rt: Runtime, refreshed: Discovered) returns (ending: Ending)
      modifies this`statuses, this`store, this`tick, this`now
      ensures Result(View(), ending) == Controller.Finish(o, old(View()), rt, refreshed)
    {
      hide NewStatus, Controller.SaveRuntime;
      var status := NewStatusWithOptions(rt, Running, refreshed, false);
      statuses := statuses[rt.key.Path() := status];
      var ok := SaveRuntime(rt);
      if !ok {
        return SaveFailed;
      }
      ok := SaveOther();
      if !ok {
        return SaveFailed;
      }
      ok := SaveOther();
      ending := if ok then Applied else SaveFailed;
    }

    method Bind(rt: Runtime, refreshed: Discovered) returns (stops: set<int>, ok: bool)
      modifies this
      ensures Bound(View(), stops, ok) == Binding(o, old(View()), rt, refreshed)
      ensures next == old(next)
    {
      hide RouteTable.Replace, StartPorts, Ascending, RouteMap;
      var added := RoutesForRuntime(rt);
      RouteMapUnique(rt, added);
      var starts;
      starts, stops := ReplaceRoutesAndState(rt, refreshed, added);
      var ports := SortPorts(starts);
      ok := StartAll(ports);
    }

    method Publish(rt: Runtime, refreshed: Discovered) returns (ending: Ending)
      modifies this
      ensures Result(View(), ending) == Controller.Publish(o, old(View()), rt, refreshed)
      ensures next == old(next)
    {
      hide Binding, Controller.Finish, RecordFailed;
      var stops, ok := Bind(rt, refreshed);
      if !ok {
        RecordFailedStatus(rt);
        return BindFailed;
      }
      StopAll(stops);
      ending := Finish(rt, refreshed);
    }

    method Discovering(rt: Runtime) returns (ending: Ending)
      modifies this
      ensures Result(View(), ending) == Controller.Discovering(o, old(View()), rt)
      ensures next == old(next)
    {
      hide Controller.Publish, RecordFailed, Endpoints.Refresh;
      var refreshed := RefreshRuntimeEndpoints(rt);
      if refreshed.None? {
        RecordFailedStatus(rt);
        return EndpointsFailed;
      }
      ending := Publish(rt, refreshed.value);
    }

    method Rolling(rt: Runtime, prior: Prior) returns (ending: Ending)
      modifies this
      ensures Result(View(), ending) == Controller.Rolling(o, cfg, old(View()), rt, prior)
      ensures next == old(next)
    {
      hide Controller.Discovering, RecordFailed, Reconcile, Rollback;
      var ok := ReconcileDeployments(rt);
      if ok {
        ending := Discovering(rt);
      } else if prior.Prior? {
        ending := RollbackRuntime(rt, prior);
      } else {
        RecordFailedStatus(rt);
        ending := RolloutFailed;
      }
    }

    method Carry(rt: Runtime, prior: Prior) returns (ending: Ending)
      modifies this
      ensures Result(View(), ending) == Controller.Carry(o, cfg, old(View()), rt, prior)
      ensures next == old(next)
    {
      hide Controller.Rolling, RecordFailed, Controller.EnsureNetwork, WritePhase;
      UpdateRuntimeStatus(rt, if rt.key.Path() in specs then Updating else Pending);
      var ok := EnsureNetwork();
      if !ok {
        RecordFailedStatus(rt);
        return NetworkFailed;
      }
      UpdateRuntimeStatus(rt, Starting);
      ending := Rolling(rt, prior);
    }

    /** The candidate with its generation, what it may be rolled back to, and whether it is
        turned away. */
    method Consider(candidate: Runtime, filed: Option<Status>) returns (rt: Runtime, prior: Prior, refusal: Option<Ending>)
      requires Keyed(specs)
      modifies this`tick, this`now
      ensures Recalled(Here(), prior) == Previous(o, old(View()), candidate.key.Path(), filed)
      ensures rt == WithGeneration(specs, candidate)
      ensures refusal == if !WellFormed(rt) then Quantities.Some(Invalid)
                         else if !Admitted(specs, rt, cfg.node) then Quantities.Some(Denied)
                         else Quantities.None
    {
      hide WellFormed, Admitted, Previous;
      prior := PreviousRuntimeState(candidate.key.Path(), filed);
      rt := candidate;
      if rt.generation == 0 {
        var g := NextGeneration(candidate.key.Path());
        rt := rt.(generation := g);
      }
      var valid := ValidateRuntime(rt);
      if !valid {
        return rt, prior, Quantities.Some(Invalid);
      }
      WellFormedKey(rt);
      var admitted := AdmitRuntime(rt);
      refusal := if admitted then Quantities.None else Quantities.Some(Denied);
    }

    /** `Apply`. `filed` is what the status file would be read as. */
    method Apply(candidate: Runtime, filed: Option<Status>) returns (ending: Ending)
      requires Inv(View())
      modifies this
      ensures Result(View(), ending) == Controller.Apply(o, cfg, old(View()), candidate, filed)
      ensures Inv(View()) && next == old(next)
    {
      hide Inv, WellFormed, Admitted, Controller.Carry, Previous, WithGeneration;
      InvApply(o, cfg, View(), candidate, filed);
      KeyedView(View());
      var rt, prior, refusal := Consider(candidate, filed);
      if refusal.Some? {
        return refusal.value;
      }
      ending := Carry(rt, prior);
    }

    // ------------------------------------------------- remove, resync, shutdown

    method RemoveOwnedContainers(key: Key) returns (ok: bool)
      modifies this`containers, this`trace, this`tick, this`now
      ensures Outcome(Here(), ok) == Controller.Purge(o, old(Here()), OwnedAll(old(containers), key))
    {
      hide Controller.Purge, OwnedAll;
      ok := Purge(OwnedAll(containers, key));
    }

    method ForgetEntry(path: string)
      modifies this`specs, this`statuses, this`trace
      ensures Here() == Forget(old(Here()), path)
    {
      specs := specs - {path};
      statuses := statuses - {path};
      trace := trace + [Snapshot(specs, containers)];
    }

    method DropRoutes(key: Key)
      modifies this`endpoints, this`routes, this`servers
      ensures Proxy() == Drop(old(Proxy()), key)
    {
      hide WithoutKey, DropEndpoints, Emptied;
      ForgetEndpoints(key);
      var stops := RemoveRoutesForKey(key);
      StopAll(stops);
    }

    method ClearRuntime(key: Key, rt: Option<Runtime>) returns (ok: bool)
      modifies this`containers, this`trace, this`store, this`tick, this`now
      ensures Saved(View(), ok) == Clearing(o, old(View()), key, rt)
    {
      hide Controller.Purge, Controller.DeleteRuntime, OwnedAll;
      if rt.Some? {
        ok := RemoveOwnedContainers(rt.value.key);
        if !ok {
          return;
        }
      }
      ok := DeleteRuntime(key);
      if ok {
        ok := SaveOther();
      }
    }

    method LookupRuntime(path: string) returns (rt: Option<Runtime>)
      modifies this`tick, this`now
      ensures Answer(Here(), rt) == Lookup(o, old(View()), path)
    {
      if path in specs {
        return Quantities.Some(specs[path]);
      }
      rt := ReadStore(path);
    }

    method MarkTerminating(path: string) returns (rt: Option<Runtime>)
      modifies this`specs, this`statuses, this`trace, this`tick, this`now
      ensures var found := Lookup(o, old(View()), path);
              && rt == found.value
              && Here() == if rt.Some? then WritePhase(found.cluster, rt.value, Terminating) else found.cluster
    {
      hide WritePhase, Lookup;
      rt := LookupRuntime(path);
      if rt.Some? {
        UpdateRuntimeStatus(rt.value, Terminating);
      }
    }

    /** Marks what is found as terminating and drops every entry of the key. */
    method ForgetKey(key: Key) returns (rt: Option<Runtime>)
      modifies this
      ensures Vanished(View(), rt) == Vanishing(o, old(View()), key) && next == old(next)
    {
      hide WritePhase, Forget, Drop, Lookup;
      rt := MarkTerminating(key.Path());
      ForgetEntry(key.Path());
      DropRoutes(key);
      routed := routed - {key.Path()};
    }

    method Remove(key: Key) returns (ok: bool)
      requires Inv(View())
      modifies this
      ensures Saved(View(), ok) == Controller.Remove(o, old(View()), key)
      ensures Inv(View()) && next == old(next)
    {
      InvRemove(o, View(), key);
      hide Inv, Vanishing, Clearing;
      if key.name == "" {
        return false;
      }
      var rt := ForgetKey(key);
      ok := ClearRuntime(key, rt);
    }

    /** One turn of the loop of `Resync`. */
    method ResyncOne(rt: Runtime) returns (ok: bool)
      modifies this
      ensures Saved(View(), ok) == Controller.ResyncOne(o, cfg, old(View()), rt)
      ensures next == old(next)
    {
      hide NewStatus, Reconcile, RecordFailed, Endpoints.Refresh, PutEndpoints;
      ok := ReconcileDeployments(rt);
      if !ok {
        RecordFailedStatus(rt);
        return;
      }
      var refreshed := RefreshRuntimeEndpoints(rt);
      if refreshed.None? {
        RecordFailedStatus(rt);
        return false;
      }
      ok := RecordResynced(rt, refreshed.value);
    }

    method RecordResynced(rt: Runtime, refreshed: Discovered) returns (ok: bool)
      modifies this`endpoints, this`statuses, this`tick, this`now
      ensures var w := old(View());
              var c := w.cluster.(statuses := w.cluster.statuses[rt.key.Path() := NewStatus(rt, Running, refreshed, false)]);
              Saved(View(), ok)
              == Controller.SaveOther(o, w.(cluster := c,
                                            table := w.table.(endpoints := PutEndpoints(w.table.endpoints, rt.key, refreshed))))
    {
      hide NewStatus, PutEndpoints;
      var status := NewStatusWithOptions(rt, Running, refreshed, false);
      StoreEndpoints(rt.key, refreshed);
      statuses := statuses[rt.key.Path() := status];
      ok := SaveOther();
    }

    method SnapshotRuntimes() returns (rts: seq<Runtime>)
      ensures rts == InMemory(specs)
    {
      var keys := SortedRuntimeKeys(specs.Keys);
      hide InOrder;
      rts := [];
      for i := 0 to |keys|
        invariant |rts| == i && forall j :: 0 <= j < i ==> keys[j] in specs && rts[j] == specs[keys[j]]
      {
        assert keys[i] in keys;
        rts := rts + [specs[keys[i]]];
      }
      assert |InMemory(specs)| == |rts|;
    }

    method ResyncAll(rts: seq<Runtime>) returns (ok: bool)
      modifies this
      ensures Saved(View(), ok) == ResyncEach(o, cfg, old(View()), rts) && next == old(next)
    {
      hide Controller.ResyncOne;
      for i := 0 to |rts|
        invariant Saved(View(), true) == ResyncEach(o, cfg, old(View()), rts[..i]) && next == old(next)
      {
        ok := ResyncOne(rts[i]);
        assert rts[..i + 1][..i] == rts[..i];
        if !ok {
          ResyncStops(o, cfg, old(View()), rts, i + 1);
          return;
        }
      }
      assert rts[..|rts|] == rts;
      ok := true;
    }

    method Resync() returns (ok: bool)
      requires Inv(View())
      modifies this
      ensures Saved(View(), ok) == Controller.Resync(o, cfg, old(View()))
      ensures Inv(View()) && next == old(next)
    {
      ResyncKeepsInv(o, cfg, View());
      hide Inv, ResyncEach, InMemory;
      var rts := SnapshotRuntimes();
      ok := ResyncAll(rts);
    }

    method Shutdown() returns (ok: bool)
      requires Inv(View())
      modifies this
      ensures Saved(View(), ok) == Controller.Shutdown(o, old(View()))
      ensures Inv(View()) && next == old(next)
    {
      InvShutdown(o, View());
      hide Inv;
      servers := map[];
      routes := map[];
      routed := map[];
      ok := SaveOther();
    }
  }

  // ------------------------------- a failed turn is where the recursion stops too

  lemma {:induction false} StopsEarly(o: Oracle, cfg: Config, c: Cluster, rt: Runtime, d: Deployment, j: nat, k: nat)
    requires j <= k && !EnsureReplicas(o, cfg.selfHeal, c, rt, d, j).ok
    ensures EnsureReplicas(o, cfg.selfHeal, c, rt, d, k) == EnsureReplicas(o, cfg.selfHeal, c, rt, d, j)
  {
    hide EnsureReplica;
    if j < k {
      StopsEarly(o, cfg, c, rt, d, j, k - 1);
    }
  }

  lemma {:induction false} RemovalStops(o: Oracle, c: Cluster, names: seq<string>, j: nat)
    requires j <= |names| && !RemoveEach(o, c, names[..j]).ok
    ensures RemoveEach(o, c, names) == RemoveEach(o, c, names[..j])
  {
    if j < |names| {
      var u := names[..|names| - 1];
      assert u[..j] == names[..j];
      RemovalStops(o, c, u, j);
    } else {
      assert names[..j] == names;
    }
  }

  lemma {:induction false} ReconcileStops(o: Oracle, cfg: Config, c: Cluster, rt: Runtime, ds: seq<Deployment>, j: nat)
    requires j <= |ds| && !EnsureAll(o, cfg.selfHeal, c, rt, ds[..j]).ok
    ensures EnsureAll(o, cfg.selfHeal, c, rt, ds) == EnsureAll(o, cfg.selfHeal, c, rt, ds[..j])
  {
    hide Ensure;
    if j < |ds| {
      var u := ds[..|ds| - 1];
      assert u[..j] == ds[..j];
      ReconcileStops(o, cfg, c, rt, u, j);
    } else {
      assert ds[..j] == ds;
    }
  }

  lemma {:induction false} DiscoveryStops(o: Oracle, c: Cluster, key: Key, ds: seq<Deployment>, port: int, j: nat)
    requires j <= |ds| && Endpoints.DiscoverEach(o, c, key, ds[..j], port).value.None?
    ensures Endpoints.DiscoverEach(o, c, key, ds, port) == Endpoints.DiscoverEach(o, c, key, ds[..j], port)
  {
    hide Endpoints.DiscoverDeployment;
    if j < |ds| {
      var u := ds[..|ds| - 1];
      assert u[..j] == ds[..j];
      DiscoveryStops(o, c, key, u, port, j);
    } else {
      assert ds[..j] == ds;
    }
  }

  lemma {:induction false} RefreshStops(o: Oracle, c: Cluster, rt: Runtime, j: nat, k: nat)
    requires j <= k <= |rt.services| && Endpoints.Refresh(o, c, rt, j).value.None?
    ensures Endpoints.Refresh(o, c, rt, k) == Endpoints.Refresh(o, c, rt, j)
  {
    hide Endpoints.Discover;
    if j < k {
      RefreshStops(o, c, rt, j, k - 1);
    }
  }

  lemma {:induction false} ResyncStops(o: Oracle, cfg: Config, w: World, rts: seq<Runtime>, j: nat)
    requires j <= |rts| && !ResyncEach(o, cfg, w, rts[..j]).ok
    ensures ResyncEach(o, cfg, w, rts) == ResyncEach(o, cfg, w, rts[..j])
  {
    hide ResyncOne;
    if j < |rts| {
      var u := rts[..|rts| - 1];
      assert u[..j] == rts[..j];
      ResyncStops(o, cfg, w, u, j);
    } else {
      assert rts[..j] == rts;
    }
  }

  lemma ResyncKeepsInv(o: Oracle, cfg: Config, w: World)
    requires Inv(w)
    ensures Inv(Resync(o, cfg, w).world)
  {
    InvStep(o, cfg, w, Resyncing);
  }

  lemma KeyedView(w: World)
    requires Inv(w)
    ensures Keyed(w.cluster.specs)
  {
  }

  // ------------------------------------------------------------ small facts

  lemma RemovalIs(before: map<int, seq<Route>>, after: map<int, seq<Route>>, servers: map<int, nat>, key: Key, stops: set<int>)
    requires forall p :: p in after <==> p in before && Others(before[p], key) != []
    requires forall p :: p in after ==> after[p] == Others(before[p], key)
    requires forall p :: p in stops <==> p in before && p in servers && Others(before[p], key) == []
    ensures after == WithoutKey(before, key) && stops == Emptied(before, servers, key)
  {
    hide Others;
    var routes, emptied := WithoutKey(before, key), Emptied(before, servers, key);
    forall p: int
      ensures p in stops <==> p in emptied
      ensures p in after <==> p in routes
      ensures p in after ==> after[p] == routes[p]
    {
    }
    SameSet(stops, emptied);
    SameMap(after, routes);
  }

  lemma AdditionIs(before: map<int, seq<Route>>, after: map<int, seq<Route>>, servers: map<int, nat>,
                   added: map<int, seq<Route>>, starts: set<int>)
    requires forall p :: p in after <==> p in before || p in added
    requires forall p :: p in after && p !in added ==> after[p] == before[p]
    requires forall p :: p in added ==> after[p] == SortRoutes(RoutesAt(before, p) + added[p])
    requires forall p :: p in starts <==> p in added && p !in servers
    ensures after == Appended(before, added) && starts == set p | p in added && p !in servers
  {
    hide SortRoutes;
    var routes, unbound := Appended(before, added), set p | p in added && p !in servers;
    forall p: int
      ensures p in starts <==> p in unbound
      ensures p in after <==> p in routes
      ensures p in after ==> after[p] == routes[p]
    {
    }
    SameSet(starts, unbound);
    SameMap(after, routes);
  }

  lemma NothingPut(cache: Discovered, key: Key)
    ensures PutEndpoints(cache, key, map[]) == cache
  {
    assert Filed(key, map[]) == map[];
  }

  lemma FiledOneMore(key: Key, done: Discovered, s: string, found: seq<Endpoint>)
    ensures Filed(key, done[s := found]) == Filed(key, done)[EndpointKey(key, s) := found]
  {
    ServicePartUnique(key);
    hide EndpointKey, Filed;
    var more := done[s := found];
    var a, b := Filed(key, more), Filed(key, done)[EndpointKey(key, s) := found];
    forall e
      ensures e in a <==> e in b
    {
      if t :| t in done && e == EndpointKey(key, t) {
        assert t in more;
      }
      assert s in more;
    }
    forall e | e in a
      ensures a[e] == b[e]
    {
      var t :| t in more && e == EndpointKey(key, t);
      assert a[e] == more[t];
    }
  }

  lemma PutOneMore(cache: Discovered, key: Key, done: Discovered, s: string, found: seq<Endpoint>)
    ensures PutEndpoints(cache, key, done[s := found]) == PutEndpoints(cache, key, done)[EndpointKey(key, s) := found]
  {
    hide EndpointKey, Filed;
    FiledOneMore(key, done, s, found);
    MergeOneMore(cache, Filed(key, done), EndpointKey(key, s), found);
  }

  lemma MergeOneMore(a: Discovered, b: Discovered, e: string, found: seq<Endpoint>)
    ensures a + b[e := found] == (a + b)[e := found]
  {
  }

  lemma LeaveOneLess(m: Discovered, todo: set<string>, s: string)
    requires s in m && s in todo
    ensures (m - todo)[s := m[s]] == m - (todo - {s})
  {
  }

  lemma CachedIs(t: Table, rt: Runtime, out: Discovered)
    requires forall n :: n in out <==> exists j :: 0 <= j < |rt.services| && rt.services[j].name == n
    requires forall n :: n in out ==>
               out[n] == if EndpointKey(rt.key, n) in t.endpoints then t.endpoints[EndpointKey(rt.key, n)] else []
    ensures out == CachedEndpoints(t, rt)
  {
    hide EndpointKey;
    forall n
      ensures n in out <==> n in CachedEndpoints(t, rt)
    {
      if n in out {
        var j :| 0 <= j < |rt.services| && rt.services[j].name == n;
        assert rt.services[j] in rt.services;
      }
    }
  }

  lemma SmallerStill(s: set<string>, todo: set<string>, m: string, x: string)
    requires Less(x, m) && forall y :: y in s && y !in todo && y != x ==> !Less(y, m)
    ensures forall y :: y in s && y !in todo ==> !Less(y, x)
  {
    LessTransitive(x, x, x);
    forall y | y in s && y !in todo
      ensures !Less(y, x)
    {
      LessTransitive(y, x, m);
    }
  }

  lemma LeastUnique(s: set<int>, m: int)
    requires m in s && forall x :: x in s ==> m <= x
    ensures Ascending(s) == [m] + Ascending(s - {m})
  {
    var ports := Ascending(s);
    assert m in ports;
    var i :| 0 <= i < |ports| && ports[i] == m;
    assert ports[0] in s;
    assert i == 0;
  }

  /** The first key of a set is determined, so the sorted list is. */
  lemma FirstUnique(s: set<string>, m: string)
    requires m in s && forall x :: x in s ==> !Less(x, m)
    ensures InOrder(s) == [m] + InOrder(s - {m})
  {
    var first := InOrder(s)[0];
    assert first in InOrder(s);
    LessTotal(first, m);
    assert m in InOrder(s);
    var i :| 0 <= i < |InOrder(s)| && InOrder(s)[i] == m;
    assert first == m;
  }

  lemma KeyPathExcludes(a: Key, b: Key)
    requires ValidKey(a)
    ensures a == b <==> a.Path() == b.Path()
  {
    if a.Path() == b.Path() {
      KeyPathInjective(a, b);
    }
  }

  /** The list holds the values of the map, and asks for as much in all. */
  ghost predicate Gathered(rts: seq<Runtime>, specs: map<string, Runtime>) {
    && (forall rt :: rt in rts <==> exists k :: k in specs && specs[k] == rt)
    && Admission.Sum(rts) == Admission.Total(specs)
  }

  /** The specs under the keys listed, but for one. */
  ghost function Chosen(specs: map<string, Runtime>, keys: seq<string>, path: string): map<string, Runtime> {
    map k | k in specs && k in keys && k != path :: specs[k]
  }

  lemma NothingGathered(specs: map<string, Runtime>, path: string)
    ensures Gathered([], Chosen(specs, [], path))
  {
    assert Chosen(specs, [], path) == map[];
  }

  lemma GatheredMore(rts: seq<Runtime>, specs: map<string, Runtime>, k: string, rt: Runtime)
    requires Gathered(rts, specs) && k !in specs
    ensures Gathered(rts + [rt], specs[k := rt])
  {
    hide Admission.Total, Admission.RuntimeRequest;
    var more, all := specs[k := rt], rts + [rt];
    assert more - {k} == specs;
    Admission.TotalOf(more, k);
    assert all[..|rts|] == rts;
    forall x
      ensures x in all <==> exists l :: l in more && more[l] == x
    {
      if x in rts {
        var l :| l in specs && specs[l] == x;
        assert l in more && more[l] == x;
      }
      if x == rt {
        assert more[k] == x;
      }
    }
  }

  lemma NextGathered(rts: seq<Runtime>, specs: map<string, Runtime>, keys: seq<string>, i: nat, exclude: Key)
    requires i < |keys| && keys[i] in specs && (forall j :: 0 <= j < i ==> keys[j] != keys[i])
    requires Keyed(specs) && Gathered(rts, Chosen(specs, keys[..i], exclude.Path()))
    ensures specs[keys[i]].key.name != ""
    ensures var rt := specs[keys[i]];
            Gathered(if rt.key == exclude then rts else rts + [rt], Chosen(specs, keys[..i + 1], exclude.Path()))
  {
    var path := exclude.Path();
    assert specs[keys[i]].key.name != "";
    KeyPathExcludes(specs[keys[i]].key, exclude);
    hide Gathered, ValidKey;
    var k, before, after := keys[i], Chosen(specs, keys[..i], path), Chosen(specs, keys[..i + 1], path);
    assert keys[..i + 1] == keys[..i] + [k];
    if k == path {
      assert after == before;
    } else {
      GatheredMore(rts, before, k, specs[k]);
      assert after == before[k := specs[k]];
    }
  }

  lemma AllChosen(specs: map<string, Runtime>, keys: seq<string>, path: string)
    requires forall k :: k in keys <==> k in specs
    ensures keys[..|keys|] == keys && Chosen(specs, keys, path) == specs - {path}
  {
  }

  lemma GatheredSum(rts: seq<Runtime>, specs: map<string, Runtime>)
    requires Gathered(rts, specs)
    ensures Admission.Sum(rts) == Admission.Total(specs)
  {
  }

  lemma NoEmptyKey(specs: map<string, Runtime>)
    requires Keyed(specs)
    ensures specs - {Key("", "").Path()} == specs
  {
    forall k | k in specs
      ensures k != Key("", "").Path()
    {
      assert ValidKey(specs[k].key) && specs[k].key != Key("", "");
      KeyPathExcludes(specs[k].key, Key("", ""));
    }
  }

  lemma GatheredClashes(rts: seq<Runtime>, others: map<string, Runtime>, rt: Runtime)
    requires Gathered(rts, others)
    ensures (forall e :: e in rts ==> Admission.ClashFree(rt, e)) <==> forall k :: k in others ==> Admission.ClashFree(rt, others[k])
    ensures Admission.Sum(rts) == Admission.Total(others)
  {
    hide Admission.ClashFree, Admission.Total;
    if forall e :: e in rts ==> Admission.ClashFree(rt, e) {
      forall k | k in others
        ensures Admission.ClashFree(rt, others[k])
      {
        assert others[k] in rts;
      }
    }
  }

  lemma RouteMapUnique(rt: Runtime, routes: map<int, seq<Route>>)
    requires forall p :: p in routes <==> ClaimsPort(rt, p)
    requires forall p :: p in routes ==> routes[p] == PortRoutes(rt, p)
    ensures routes == RouteMap(rt)
  {
    hide PortRoutes, RouteMap;
    var all := RouteMap(rt);
    assert RoutesOf(rt, all);
    forall p
      ensures p in routes <==> p in all
      ensures p in routes ==> routes[p] == all[p]
    {
      assert p in routes <==> ClaimsPort(rt, p);
    }
    assert routes == all;
  }
}
