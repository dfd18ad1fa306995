/** What the proxy serves over whole runs: which ports it listens on, and which runtime it
    resolves a request to. */
module Serving {
  import opened Collections
  import opened Runtimes
  import opened Routing
  import opened RouteTable
  import opened Statuses
  import opened Docker
  import opened Controller
  import opened Invariants
  import opened Admission
  import opened Safety
  import Availability
  import Rollout
  import Endpoints
  import Runs

  // -------------------------------------------------------- the table of one Apply

  /** Neither the routes nor the listeners have changed, nor what was routed. */
  ghost predicate SameRoutes(w: World, v: World) {
    v.table.routes == w.table.routes && v.table.servers == w.table.servers && v.routed == w.routed
  }

  /** The table has been replaced and every bind has succeeded, or not. */
  ghost predicate Published(o: Oracle, w: World, v: World, rt: Runtime, ok: bool) {
    && v.routed == w.routed[rt.key.Path() := rt]
    && exists found: Discovered, tick: nat ::
         var rep := Replace(w.table, rt, found, RouteMap(rt));
         var up := StartPorts(rep.table, Ascending(rep.starts), o.bind, tick);
         up.ok == ok && v.table == if ok then StopPorts(up.table, rep.stops) else up.table
  }

  lemma FinishTable(o: Oracle, w: World, rt: Runtime, found: Discovered)
    ensures var r := Finish(o, w, rt, found);
            r.world.table == w.table && r.world.routed == w.routed && r.ending in {SaveFailed, Applied}
  {
    hide NewStatus;
  }

  lemma PublishTable(o: Oracle, w: World, rt: Runtime, found: Discovered)
    ensures var r := Publish(o, w, rt, found); Published(o, w, r.world, rt, r.ending != BindFailed)
    ensures Publish(o, w, rt, found).ending in {BindFailed, SaveFailed, Applied}
  {
    hide Replace, StartPorts, Ascending, RouteMap, Finish, NewStatus;
    var rep := Replace(w.table, rt, found, RouteMap(rt));
    var c := Rewrite(w.cluster, rt);
    var up := StartPorts(rep.table, Ascending(rep.starts), o.bind, c.tick);
    var routed := w.(cluster := Skip(c, up.attempts), table := up.table, routed := w.routed[rt.key.Path() := rt]);
    FinishTable(o, routed.(table := StopPorts(up.table, rep.stops)), rt, found);
  }

  /** Only an Apply that comes to publishing touches the table. */
  predicate Publishes(e: Ending) {
    e == BindFailed || e == SaveFailed || e == Applied
  }

  ghost predicate TableStep(o: Oracle, w: World, r: Result, rt: Runtime) {
    if Publishes(r.ending) then Published(o, w, r.world, rt, r.ending != BindFailed) else SameRoutes(w, r.world)
  }

  lemma PublishedFrom(o: Oracle, w: World, x: World, v: World, rt: Runtime, ok: bool)
    requires Published(o, x, v, rt, ok) && x.table == w.table && x.routed == w.routed
    ensures Published(o, w, v, rt, ok)
  {
    hide Replace, StartPorts, Ascending, RouteMap;
  }

  lemma RollingTable(o: Oracle, cfg: Config, w: World, rt: Runtime, prior: Prior)
    ensures TableStep(o, w, Rolling(o, cfg, w, rt, prior), rt)
  {
    hide Rollout.Reconcile, Endpoints.Refresh, Publish, NewStatus, Cleanup, CachedEndpoints, Published;
    var out := Rollout.Reconcile(o, cfg.selfHeal, w.cluster, rt);
    var rolled := w.(cluster := out.cluster);
    if out.ok {
      var found := Endpoints.Refresh(o, rolled.cluster, rt, |rt.services|);
      if found.value.Some? {
        var seen := rolled.(cluster := found.cluster);
        PublishTable(o, seen, rt, found.value.value);
        var r := Publish(o, seen, rt, found.value.value);
        PublishedFrom(o, w, seen, r.world, rt, r.ending != BindFailed);
      }
    }
  }

  lemma CarryTable(o: Oracle, cfg: Config, w: World, rt: Runtime, prior: Prior)
    ensures TableStep(o, w, Carry(o, cfg, w, rt, prior), rt)
  {
    hide WritePhase, EnsureNetwork, Rolling, NewStatus, Published;
    var phase := if rt.key.Path() in w.cluster.specs then Updating else Pending;
    var network := EnsureNetwork(o, WritePhase(w.cluster, rt, phase));
    if network.ok {
      var x := w.(cluster := WritePhase(network.cluster, rt, Starting));
      RollingTable(o, cfg, x, rt, prior);
      var r := Rolling(o, cfg, x, rt, prior);
      if Publishes(r.ending) {
        PublishedFrom(o, w, x, r.world, rt, r.ending != BindFailed);
      }
    }
  }

  lemma StepFrom(o: Oracle, w: World, x: World, r: Result, rt: Runtime)
    requires TableStep(o, x, r, rt) && x.table == w.table && x.routed == w.routed
    ensures TableStep(o, w, r, rt)
  {
    hide Published;
    if Publishes(r.ending) {
      PublishedFrom(o, w, x, r.world, rt, r.ending != BindFailed);
    }
  }

  lemma ApplyTable(o: Oracle, cfg: Config, w: World, rt: Runtime, filed: Option<Status>)
    ensures TableStep(o, w, Apply(o, cfg, w, rt, filed), WithGeneration(w.cluster.specs, rt))
  {
    var given := WithGeneration(w.cluster.specs, rt);
    hide Accepted, Apply, Previous, WithGeneration, Carry, Published;
    if Accepted(cfg, w, rt) {
      AcceptedCarries(o, cfg, w, rt, filed);
      var p := Previous(o, w, rt.key.Path(), filed);
      var v := w.(cluster := p.cluster);
      CarryTable(o, cfg, v, given, p.prior);
      StepFrom(o, w, v, Carry(o, cfg, v, given, p.prior), given);
    } else {
      Runs.RejectedIsSilent(o, cfg, w, rt, filed);
    }
  }

  // ------------------------------------------------------------- listeners

  /** Every port with routes before and after has kept its server. */
  ghost predicate ServersKept(a: Table, b: Table) {
    forall p :: p in a.routes && p in b.routes ==> SameListener(a, b, p)
  }

  /** Listener stability of Apply, exactly: if the proxy listens on the ports with routes
      before, it does so afterwards unless a bind failed, and then it does not. */
  lemma ApplyListeners(o: Oracle, cfg: Config, w: World, rt: Runtime, filed: Option<Status>)
    requires ListenersMatch(w.table)
    ensures var r := Apply(o, cfg, w, rt, filed);
            && (ListenersMatch(r.world.table) <==> r.ending != BindFailed)
            && (r.ending != BindFailed ==> ServersKept(w.table, r.world.table))
  {
    var r, given := Apply(o, cfg, w, rt, filed), WithGeneration(w.cluster.specs, rt);
    ApplyTable(o, cfg, w, rt, filed);
    hide Apply, WithGeneration, Replace, StartPorts, Ascending, RouteMap;
    if Publishes(r.ending) {
      var found: Discovered, tick: nat :|
        var rep := Replace(w.table, given, found, RouteMap(given));
        var up := StartPorts(rep.table, Ascending(rep.starts), o.bind, tick);
        up.ok == (r.ending != BindFailed)
        && r.world.table == if r.ending != BindFailed then StopPorts(up.table, rep.stops) else up.table;
      PublishListeners(o, w.table, given, found, tick);
    }
  }

  lemma PublishListeners(o: Oracle, t: Table, rt: Runtime, found: Discovered, tick: nat)
    requires ListenersMatch(t)
    ensures var rep := Replace(t, rt, found, RouteMap(rt));
            var up := StartPorts(rep.table, Ascending(rep.starts), o.bind, tick);
            if up.ok then ListenersMatch(StopPorts(up.table, rep.stops)) && ServersKept(t, StopPorts(up.table, rep.stops))
            else !ListenersMatch(up.table)
  {
    ListenerStability(t, rt, found, RouteMap(rt), o.bind, tick);
    var rep := Replace(t, rt, found, RouteMap(rt));
    StartPortsEffect(rep.table, Ascending(rep.starts), o.bind, tick);
    hide Replace, StartPorts, Ascending, RouteMap;
  }

  /** Every port the runtime claims has its listener already. */
  ghost predicate Heard(t: Table, rt: Runtime) {
    forall p :: ClaimsPort(rt, p) ==> p in t.servers
  }

  lemma HeardStartsNothing(o: Oracle, t: Table, rt: Runtime, found: Discovered, tick: nat)
    ensures var rep := Replace(t, rt, found, RouteMap(rt));
            && (Heard(t, rt) ==> StartPorts(rep.table, Ascending(rep.starts), o.bind, tick).ok)
            && (!Heard(t, rt) && !o.bind(tick) ==> !StartPorts(rep.table, Ascending(rep.starts), o.bind, tick).ok)
  {
    var rep := Replace(t, rt, found, RouteMap(rt));
    var ports := Ascending(rep.starts);
    if Heard(t, rt) {
      SameSet(rep.starts, {});
    } else {
      var p: int :| ClaimsPort(rt, p) && p !in t.servers;
      assert p in rep.starts && p in ports;
    }
  }

  lemma HeardBinds(o: Oracle, cfg: Config, w: World, rt: Runtime, filed: Option<Status>)
    requires Heard(w.table, WithGeneration(w.cluster.specs, rt))
    ensures Apply(o, cfg, w, rt, filed).ending != BindFailed
  {
    var r, given := Apply(o, cfg, w, rt, filed), WithGeneration(w.cluster.specs, rt);
    ApplyTable(o, cfg, w, rt, filed);
    hide Apply, WithGeneration, Replace, StartPorts, Ascending, RouteMap, Heard;
    if r.ending == BindFailed {
      var found: Discovered, tick: nat :|
        var rep := Replace(w.table, given, found, RouteMap(given));
        !StartPorts(rep.table, Ascending(rep.starts), o.bind, tick).ok;
      HeardStartsNothing(o, w.table, given, found, tick);
    }
  }

  /** On an engine that never sees a digest, and refuses every bind, an accepted candidate is
      published, and if it claims a new port its bind fails. */
  lemma BlindPublishes(cfg: Config, w: World, rt: Runtime, filed: Option<Status>)
    requires Accepted(cfg, w, rt)
    ensures var ending := Apply(Availability.HashBlind(false), cfg, w, rt, filed).ending;
            Publishes(ending) && (!Heard(w.table, WithGeneration(w.cluster.specs, rt)) ==> ending == BindFailed)
  {
    var o, given := Availability.HashBlind(false), WithGeneration(w.cluster.specs, rt);
    AcceptedCarries(o, cfg, w, rt, filed);
    var p := Previous(o, w, rt.key.Path(), filed);
    var v := w.(cluster := p.cluster);
    assert v.table == w.table && WellFormed(given);
    var phase := if given.key.Path() in v.cluster.specs then Updating else Pending;
    var network := EnsureNetwork(o, WritePhase(v.cluster, given, phase));
    assert network.ok && Endpoints.Lists(o) && forall t :: !o.bind(t);
    hide Accepted, Apply, WithGeneration, WritePhase, EnsureNetwork, Previous, Availability.HashBlind, WellFormed, Heard;
    var starting := WritePhase(network.cluster, given, Starting);
    Availability.BlindRollout(false, cfg.selfHeal, starting, given, given.deployments);
    BlindRolls(o, cfg, v.(cluster := starting), given, p.prior);
  }

  lemma BlindRolls(o: Oracle, cfg: Config, w: World, rt: Runtime, prior: Prior)
    requires Rollout.Reconcile(o, cfg.selfHeal, w.cluster, rt).ok && Endpoints.Lists(o) && WellFormed(rt)
    requires forall t :: !o.bind(t)
    ensures Publishes(Rolling(o, cfg, w, rt, prior).ending)
    ensures !Heard(w.table, rt) ==> Rolling(o, cfg, w, rt, prior).ending == BindFailed
  {
    hide Rollout.Reconcile, WellFormed, Heard, Endpoints.Refresh, Publish, RecordFailed, Published, TargetPort, Matching;
    TargetPortsFound(rt);
    var rolled := Rollout.Reconcile(o, cfg.selfHeal, w.cluster, rt).cluster;
    Endpoints.RefreshSucceeds(o, rolled, rt, |rt.services|);
    var found := Endpoints.Refresh(o, rolled, rt, |rt.services|);
    var seen := w.(cluster := found.cluster);
    PublishTable(o, seen, rt, found.value.value);
    UnheardPublish(o, seen, rt, found.value.value);
  }

  lemma UnheardPublish(o: Oracle, w: World, rt: Runtime, found: Discovered)
    requires forall t :: !o.bind(t)
    ensures !Heard(w.table, rt) ==> Publish(o, w, rt, found).ending == BindFailed
  {
    hide Replace, StartPorts, Ascending, RouteMap, RecordFailed, Heard, Finish;
    HeardStartsNothing(o, w.table, rt, found, Rewrite(w.cluster, rt).tick);
  }

  lemma TargetPortsFound(rt: Runtime)
    requires WellFormed(rt)
    ensures forall s :: s in rt.services ==> TargetPort(s, Matching(rt, s.selector)) > 0
  {
    hide Matching, TargetPort;
    forall s | s in rt.services
      ensures TargetPort(s, Matching(rt, s.selector)) > 0
    {
      assert ValidService(rt, s);
    }
  }

  /** Listener stability of one Apply, exactly, before it is called: the proxy goes on listening
      on exactly the ports with routes, whatever fails, if and only if the candidate is turned
      away or every port it claims has its listener already. */
  lemma ApplyListenersExactly(cfg: Config, w: World, rt: Runtime, filed: Option<Status>)
    requires ListenersMatch(w.table)
    ensures (forall o: Oracle :: ListenersMatch(Apply(o, cfg, w, rt, filed).world.table))
            <==> !Accepted(cfg, w, rt) || Heard(w.table, WithGeneration(w.cluster.specs, rt))
  {
    hide ListenersMatch, Apply, Accepted, Heard, WithGeneration, Availability.HashBlind;
    if !Accepted(cfg, w, rt) || Heard(w.table, WithGeneration(w.cluster.specs, rt)) {
      forall o: Oracle
        ensures ListenersMatch(Apply(o, cfg, w, rt, filed).world.table)
      {
        ApplyListeners(o, cfg, w, rt, filed);
        if Accepted(cfg, w, rt) {
          HeardBinds(o, cfg, w, rt, filed);
        } else {
          Runs.RejectedIsSilent(o, cfg, w, rt, filed);
        }
      }
    } else {
      var o := Availability.HashBlind(false);
      BlindPublishes(cfg, w, rt, filed);
      ApplyListeners(o, cfg, w, rt, filed);
      assert !ListenersMatch(Apply(o, cfg, w, rt, filed).world.table);
    }
  }

  lemma RemoveListeners(o: Oracle, w: World, key: Key)
    requires ListenersMatch(w.table)
    ensures ListenersMatch(Remove(o, w, key).world.table)
    ensures ServersKept(w.table, Remove(o, w, key).world.table)
  {
    DropStability(w.table, key);
    hide Lookup, WritePhase, Forget, Drop, Purge;
    assert key.name != "" ==> Remove(o, w, key).world.table == Drop(w.table, key);
  }

  lemma {:induction false} ResyncRoutes(o: Oracle, cfg: Config, w: World, rts: seq<Runtime>)
    ensures SameRoutes(w, ResyncEach(o, cfg, w, rts).world)
  {
    hide ResyncOne;
    if rts != [] {
      ResyncRoutes(o, cfg, w, rts[..|rts| - 1]);
      var before := ResyncEach(o, cfg, w, rts[..|rts| - 1]);
      ResyncOneRoutes(o, cfg, before.world, rts[|rts| - 1]);
    }
  }

  lemma ResyncOneRoutes(o: Oracle, cfg: Config, w: World, rt: Runtime)
    ensures SameRoutes(w, ResyncOne(o, cfg, w, rt).world)
  {
    hide Rollout.Reconcile, Endpoints.Refresh, NewStatus, PutEndpoints;
  }

  ghost predicate Binds(o: Oracle) {
    forall t :: o.bind(t)
  }

  lemma {:induction false} StartsAll(t: Table, ports: seq<int>, bind: nat -> bool, tick: nat)
    requires forall u :: bind(u)
    ensures StartPorts(t, ports, bind, tick).ok
    decreases |ports|
  {
    if ports != [] {
      StartsAll(Listening(t, ports[0]), ports[1..], bind, tick + 1);
    }
  }

  lemma NoBindFails(o: Oracle, cfg: Config, w: World, rt: Runtime, filed: Option<Status>)
    requires Binds(o)
    ensures Apply(o, cfg, w, rt, filed).ending != BindFailed
  {
    var r, given := Apply(o, cfg, w, rt, filed), WithGeneration(w.cluster.specs, rt);
    ApplyTable(o, cfg, w, rt, filed);
    hide Apply, WithGeneration, Replace, StartPorts, Ascending, RouteMap;
    if r.ending == BindFailed {
      var found: Discovered, tick: nat :|
        var rep := Replace(w.table, given, found, RouteMap(given));
        !StartPorts(rep.table, Ascending(rep.starts), o.bind, tick).ok;
      var rep := Replace(w.table, given, found, RouteMap(given));
      StartsAll(rep.table, Ascending(rep.starts), o.bind, tick);
    }
  }

  lemma StepListeners(o: Oracle, cfg: Config, w: World, e: Event)
    requires ListenersMatch(w.table) && Binds(o)
    ensures ListenersMatch(Step(o, cfg, w, e).table)
    ensures ServersKept(w.table, Step(o, cfg, w, e).table)
  {
    hide Apply, Remove, ResyncEach;
    match e
    case Applying(rt, filed) =>
      ApplyListeners(o, cfg, w, rt, filed);
      NoBindFails(o, cfg, w, rt, filed);
    case Removing(key) => RemoveListeners(o, w, key);
    case Resyncing => ResyncRoutes(o, cfg, w, InMemory(w.cluster.specs));
    case _ =>
  }

  /** Listener stability over whole runs: as long as binds succeed, the proxy listens on
      exactly the ports that have routes, whatever else fails. */
  lemma {:induction false} RunListeners(o: Oracle, cfg: Config, w: World, es: seq<Event>)
    requires ListenersMatch(w.table) && Binds(o)
    ensures ListenersMatch(Run(o, cfg, w, es).table)
    decreases |es|
  {
    hide ListenersMatch, Step;
    if es != [] {
      RunListeners(o, cfg, w, es[..|es| - 1]);
      StepListeners(o, cfg, Run(o, cfg, w, es[..|es| - 1]), es[|es| - 1]);
    }
  }

  // ------------------------------------------------- routes in step with specs

  /** The routes of every runtime are those of its spec in memory. */
  ghost predicate InStep(w: World) {
    Agree(w.routed, w.cluster.specs)
  }

  ghost predicate Agree(routed: map<string, Runtime>, specs: map<string, Runtime>) {
    forall k :: k in routed ==> k in specs && routed[k] == specs[k]
  }

  lemma AgreeAfter(routed: map<string, Runtime>, specs: map<string, Runtime>, path: string, rt: Runtime)
    requires Agree(routed, specs)
    ensures Agree(routed[path := rt], specs[path := rt])
    ensures Agree(routed, specs[path := rt]) <==> path !in routed || routed[path] == rt
  {
    if Agree(routed, specs[path := rt]) && path in routed {
      assert routed[path] == specs[path := rt][path];
    }
  }

  lemma AgreeElsewhere(routed: map<string, Runtime>, specs: map<string, Runtime>, later: map<string, Runtime>, path: string)
    requires Agree(routed, specs) && path !in routed && later - {path} == specs - {path}
    ensures Agree(routed, later)
  {
    forall k | k in routed
      ensures k in later && routed[k] == later[k]
    {
      assert k in specs - {path};
      assert k in later - {path} && (later - {path})[k] == (specs - {path})[k];
    }
  }

  /** The spec has been written and the routes have not. */
  predicate Overtaken(e: Ending) {
    e == NetworkFailed || e == EndpointsFailed
  }

  lemma RolloutFailedMeansNew(o: Oracle, cfg: Config, w: World, rt: Runtime, filed: Option<Status>)
    requires Inv(w)
    ensures Apply(o, cfg, w, rt, filed).ending == RolloutFailed ==> rt.key.Path() !in w.cluster.specs
  {
    if Accepted(cfg, w, rt) {
      AcceptedCarries(o, cfg, w, rt, filed);
      hide Inv, Accepted, Apply, WithGeneration, WritePhase, EnsureNetwork, Rollout.Reconcile, Discovering, NewStatus, Cleanup, Restore;
      var given := WithGeneration(w.cluster.specs, rt);
      var p := Previous(o, w, rt.key.Path(), filed);
      var v := w.(cluster := p.cluster);
      var phase := if given.key.Path() in v.cluster.specs then Updating else Pending;
      var network := EnsureNetwork(o, WritePhase(v.cluster, given, phase));
      if network.ok {
        var x := v.(cluster := WritePhase(network.cluster, given, Starting));
        RollingEnding(o, cfg, x, given, p.prior);
        hide Rolling;
      }
    } else {
      Runs.RejectedIsSilent(o, cfg, w, rt, filed);
    }
  }

  lemma RollingEnding(o: Oracle, cfg: Config, w: World, rt: Runtime, prior: Prior)
    ensures Rolling(o, cfg, w, rt, prior).ending == RolloutFailed ==> prior.NoPrior?
  {
    hide Rollout.Reconcile, Endpoints.Refresh, Publish, NewStatus, Cleanup, Restore, RecordFailed, CachedEndpoints;
    var out := Rollout.Reconcile(o, cfg.selfHeal, w.cluster, rt);
    if out.ok {
      var found := Endpoints.Refresh(o, out.cluster, rt, |rt.services|);
      if found.value.Some? {
        PublishTable(o, w.(cluster := found.cluster), rt, found.value.value);
      }
    }
  }

  /** What an Apply leaves in memory. */
  ghost predicate Leaves(specs: map<string, Runtime>, later: map<string, Runtime>, ending: Ending, rt: Runtime) {
    var path := rt.key.Path();
    && later - {path} == specs - {path}
    && (if ending in {Invalid, Denied} then later == specs
        else if ending in {RolledBack, RollbackFailed} then path in specs ==> later == specs
        else later == specs[path := rt])
  }

  lemma ApplyLeaves(o: Oracle, cfg: Config, w: World, rt: Runtime, filed: Option<Status>)
    requires Inv(w)
    ensures var r := Apply(o, cfg, w, rt, filed);
            Leaves(w.cluster.specs, r.world.cluster.specs, r.ending, WithGeneration(w.cluster.specs, rt))
  {
    if Accepted(cfg, w, rt) {
      var given, path := WithGeneration(w.cluster.specs, rt), rt.key.Path();
      AcceptedCarries(o, cfg, w, rt, filed);
      PriorWellFormed(o, w, path, filed);
      var p := Previous(o, w, path, filed);
      assert path in w.cluster.specs ==> p.prior.Prior? && p.prior.rt == w.cluster.specs[path];
      hide Inv, Accepted, Apply, Previous, Carry, WithGeneration, Leaves;
      var v := w.(cluster := p.cluster);
      var a := w.cluster.specs[path := given];
      var b := if p.prior.Prior? then w.cluster.specs[path := p.prior.rt] else a;
      CarryShows(o, cfg, v, given, p.prior, a, b);
      CarryEnding(o, cfg, v, given, p.prior);
      LeftLeaves(w.cluster.specs, given, p.prior, Carry(o, cfg, v, given, p.prior).ending);
    } else {
      Runs.RejectedIsSilent(o, cfg, w, rt, filed);
      hide WithGeneration;
    }
  }

  lemma LeftLeaves(specs: map<string, Runtime>, rt: Runtime, prior: Prior, ending: Ending)
    requires ending !in {Invalid, Denied}
    requires rt.key.Path() in specs ==> prior.Prior? && prior.rt == specs[rt.key.Path()]
    ensures var a := specs[rt.key.Path() := rt];
            var b := if prior.Prior? then specs[rt.key.Path() := prior.rt] else a;
            Leaves(specs, Left(ending, a, b), ending, rt)
  {
    LeavesOthers(specs, rt.key.Path(), rt);
    if prior.Prior? {
      LeavesOthers(specs, rt.key.Path(), prior.rt);
    }
  }

  lemma CarryEnding(o: Oracle, cfg: Config, w: World, rt: Runtime, prior: Prior)
    ensures Carry(o, cfg, w, rt, prior).ending !in {Invalid, Denied}
  {
    hide WritePhase, EnsureNetwork, Rollout.Reconcile, Endpoints.Refresh, Publish, NewStatus, Cleanup, Restore, RecordFailed, CachedEndpoints;
    var phase := if rt.key.Path() in w.cluster.specs then Updating else Pending;
    var network := EnsureNetwork(o, WritePhase(w.cluster, rt, phase));
    if network.ok {
      var x := WritePhase(network.cluster, rt, Starting);
      var out := Rollout.Reconcile(o, cfg.selfHeal, x, rt);
      if out.ok {
        var found := Endpoints.Refresh(o, out.cluster, rt, |rt.services|);
        if found.value.Some? {
          PublishTable(o, w.(cluster := found.cluster), rt, found.value.value);
        }
      }
    }
  }

  lemma LeavesOthers(specs: map<string, Runtime>, path: string, rt: Runtime)
    ensures specs[path := rt] - {path} == specs - {path}
    ensures path in specs && specs[path] == rt ==> specs[path := rt] == specs
  {
  }

  /** When routes and specs part, exactly: an Apply leaves them in step unless it fails at the
      network or at the endpoints while other routes of the same runtime are in the table. */
  lemma ApplyInStep(o: Oracle, cfg: Config, w: World, rt: Runtime, filed: Option<Status>)
    requires Inv(w) && InStep(w)
    ensures var r := Apply(o, cfg, w, rt, filed);
            var path := rt.key.Path();
            InStep(r.world) <==>
              !(Overtaken(r.ending) && path in w.routed && w.routed[path] != WithGeneration(w.cluster.specs, rt))
  {
    var r, path, given := Apply(o, cfg, w, rt, filed), rt.key.Path(), WithGeneration(w.cluster.specs, rt);
    ApplyTable(o, cfg, w, rt, filed);
    ApplyLeaves(o, cfg, w, rt, filed);
    RolloutFailedMeansNew(o, cfg, w, rt, filed);
    assert given.key == rt.key;
    assert w.routed.Keys <= w.cluster.specs.Keys;
    hide Inv, Apply, WithGeneration, Agree, Published, Leaves;
    if Publishes(r.ending) {
      PublishedRouted(o, w, r.world, given, r.ending != BindFailed);
    }
    AgreeCases(w.routed, w.cluster.specs, r.world.cluster.specs, r.ending, given);
  }

  lemma AgreeCases(routed: map<string, Runtime>, specs: map<string, Runtime>, later: map<string, Runtime>,
                   ending: Ending, rt: Runtime)
    requires Agree(routed, specs) && routed.Keys <= specs.Keys
    requires Leaves(specs, later, ending, rt)
    requires ending == RolloutFailed ==> rt.key.Path() !in specs
    ensures var path := rt.key.Path();
            Agree(if Publishes(ending) then routed[path := rt] else routed, later)
            <==> !(Overtaken(ending) && path in routed && routed[path] != rt)
  {
    var path := rt.key.Path();
    hide Agree;
    AgreeAfter(routed, specs, path, rt);
    if ending in {RolledBack, RollbackFailed} && path !in specs {
      AgreeElsewhere(routed, specs, later, path);
    }
  }

  lemma PublishedRouted(o: Oracle, w: World, v: World, rt: Runtime, ok: bool)
    requires Published(o, w, v, rt, ok)
    ensures v.routed == w.routed[rt.key.Path() := rt]
  {
    hide Replace, StartPorts, Ascending, RouteMap;
  }

  /** Routes and specs, exactly, before the call: they stay in step, whatever fails, if and only
      if the candidate is turned away, or the runtime has no routes yet, or those of the very
      same document. */
  lemma ApplyInStepExactly(cfg: Config, w: World, rt: Runtime, filed: Option<Status>)
    requires Inv(w) && InStep(w)
    ensures (forall o: Oracle :: InStep(Apply(o, cfg, w, rt, filed).world))
            <==> !Accepted(cfg, w, rt) || rt.key.Path() !in w.routed
                 || w.routed[rt.key.Path()] == WithGeneration(w.cluster.specs, rt)
  {
    hide Inv, InStep, Apply, Accepted, WithGeneration, NetworkBlind;
    forall o: Oracle
      ensures !Accepted(cfg, w, rt) ==> !Overtaken(Apply(o, cfg, w, rt, filed).ending)
      ensures InStep(Apply(o, cfg, w, rt, filed).world) <==>
                !(Overtaken(Apply(o, cfg, w, rt, filed).ending) && rt.key.Path() in w.routed
                  && w.routed[rt.key.Path()] != WithGeneration(w.cluster.specs, rt))
    {
      ApplyInStep(o, cfg, w, rt, filed);
      if !Accepted(cfg, w, rt) {
        Runs.RejectedIsSilent(o, cfg, w, rt, filed);
      }
    }
    if Accepted(cfg, w, rt) {
      NetworkBlindFails(cfg, w, rt, filed);
      assert Overtaken(Apply(NetworkBlind(), cfg, w, rt, filed).ending);
    }
  }

  /** Publishing a candidate keeps the table free of clashes exactly if it is compatible with
      what the others have in the table. */
  lemma PublishedSafe(o: Oracle, cfg: Config, w: World, rt: Runtime, filed: Option<Status>)
    requires Inv(w) && PortSafe(w.routed) && Publishes(Apply(o, cfg, w, rt, filed).ending)
    ensures var path, given := rt.key.Path(), WithGeneration(w.cluster.specs, rt);
            PortSafe(Apply(o, cfg, w, rt, filed).world.routed)
            <==> forall k :: k in w.routed && k != path ==> Compatible(given, w.routed[k])
  {
    var path, given := rt.key.Path(), WithGeneration(w.cluster.specs, rt);
    ApplyTable(o, cfg, w, rt, filed);
    assert given.key == rt.key;
    hide Apply, Published, Inv, WithGeneration, PortSafe;
    if Accepted(cfg, w, rt) {
      WellFormedSelfSafe(given) by { hide WellFormed, Conflicts, Fits, ClashFree; }
      hide Accepted;
      PublishedRouted(o, w, Apply(o, cfg, w, rt, filed).world, given, Apply(o, cfg, w, rt, filed).ending != BindFailed);
      PortSafeExactly(w.routed, path, given);
    } else {
      Runs.RejectedIsSilent(o, cfg, w, rt, filed);
    }
  }

  /** The table before the call, exactly: it stays free of clashes, whatever fails, if and only
      if the candidate is turned away or is compatible with what the others have in the table.
      Admission has not looked at that: it looks at the others' specs. */
  lemma PublishSafeExactly(cfg: Config, w: World, rt: Runtime, filed: Option<Status>)
    requires Inv(w) && PortSafe(w.routed)
    ensures (forall o: Oracle :: PortSafe(Apply(o, cfg, w, rt, filed).world.routed))
            <==> !Accepted(cfg, w, rt)
                 || forall k :: k in w.routed && k != rt.key.Path() ==>
                      Compatible(WithGeneration(w.cluster.specs, rt), w.routed[k])
  {
    hide Inv, PortSafe, Accepted, Apply, WithGeneration, Compatible, Availability.HashBlind, Heard;
    forall o: Oracle
      ensures !Publishes(Apply(o, cfg, w, rt, filed).ending) ==> Apply(o, cfg, w, rt, filed).world.routed == w.routed
    {
      ApplyTable(o, cfg, w, rt, filed);
    }
    if Accepted(cfg, w, rt) {
      BlindPublishes(cfg, w, rt, filed);
      forall o: Oracle | Publishes(Apply(o, cfg, w, rt, filed).ending)
        ensures PortSafe(Apply(o, cfg, w, rt, filed).world.routed)
                <==> forall k :: k in w.routed && k != rt.key.Path() ==>
                       Compatible(WithGeneration(w.cluster.specs, rt), w.routed[k])
      {
        PublishedSafe(o, cfg, w, rt, filed);
      }
    } else {
      forall o: Oracle
        ensures !Publishes(Apply(o, cfg, w, rt, filed).ending)
      {
        Runs.RejectedIsSilent(o, cfg, w, rt, filed);
      }
    }
  }

  lemma PortSafeExactly(routed: map<string, Runtime>, path: string, rt: Runtime)
    requires PortSafe(routed) && SelfSafe(rt)
    ensures PortSafe(routed[path := rt]) <==> forall k :: k in routed && k != path ==> Compatible(rt, routed[k])
  {
    hide Compatible, SelfSafe;
    var later := routed[path := rt];
    forall k | k in routed && k != path
      ensures Compatible(rt, routed[k]) <==> Compatible(routed[k], rt)
      ensures k in later && later[k] == routed[k] && later[path] == rt
    {
      CompatibleSymmetric(rt, routed[k]);
    }
  }

  lemma InStepSafe(w: World)
    requires Inv(w) && InStep(w) && PortSafe(w.cluster.specs)
    ensures PortSafe(w.routed)
  {
    hide Compatible, SelfSafe, Sound, Rebuilt;
  }

  /** Routing in every state whose routes are in step with safe specs: the resolver's answer
      is the one longest claim that matches, and there is an answer whenever one matches. */
  lemma ResolvesLongest(w: World, port: int, host: string, path: string)
    requires Inv(w) && InStep(w) && PortSafe(w.cluster.specs)
    requires forall k :: k in w.routed ==> NoDoubleSlash(w.routed[k])
    ensures var rs := RoutesAt(w.table.routes, port);
            var i := FirstMatch(rs, w.cluster.specs.Keys, host, path);
            if i < |rs| then forall s :: IsLongest(s, multiset(rs), host, path) <==> s == rs[i]
            else forall s :: s in multiset(rs) ==> !Matches(s, host, path)
  {
    InStepSafe(w);
    hide NoDoubleSlash, PortSafe, Rebuilt, Sound, InStep, FirstMatch;
    ResolveIsLongestPrefix(w.table.routes, w.routed, w.cluster.specs.Keys, port, host, path);
  }

  /** Two runs that end with the same routed runtimes resolve every request alike, in
      whatever order the runtimes came, changed and went. */
  lemma RunsResolveAlike(o: Oracle, p: Oracle, cfg: Config, v: World, w: World, es: seq<Event>, fs: seq<Event>,
                         port: int, host: string, path: string)
    requires Inv(v) && Inv(w)
    requires Run(o, cfg, v, es).routed == Run(p, cfg, w, fs).routed
    requires PortSafe(Run(o, cfg, v, es).routed)
    requires forall k :: k in Run(o, cfg, v, es).routed ==> NoDoubleSlash(Run(o, cfg, v, es).routed[k])
    ensures var a, b := Run(o, cfg, v, es), Run(p, cfg, w, fs);
            var x, y := RoutesAt(a.table.routes, port), RoutesAt(b.table.routes, port);
            var i, j := FirstMatch(x, a.cluster.specs.Keys, host, path), FirstMatch(y, b.cluster.specs.Keys, host, path);
            (i < |x| <==> j < |y|) && (i < |x| ==> x[i] == y[j])
  {
    RunInvariant(o, cfg, v, es);
    RunInvariant(p, cfg, w, fs);
    hide NoDoubleSlash, PortSafe, Rebuilt, Sound, FirstMatch, Run;
    var a, b := Run(o, cfg, v, es), Run(p, cfg, w, fs);
    ResolveIgnoresHistory(a.table.routes, b.table.routes, a.routed, a.cluster.specs.Keys, b.cluster.specs.Keys, port, host, path);
  }

  // ------------------------------------------------------------- whole runs

  /** No update is overtaken in this step. */
  ghost predicate KeepsUp(o: Oracle, cfg: Config, w: World, e: Event) {
    e.Applying? ==>
      !(Overtaken(Apply(o, cfg, w, e.rt, e.filed).ending) && e.rt.key.Path() in w.routed
        && w.routed[e.rt.key.Path()] != WithGeneration(w.cluster.specs, e.rt))
  }

  lemma RemoveRouted(o: Oracle, w: World, key: Key)
    ensures Remove(o, w, key).world.routed == if key.name == "" then w.routed else w.routed - {key.Path()}
  {
    hide Lookup, WritePhase, Forget, Drop, Purge, OwnedAll;
  }

  lemma AgreeLess(routed: map<string, Runtime>, specs: map<string, Runtime>, path: string)
    requires Agree(routed, specs)
    ensures Agree(routed - {path}, specs - {path})
  {
  }

  lemma RemoveInStep(o: Oracle, w: World, key: Key)
    requires Inv(w) && InStep(w)
    ensures InStep(Remove(o, w, key).world)
  {
    RemoveRouted(o, w, key);
    if key.name != "" {
      RemoveShows(o, w, key);
      hide Inv, Remove, Shows, Agree;
      AgreeLess(w.routed, w.cluster.specs, key.Path());
    }
  }

  lemma StepInStep(o: Oracle, cfg: Config, w: World, e: Event)
    requires Inv(w) && InStep(w) && KeepsUp(o, cfg, w, e)
    ensures InStep(Step(o, cfg, w, e))
  {
    hide Inv, Apply, Remove, ResyncEach, WithGeneration;
    match e
    case Applying(rt, filed) => ApplyInStep(o, cfg, w, rt, filed);
    case Removing(key) => RemoveInStep(o, w, key);
    case Resyncing =>
      Runs.SoundOfInv(w);
      InMemoryCurrent(w.cluster);
      Runs.ResyncEachShows(o, cfg, w, InMemory(w.cluster.specs));
      ResyncRoutes(o, cfg, w, InMemory(w.cluster.specs));
    case _ =>
  }

  /** Over every run in which no update is overtaken, routes and specs stay in step. */
  lemma {:induction false} RunInStep(o: Oracle, cfg: Config, w: World, es: seq<Event>)
    requires Inv(w) && InStep(w)
    requires forall i :: 0 <= i < |es| ==> KeepsUp(o, cfg, Run(o, cfg, w, es[..i]), es[i])
    ensures InStep(Run(o, cfg, w, es))
    decreases |es|
  {
    hide Inv, InStep, KeepsUp, Step;
    if es != [] {
      var u := es[..|es| - 1];
      forall i | 0 <= i < |u|
        ensures KeepsUp(o, cfg, Run(o, cfg, w, u[..i]), u[i])
      {
        assert u[..i] == es[..i];
      }
      RunInStep(o, cfg, w, u);
      RunInvariant(o, cfg, w, u);
      assert es[..|es| - 1] == u;
      StepInStep(o, cfg, Run(o, cfg, w, u), es[|es| - 1]);
    }
  }

  /** Routing over whole runs: after every run in which no update is overtaken and no clashing
      spec comes back from disk, whatever else fails and whatever is asked for, the resolver's answer is the one longest claim that matches, and there is an answer whenever
      one matches. */
  lemma RunResolvesLongest(o: Oracle, cfg: Config, w: World, es: seq<Event>, port: int, host: string, path: string)
    requires Inv(w) && InStep(w) && PortSafe(w.cluster.specs) && Runs.RestoringRun(o, cfg, w, es, Ports())
    requires forall i :: 0 <= i < |es| ==> KeepsUp(o, cfg, Run(o, cfg, w, es[..i]), es[i])
    requires forall k :: k in Run(o, cfg, w, es).routed ==> NoDoubleSlash(Run(o, cfg, w, es).routed[k])
    ensures var v := Run(o, cfg, w, es);
            var rs := RoutesAt(v.table.routes, port);
            var i := FirstMatch(rs, v.cluster.specs.Keys, host, path);
            if i < |rs| then forall s :: IsLongest(s, multiset(rs), host, path) <==> s == rs[i]
            else forall s :: s in multiset(rs) ==> !Matches(s, host, path)
  {
    hide Inv, InStep, KeepsUp, Run, Runs.RestoringRun, FirstMatch, NoDoubleSlash, Matches;
    RunInvariant(o, cfg, w, es);
    RunInStep(o, cfg, w, es);
    hide PortSafe, Always;
    Runs.RunPorts(o, cfg, w, es);
    Runs.AlwaysEnd(w.cluster, Run(o, cfg, w, es).cluster, Ports());
    ResolvesLongest(Run(o, cfg, w, es), port, host, path);
  }
}
