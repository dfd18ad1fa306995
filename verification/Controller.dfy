/** The controller as a state machine. Apply, Remove, Resync and Shutdown exclude one another,
    so each is one step; the snapshots a step writes on its way stay in the trace. */
module Controller {
  import opened Text
  import opened Runtimes
  import opened Routing
  import opened RouteTable
  import opened Statuses
  import opened Restarts
  import opened Docker
  import Rollout
  import Endpoints
  import opened Admission
  import Quantities

  /** `store` is the spec files on disk. `routed` is a history variable: the last runtime of
      each key whose routes were put into the table. */
  datatype World = World(cluster: Cluster, table: Table, store: map<string, Runtime>, routed: map<string, Runtime>)

  datatype Config = Config(selfHeal: SelfHeal, node: Node)

  datatype Saved = Saved(world: World, ok: bool)

  // ------------------------------------------------------------- the files

  function Skip(c: Cluster, calls: nat): Cluster {
    c.(tick := c.tick + calls)
  }

  function SaveRuntime(o: Oracle, w: World, rt: Runtime): Saved {
    var t := w.(cluster := Tick(o, w.cluster));
    match o.disk(w.cluster.tick)
    case Done => Saved(t.(store := w.store[rt.key.Path() := rt]), true)
    case Unchanged => Saved(t, false)
    case Lost => Saved(t.(store := w.store - {rt.key.Path()}), false)
  }

  function DeleteRuntime(o: Oracle, w: World, key: Key): Saved {
    var t := w.(cluster := Tick(o, w.cluster));
    match o.disk(w.cluster.tick)
    case Done => Saved(t.(store := w.store - {key.Path()}), true)
    case Unchanged => Saved(t, false)
    case Lost => Saved(t.(store := w.store - {key.Path()}), false)
  }

  /** A status or the proxy state. */
  function SaveOther(o: Oracle, w: World): Saved {
    Saved(w.(cluster := Tick(o, w.cluster)), o.disk(w.cluster.tick) == Done)
  }

  function ReadStore(o: Oracle, w: World, path: string): Answer<Runtime> {
    Answer(Tick(o, w.cluster),
           if o.disk(w.cluster.tick) == Done && path in w.store then Quantities.Some(w.store[path]) else Quantities.None)
  }

  // ------------------------------------------------------------ generations

  /** `nextGeneration`, an int64 */
  function NextGeneration(specs: map<string, Runtime>, path: string): int {
    if path in specs && specs[path].generation > 0 then Quantities.Wrap64(specs[path].generation + 1) else 1
  }

  function WithGeneration(specs: map<string, Runtime>, rt: Runtime): Runtime {
    if rt.generation == 0 then rt.(generation := NextGeneration(specs, rt.key.Path())) else rt
  }

  // --------------------------------------------------------------- failure

  /** `recordFailedStatus` */
  function RecordFailed(o: Oracle, w: World, rt: Runtime): World {
    var noted := w.(cluster := Write(w.cluster, rt, NewStatus(rt, Failed, map[], true)));
    SaveOther(o, SaveRuntime(o, noted, rt).world).world
  }

  /** What an update goes back to. The status is missing if only the spec file was found and
      the status file says nothing. */
  datatype Prior = NoPrior | Prior(rt: Runtime, status: Option<Status>)

  datatype Recalled = Recalled(cluster: Cluster, prior: Prior)

  /** `previousRuntimeState`: memory first, then the spec file. `filed` is what the status
      file holds. */
  function Previous(o: Oracle, w: World, path: string, filed: Option<Status>): Recalled {
    if path in w.cluster.specs then
      Recalled(w.cluster,
               Prior(w.cluster.specs[path], if path in w.cluster.statuses then Quantities.Some(w.cluster.statuses[path]) else Quantities.None))
    else
      var read := ReadStore(o, w, path);
      Recalled(read.cluster, if read.value.Some? then Prior(read.value.value, filed) else NoPrior)
  }

  function OfGeneration(m: Docker.Containers, key: Key, generation: int): (names: set<string>) {
    set n | n in m && Owned(m[n], key) && m[n].generation == generation
  }

  /** List containers and remove them one by one, up to the first failure. */
  function Purge(o: Oracle, c: Cluster, names: set<string>): Outcome {
    var listed := ListNames(o, c, names);
    if listed.value.None? then Outcome(listed.cluster, false)
    else Rollout.RemoveEach(o, listed.cluster, listed.value.value)
  }

  /** `removeOwnedContainersForGeneration` */
  function Cleanup(o: Oracle, c: Cluster, rt: Runtime): Outcome {
    if rt.generation <= 0 then Outcome(c, true)
    else Purge(o, c, OfGeneration(c.containers, rt.key, rt.generation))
  }

  /** `runtimeEndpoints` */
  function CachedEndpoints(t: Table, rt: Runtime): Discovered {
    map s | s in rt.services :: s.name :=
      if EndpointKey(rt.key, s.name) in t.endpoints then t.endpoints[EndpointKey(rt.key, s.name)] else []
  }

  /** `restorePreviousRuntime` */
  function Restore(o: Oracle, w: World, rt: Runtime, status: Status): Saved {
    var saved := SaveRuntime(o, w.(cluster := Write(w.cluster, rt, status)), rt);
    if !saved.ok then saved else SaveOther(o, saved.world)
  }

  // ----------------------------------------------------------------- apply

  /** How an Apply ends. Only Applied is a nil error. */
  datatype Ending =
    | Invalid
    | Denied
    | NetworkFailed
    | RolledBack
    | RollbackFailed
    | RolloutFailed
    | EndpointsFailed
    | BindFailed
    | SaveFailed
    | Applied

  datatype Result = Result(world: World, ending: Ending)

  /** Admission of rt among the other runtimes in memory: `AdmitRuntime`. */
  ghost predicate Admitted(specs: map<string, Runtime>, rt: Runtime, node: Node) {
    var others := specs - {rt.key.Path()};
    && (forall k :: k in others ==> ClashFree(rt, others[k]))
    && OwnClaimsApart(Admission.Claims(rt))
    && Fits(Allocatable(node), Wrapped(Plus(Total(others), RuntimeRequest(rt))))
  }

  /** `ensureNetwork`: look it up, else create it. */
  function EnsureNetwork(o: Oracle, c: Cluster): Outcome {
    var found := Tick(o, c);
    if o.fault(Network, c.tick) == Works then Outcome(found, true)
    else Outcome(Tick(o, found), o.fault(Network, found.tick) == Works)
  }

  /** `rollbackRuntime`: the cleanup and the restoration both happen, whatever comes of either. */
  function Rollback(o: Oracle, w: World, failed: Runtime, prior: Prior): Result
    requires prior.Prior?
  {
    var cleaned := Cleanup(o, w.cluster, failed);
    var status := if prior.status.Some? then prior.status.value
                  else NewStatus(prior.rt, Running, CachedEndpoints(w.table, prior.rt), false);
    var restored := Restore(o, w.(cluster := cleaned.cluster), prior.rt, status);
    Result(restored.world, if cleaned.ok && restored.ok then RolledBack else RollbackFailed)
  }

  function RouteMap(rt: Runtime): (routes: map<int, seq<Route>>)
    ensures RoutesOf(rt, routes)
  {
    var ports := set c | c in Claimed(rt) :: c.port;
    assert forall p :: p in ports <==> ClaimsPort(rt, p);
    map p | p in ports :: PortRoutes(rt, p)
  }

  /** The last stretch of Apply: report, and write the files. */
  function Finish(o: Oracle, w: World, rt: Runtime, found: Discovered): Result {
    var path := rt.key.Path();
    var done := w.(cluster := w.cluster.(statuses := w.cluster.statuses[path := NewStatus(rt, Running, found, false)]));
    var spec := SaveRuntime(o, done, rt);
    if !spec.ok then Result(spec.world, SaveFailed)
    else
      var status := SaveOther(o, spec.world);
      if !status.ok then Result(status.world, SaveFailed)
      else
        var proxy := SaveOther(o, status.world);
        Result(proxy.world, if proxy.ok then Applied else SaveFailed)
  }

  /** `replaceRoutesAndState` also writes the spec once more. */
  function Rewrite(c: Cluster, rt: Runtime): Cluster {
    var specs := c.specs[rt.key.Path() := rt];
    c.(specs := specs, trace := c.trace + [Snapshot(specs, c.containers)])
  }

  datatype Bound = Bound(world: World, stops: set<int>, ok: bool)

  /** The routes are replaced and the new ports started, in order, up to the first that fails. */
  ghost function Binding(o: Oracle, w: World, rt: Runtime, found: Discovered): Bound {
    var rep := Replace(w.table, rt, found, RouteMap(rt));
    var c := Rewrite(w.cluster, rt);
    var up := StartPorts(rep.table, Ascending(rep.starts), o.bind, c.tick);
    Bound(w.(cluster := Skip(c, up.attempts), table := up.table, routed := w.routed[rt.key.Path() := rt]), rep.stops, up.ok)
  }

  /** From the replacement of the routes on. */
  ghost function Publish(o: Oracle, w: World, rt: Runtime, found: Discovered): Result {
    var b := Binding(o, w, rt, found);
    if !b.ok then Result(RecordFailed(o, b.world, rt), BindFailed)
    else Finish(o, b.world.(table := StopPorts(b.world.table, b.stops)), rt, found)
  }

  ghost function Discovering(o: Oracle, w: World, rt: Runtime): Result {
    var found := Endpoints.Refresh(o, w.cluster, rt, |rt.services|);
    var seen := w.(cluster := found.cluster);
    if found.value.None? then Result(RecordFailed(o, seen, rt), EndpointsFailed)
    else Publish(o, seen, rt, found.value.value)
  }

  ghost function Rolling(o: Oracle, cfg: Config, w: World, rt: Runtime, prior: Prior): Result {
    var out := Rollout.Reconcile(o, cfg.selfHeal, w.cluster, rt);
    var rolled := w.(cluster := out.cluster);
    if out.ok then Discovering(o, rolled, rt)
    else if prior.Prior? then Rollback(o, rolled, rt, prior)
    else Result(RecordFailed(o, rolled, rt), RolloutFailed)
  }

  /** What follows admission. */
  ghost function Carry(o: Oracle, cfg: Config, w: World, rt: Runtime, prior: Prior): Result {
    var begun := WritePhase(w.cluster, rt, if rt.key.Path() in w.cluster.specs then Updating else Pending);
    var network := EnsureNetwork(o, begun);
    if !network.ok then Result(RecordFailed(o, w.(cluster := network.cluster), rt), NetworkFailed)
    else Rolling(o, cfg, w.(cluster := WritePhase(network.cluster, rt, Starting)), rt, prior)
  }

  /** `Apply`. `filed` is what the status file would be read as. */
  ghost function Apply(o: Oracle, cfg: Config, w: World, candidate: Runtime, filed: Option<Status>): Result {
    var previous := Previous(o, w, candidate.key.Path(), filed);
    var recalled := w.(cluster := previous.cluster);
    var rt := WithGeneration(w.cluster.specs, candidate);
    if !WellFormed(rt) then Result(recalled, Invalid)
    else if !Admitted(w.cluster.specs, rt, cfg.node) then Result(recalled, Denied)
    else Carry(o, cfg, recalled, rt, previous.prior)
  }

  // ---------------------------------------------------------------- remove

  function Forget(c: Cluster, path: string): Cluster {
    var specs := c.specs - {path};
    c.(specs := specs, statuses := c.statuses - {path}, trace := c.trace + [Snapshot(specs, c.containers)])
  }

  function Lookup(o: Oracle, w: World, path: string): Answer<Runtime> {
    if path in w.cluster.specs then Answer(w.cluster, Quantities.Some(w.cluster.specs[path])) else ReadStore(o, w, path)
  }

  /** The part of Remove that deals with containers and files. */
  function Clearing(o: Oracle, w: World, key: Key, rt: Option<Runtime>): Saved {
    var purged := if rt.Some? then Purge(o, w.cluster, OwnedAll(w.cluster.containers, rt.value.key))
                  else Outcome(w.cluster, true);
    var cleared := w.(cluster := purged.cluster);
    if !purged.ok then Saved(cleared, false)
    else
      var deleted := DeleteRuntime(o, cleared, key);
      if !deleted.ok then deleted else SaveOther(o, deleted.world)
  }

  datatype Vanished = Vanished(world: World, rt: Option<Runtime>)

  /** The part of Remove that deals with memory. */
  function Vanishing(o: Oracle, w: World, key: Key): Vanished {
    var path := key.Path();
    var rt := Lookup(o, w, path);
    var noted := if rt.value.Some? then WritePhase(rt.cluster, rt.value.value, Terminating) else rt.cluster;
    Vanished(w.(cluster := Forget(noted, path), table := Drop(w.table, key), routed := w.routed - {path}), rt.value)
  }

  /** `Remove` */
  function Remove(o: Oracle, w: World, key: Key): Saved {
    if key.name == "" then Saved(w, false)
    else
      var v := Vanishing(o, w, key);
      Clearing(o, v.world, key, v.rt)
  }

  // ---------------------------------------------------------------- resync

  lemma {:induction false} FirstExists(s: set<string>)
    requires s != {}
    ensures exists m :: m in s && forall x :: x in s ==> !Less(x, m)
  {
    var x :| x in s;
    var rest := s - {x};
    if rest == {} {
      LessTransitive(x, x, x);
      assert forall y :: y in s ==> y == x || y in rest;
      assert x in s;
    } else {
      FirstExists(rest);
      var m :| m in rest && forall y :: y in rest ==> !Less(y, m);
      FirstOf(s, rest, x, m);
    }
  }

  lemma FirstOf(s: set<string>, rest: set<string>, x: string, m: string)
    requires x in s && rest == s - {x} && m in rest && forall y :: y in rest ==> !Less(y, m)
    ensures exists n :: n in s && forall y :: y in s ==> !Less(y, n)
  {
    var least := if Less(x, m) then x else m;
    LessTransitive(x, x, x);
    forall y | y in s
      ensures !Less(y, least)
    {
      assert y == x || y in rest;
      LessTransitive(y, x, m);
    }
    assert least in s;
  }

  /** `sortedRuntimeKeys` */
  ghost function InOrder(s: set<string>): (keys: seq<string>)
    ensures forall k :: k in keys <==> k in s
    ensures forall i, j :: 0 <= i < j < |keys| ==> keys[i] != keys[j] && !Less(keys[j], keys[i])
    decreases |s|
  {
    if s == {} then []
    else
      FirstExists(s);
      var m :| m in s && forall x :: x in s ==> !Less(x, m);
      [m] + InOrder(s - {m})
  }

  /** One turn of the loop of `Resync`. */
  function ResyncOne(o: Oracle, cfg: Config, w: World, rt: Runtime): Saved {
    var out := Rollout.Reconcile(o, cfg.selfHeal, w.cluster, rt);
    if !out.ok then Saved(RecordFailed(o, w.(cluster := out.cluster), rt), false)
    else
      var found := Endpoints.Refresh(o, out.cluster, rt, |rt.services|);
      if found.value.None? then Saved(RecordFailed(o, w.(cluster := found.cluster), rt), false)
      else
        var c := found.cluster;
        var status := NewStatus(rt, Running, found.value.value, false);
        SaveOther(o, w.(cluster := c.(statuses := c.statuses[rt.key.Path() := status]),
                        table := w.table.(endpoints := PutEndpoints(w.table.endpoints, rt.key, found.value.value))))
  }

  function ResyncEach(o: Oracle, cfg: Config, w: World, rts: seq<Runtime>): Saved {
    if rts == [] then Saved(w, true)
    else
      var before := ResyncEach(o, cfg, w, rts[..|rts| - 1]);
      if !before.ok then before else ResyncOne(o, cfg, before.world, rts[|rts| - 1])
  }

  /** `snapshotRuntimes` */
  ghost function InMemory(specs: map<string, Runtime>): (rts: seq<Runtime>)
    ensures |rts| == |InOrder(specs.Keys)|
  {
    Values(specs, InOrder(specs.Keys))
  }

  ghost function Resync(o: Oracle, cfg: Config, w: World): Saved {
    ResyncEach(o, cfg, w, InMemory(w.cluster.specs))
  }

  // -------------------------------------------------------------- shutdown

  /** `Shutdown`: specs, statuses and cached endpoints stay. */
  function Shutdown(o: Oracle, w: World): Saved {
    SaveOther(o, w.(table := w.table.(routes := map[], servers := map[]), routed := map[]))
  }

  // -------------------------------------------------------------- all runs

  /** A step of the controller, or a change of the containers that it had no part in. */
  datatype Event =
    | Applying(rt: Runtime, filed: Option<Status>)
    | Removing(key: Key)
    | Resyncing
    | Stopping
    | Elsewhere(containers: Docker.Containers, pause: nat)

  ghost function Step(o: Oracle, cfg: Config, w: World, e: Event): World {
    match e
    case Applying(rt, filed) => Apply(o, cfg, w, rt, filed).world
    case Removing(key) => Remove(o, w, key).world
    case Resyncing => Resync(o, cfg, w).world
    case Stopping => Shutdown(o, w).world
    case Elsewhere(m, pause) => w.(cluster := SetContainers(w.cluster.(now := w.cluster.now + pause), m))
  }

  ghost function Run(o: Oracle, cfg: Config, w: World, es: seq<Event>): World {
    if es == [] then w else Step(o, cfg, Run(o, cfg, w, es[..|es| - 1]), es[|es| - 1])
  }
}
