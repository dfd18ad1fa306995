/** The container engine as the controller sees it, and the controller state its rollouts
    write. Every call may fail: an oracle says how. A call can be refused without effect, or
    take effect and still report an error. */
module Docker {
  import opened Runtimes
  import opened Statuses
  import opened Restarts
  import Quantities

  type Option<+T> = Quantities.Option<T>

  datatype Health = NoCheck | Healthy | Unhealthy | Probing

  datatype State = State(running: bool, health: Health)

  const READY := State(true, NoCheck)

  predicate Ready(s: State) {
    s.running && (s.health.NoCheck? || s.health.Healthy?)
  }

  predicate NeedsRestart(s: State) {
    !s.running || s.health.Unhealthy?
  }

  /** A container is its labels and its state. `managed` and `legacy` say which of the two
      families of owner labels it carries; containers the controller starts carry both. */
  datatype Container = Container(
    managed: bool,
    legacy: bool,
    namespace: string,
    instance: string,
    service: string,
    replica: int,
    generation: int,
    revision: string,
    hash: string,
    legacyHash: string,
    state: State)

  predicate Owned(c: Container, key: Key) {
    c.managed && c.namespace == key.namespace && c.instance == key.name
  }

  predicate OwnedBy(c: Container, key: Key, deployment: string) {
    Owned(c, key) && c.service == deployment
  }

  function OwnedAll(m: map<string, Container>, key: Key): (names: set<string>) {
    set n | n in m && Owned(m[n], key)
  }

  function Made(rt: Runtime, d: Deployment, replica: int, state: State): Container {
    Container(true, true, rt.key.namespace, rt.key.name, d.name, replica, rt.generation, d.revision, d.specHash, "", state)
  }

  // ------------------------------------------------------------------- oracle

  datatype Op = InspectId | InspectHash | InspectState | InspectEndpoint | List | Network | CallRm | CallRun | CallRename

  /** What comes of writing or deleting a file: done; refused, the file as before; or failed
      with the file lost. A file can be read only when the answer is Done. */
  datatype Disk = Done | Unchanged | Lost

  datatype Fault = Works | Refused | Broken(left: State)

  /** `fault` decides every engine call, `listing` the order `docker ps` lists a set in,
      `delay` how long a call takes, `bind` whether a port can be bound and `disk` what comes
      of a file operation. */
  datatype RawOracle = Oracle(
    fault: (Op, nat) -> Fault,
    listing: (nat, set<string>) -> seq<string>,
    delay: nat -> nat,
    bind: nat -> bool,
    disk: nat -> Disk)

  ghost predicate ListsAll(o: RawOracle) {
    forall t: nat, s: set<string>, x: string :: x in o.listing(t, s) <==> x in s
  }

  ghost function SomeOrder(s: set<string>): (q: seq<string>)
    ensures forall x :: x in q <==> x in s
  {
    if s == {} then []
    else
      var x :| x in s;
      [x] + SomeOrder(s - {x})
  }

  type Oracle = o: RawOracle | ListsAll(o)
    ghost witness Oracle((op, t) => Works, (t, s) => SomeOrder(s), t => 0, t => true, t => Done)

  ghost predicate FaultFree(o: Oracle) {
    forall op, t :: o.fault(op, t) == Works
  }

  // ------------------------------------------------------------------ cluster

  type Containers = map<string, Container>

  /** What a bystander can see: the specs in memory and the containers. */
  datatype Snapshot = Snapshot(specs: map<string, Runtime>, containers: Containers)

  /** `trace` lists a snapshot for every write to the specs or the containers. */
  datatype Cluster = Cluster(
    specs: map<string, Runtime>,
    statuses: map<string, Status>,
    restarts: map<string, Record>,
    containers: Containers,
    tick: nat,
    now: nat,
    trace: seq<Snapshot>)

  datatype Outcome = Outcome(cluster: Cluster, ok: bool)

  datatype Answer<+T> = Answer(cluster: Cluster, value: Option<T>)

  function Tick(o: Oracle, c: Cluster): Cluster {
    c.(tick := c.tick + 1, now := c.now + o.delay(c.tick))
  }

  function SetContainers(c: Cluster, m: Containers): Cluster {
    c.(containers := m, trace := c.trace + [Snapshot(c.specs, m)])
  }

  /** Writing a runtime and its status to memory. */
  function Write(c: Cluster, rt: Runtime, status: Status): Cluster {
    var specs := c.specs[rt.key.Path() := rt];
    c.(specs := specs,
       statuses := c.statuses[rt.key.Path() := status],
       trace := c.trace + [Snapshot(specs, c.containers)])
  }

  /** `updateRuntimeStatus` */
  function WritePhase(c: Cluster, rt: Runtime, phase: Phase): Cluster {
    Write(c, rt, NewStatus(rt, phase, map[], false))
  }

  function RemoveContainer(o: Oracle, c: Cluster, name: string): Outcome {
    var t := Tick(o, c);
    match o.fault(CallRm, c.tick)
    case Works => Outcome(SetContainers(t, c.containers - {name}), true)
    case Refused => Outcome(t, false)
    case Broken(_) => Outcome(SetContainers(t, c.containers - {name}), false)
  }

  /** A rename to a taken name, or of a container that is gone, is refused. */
  function RenameContainer(o: Oracle, c: Cluster, from: string, to: string): Outcome {
    var t := Tick(o, c);
    if from !in c.containers || to in c.containers then Outcome(t, false)
    else
      var m := (c.containers - {from})[to := c.containers[from]];
      match o.fault(CallRename, c.tick)
      case Works => Outcome(SetContainers(t, m), true)
      case Refused => Outcome(t, false)
      case Broken(_) => Outcome(SetContainers(t, m), false)
  }

  /** `docker run` and the wait for readiness. A taken name is refused; a failure may leave
      the container behind in any state. */
  function Launch(o: Oracle, c: Cluster, rt: Runtime, d: Deployment, replica: int, name: string): Outcome {
    var t := Tick(o, c);
    if name in c.containers then Outcome(t, false)
    else
      match o.fault(CallRun, c.tick)
      case Works => Outcome(SetContainers(t, c.containers[name := Made(rt, d, replica, READY)]), true)
      case Refused => Outcome(t, false)
      case Broken(left) => Outcome(SetContainers(t, c.containers[name := Made(rt, d, replica, left)]), false)
  }

  /** `runContainer` */
  function RunContainer(o: Oracle, c: Cluster, rt: Runtime, d: Deployment, replica: int, name: string): Outcome {
    Launch(o, WritePhase(WritePhase(c, rt, Pulling), rt, Starting), rt, d, replica, name)
  }

  /** A read: no effect, and an answer only if the call works and the container is there. */
  function Read(o: Oracle, c: Cluster, op: Op, name: string): Answer<Container> {
    Answer(Tick(o, c),
           if o.fault(op, c.tick) == Works && name in c.containers then Quantities.Some(c.containers[name])
           else Quantities.None)
  }

  datatype Probe = Probe(cluster: Cluster, yes: bool)

  /** `containerExists`: any failure reads as absence. */
  function Exists(o: Oracle, c: Cluster, name: string): Probe {
    var a := Read(o, c, InspectId, name);
    Probe(a.cluster, a.value.Some?)
  }

  /** `containerNeedsRecreate`: a missing digest label is looked up under its old name, and a
      failure of that second look reads as "no". */
  function Drifted(o: Oracle, c: Cluster, name: string, hash: string): Probe {
    var a := Read(o, c, InspectHash, name);
    if a.value.Some? && a.value.value.hash != "" then Probe(a.cluster, a.value.value.hash != hash)
    else
      var b := Read(o, a.cluster, InspectHash, name);
      Probe(b.cluster, b.value.Some? && (b.value.value.legacyHash == "" || b.value.value.legacyHash != hash))
  }

  /** `docker ps`: the names in a set, in the engine's order. */
  function ListNames(o: Oracle, c: Cluster, names: set<string>): Answer<seq<string>> {
    Answer(Tick(o, c),
           if o.fault(List, c.tick) == Works then Quantities.Some(o.listing(c.tick, names)) else Quantities.None)
  }

  function RecordOf(c: Cluster, name: string): Record {
    if name in c.restarts then c.restarts[name] else FRESH
  }

  function SetRecord(c: Cluster, name: string, r: Record): Cluster {
    c.(restarts := c.restarts[name := r])
  }
}
