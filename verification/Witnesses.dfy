/** The promises that do not hold, each at a state where it fails. Most of these states are
    reached step by step from a node that has just been started, without any spec. */
module Witnesses {
  import opened Runtimes
  import opened Routing
  import opened Naming
  import opened RouteTable
  import opened Statuses
  import opened Docker
  import opened Controller
  import opened Effects
  import opened Invariants
  import opened Admission
  import opened Safety
  import opened Convergence
  import opened Reconciliation
  import opened Recovery
  import opened Examples
  import Availability
  import Dating
  import Endpoints
  import opened Locality
  import Quantities
  import Restarts
  import Rollbacks
  import Rollout
  import Serving
  import Runs
  import Success
  import Text

  /** The site on another port. */
  function Moved(): Runtime {
    Web("b", 2, [Pod("d", "x")], 8081)
  }

  /** Another runtime, on the port of the site. */
  function Rival(): Runtime {
    Web("c", 1, [Pod("d", "x")], 8080)
  }

  /** The container of the site. */
  function SiteName(): string {
    Canonical(Site().key, Pod("d", "x"), 1)
  }

  ghost function Next(o: Oracle, w: World, rt: Runtime): World {
    Apply(o, Roomy(), w, rt, Quantities.None).world
  }

  /** Memory, disk and table hold certain runtimes, and the site's container is the only one. */
  ghost predicate At(w: World, specs: map<string, Runtime>, store: map<string, Runtime>, routed: map<string, Runtime>) {
    && Inv(w) && w.cluster.specs == specs && w.store == store && w.routed == routed
    && w.cluster.containers.Keys == {SiteName()}
  }

  // ------------------------------------------------------------ the site is up

  /** A node with the site on it. */
  ghost function Up(): World {
    Next(Calm(), Booted(map[], map[]), Site())
  }

  lemma SiteKeys(w: World)
    requires Within(map[], w.cluster.containers, Site(), NamesOfAll(Site()))
    requires OwnedAll(w.cluster.containers, Site().key) == {SiteName()}
    ensures w.cluster.containers.Keys == {SiteName()}
  {
    var m := w.cluster.containers;
    hide Canonical, NamesOf;
    assert forall n :: n in m ==> n in OwnedAll(m, Site().key);
    assert m.Keys == OwnedAll(m, Site().key);
  }

  lemma AppliedNext(o: Oracle, w: World, rt: Runtime, path: string)
    requires Inv(w) && WithGeneration(w.cluster.specs, rt) == rt && path == rt.key.Path()
    requires Apply(o, Roomy(), w, rt, Quantities.None).ending == Applied
    ensures var v := Next(o, w, rt);
            && Inv(v)
            && v.cluster.specs == w.cluster.specs[path := rt]
            && v.store == w.store[path := rt]
            && v.routed == w.routed[path := rt]
            && Within(w.cluster.containers, v.cluster.containers, rt, NamesOfAll(rt))
  {
    hide Inv, Apply, WithGeneration, Success.Established, Within, NamesOf, Roomy;
    Success.AppliedIsEstablished(o, Roomy(), w, rt, Quantities.None);
    InvApply(o, Roomy(), w, rt, Quantities.None);
    Dating.ApplyContainers(o, Roomy(), w, rt, Quantities.None);
  }

  lemma SiteApplies()
    ensures var w := Booted(map[], map[]);
            && Inv(w) && WithGeneration(w.cluster.specs, Site()) == Site()
            && Apply(Calm(), Roomy(), w, Site(), Quantities.None).ending == Applied
            && AtSpec(Up().cluster.containers, Site())
            && OwnedAll(Up().cluster.containers, Site().key) == {SiteName()}
  {
    var w := Booted(map[], map[]);
    hide Inv, Accepted, Apply, Canonical, WithGeneration, Success.Established, AtSpec, Recovery.Quiet, NamesOf, OwnedAll, Roomy, Sound;
    CalmIsQuiet();
    NothingStored();
    BootedInvariant(map[], map[]);
    SiteAccepted(w);
    SiteApplied(Calm(), Quantities.None);
  }

  lemma SiteIsUp()
    ensures At(Up(), map["a/b" := Site()], map["a/b" := Site()], map["a/b" := Site()])
    ensures AtSpec(Up().cluster.containers, Site())
  {
    var w := Booted(map[], map[]);
    assert Site().key.Path() == "a/b";
    hide Inv, Apply, Canonical, WithGeneration, AtSpec, Within, NamesOf, OwnedAll, Roomy;
    SiteApplies();
    AppliedNext(Calm(), w, Site(), "a/b");
    SiteKeys(Up());
  }

  // ------------------------------------------------------------ the rival is up

  lemma RivalName()
    ensures Canonical(Rival().key, Pod("d", "x"), 1) != SiteName()
  {
    SpellingOf("b");
    SpellingOf("c");
    CollideExactly(Rival().key, Pod("d", "x"), 1, Site().key, Pod("d", "x"), 1);
    hide Canonical, Spelling;
  }

  lemma SpellingOf(name: string)
    requires |name| == 1 && 'a' <= name[0] <= 'z'
    ensures |Spelling(Key("a", name), Pod("d", "x"))| == 7 && Spelling(Key("a", name), Pod("d", "x"))[2] == name[0]
  {
  }

  lemma RivalWorkable(m: Docker.Containers)
    requires Canonical(Rival().key, Pod("d", "x"), 1) !in m
    ensures Workable(m, Rival())
  {
    hide Canonical, SurgeName, Stale;
  }

  lemma RivalAccepted(w: World)
    requires OtherPorts(w.cluster.specs, Rival())
    ensures Accepted(Roomy(), w, Rival()) && WithGeneration(w.cluster.specs, Rival()) == Rival() && Plain(Rival())
  {
    hide Accepted, WithGeneration, Pods, DnsLabel, WellFormed, Plain, OtherPorts, Roomy;
    SitePods();
    WebAccepted(w, "c", 1, [Pod("d", "x")], 8080);
    OnePlain("c", 1, Pod("d", "x"), 8080);
  }

  lemma RivalFits(m: Docker.Containers)
    requires m.Keys == {SiteName()}
    ensures Workable(m, Rival())
  {
    hide Canonical, Workable;
    RivalName();
    RivalWorkable(m);
  }

  /** Next to the site's container, with the port free in memory, the rival is applied. */
  lemma RivalApplies(w: World)
    requires Inv(w) && w.cluster.containers.Keys == {SiteName()} && OtherPorts(w.cluster.specs, Rival())
    ensures var v := Next(Calm(), w, Rival());
            && Inv(v)
            && v.cluster.specs == w.cluster.specs["a/c" := Rival()]
            && v.store == w.store["a/c" := Rival()]
            && v.routed == w.routed["a/c" := Rival()]
  {
    assert Rival().key.Path() == "a/c";
    hide Inv, Accepted, Apply, WithGeneration, Success.Established, AtSpec, Recovery.Quiet, Roomy, Plain, Workable, Misplaced, UpToDate,
      Within, OtherPorts, Serving.Binds, Calm, SiteName, Rival, Exact, Next;
    RivalAccepted(w);
    RivalFits(w.cluster.containers);
    CalmIsQuiet();
    Success.QuietApplySucceeds(Calm(), Roomy(), w, Rival(), Quantities.None);
    AppliedNext(Calm(), w, Rival(), "a/c");
  }

  // ------------------------------------- a spec that is on disk but not in memory

  /** The removal of the site breaks off at its containers: memory forgets the site, and the
      disk does not. */
  ghost function Forgotten(): World {
    Remove(Unlisted(), Up(), Site().key).world
  }

  lemma UnlistedKeeps(w: World, key: Key)
    requires key.name != "" && key.Path() in w.cluster.specs
    ensures var v := Remove(Unlisted(), w, key).world;
            v.store == w.store && v.cluster.containers == w.cluster.containers
  {
    var o := Unlisted();
    var gone := Vanishing(o, w, key);
    Dating.VanishingContainers(o, w, key);
    assert gone.world.store == w.store && gone.rt.Some? by { hide Drop, WritePhase; }
    hide Vanishing, OwnedAll;
    assert !Purge(o, gone.world.cluster, OwnedAll(gone.world.cluster.containers, gone.rt.value.key)).ok;
  }

  lemma UnlistedRemoves(w: World, key: Key)
    requires Inv(w) && key.name != "" && key.Path() in w.cluster.specs
    ensures var v := Remove(Unlisted(), w, key).world;
            && v.store == w.store && v.cluster.containers == w.cluster.containers
            && v.cluster.specs == w.cluster.specs - {key.Path()}
  {
    hide Inv, Remove, Unlisted, Shows, Marked, Lookup;
    UnlistedKeeps(w, key);
    RemoveShows(Unlisted(), w, key);
  }

  lemma BrokenOffRemoval(w: World, key: Key, path: string)
    requires Inv(w) && key.name != "" && path == key.Path() && path in w.cluster.specs
    ensures var v := Remove(Unlisted(), w, key).world;
            && Inv(v) && v.store == w.store && v.cluster.containers == w.cluster.containers
            && v.cluster.specs == w.cluster.specs - {path} && v.routed == w.routed - {path}
  {
    hide Inv, Remove, Unlisted;
    UnlistedRemoves(w, key);
    InvRemove(Unlisted(), w, key);
    Serving.RemoveRouted(Unlisted(), w, key);
  }

  lemma NoneLeft(path: string, rt: Runtime)
    ensures map[path := rt] - {path} == map[]
  {
  }

  lemma SiteIsForgotten()
    ensures At(Forgotten(), map[], map["a/b" := Site()], map[])
  {
    assert Site().key.Path() == "a/b" && Site().key.name != "";
    hide Up, Inv, Remove, Unlisted, SiteName, AtSpec, Site;
    SiteIsUp();
    BrokenOffRemoval(Up(), Site().key, "a/b");
    NoneLeft("a/b", Site());
  }

  /** The rival comes to take the port, which is free in memory. */
  ghost function Stranded(): World {
    Next(Calm(), Forgotten(), Rival())
  }

  lemma SiteIsStranded()
    ensures var w := Stranded();
            && Inv(w) && w.cluster.specs == map["a/c" := Rival()] && w.store == map["a/b" := Site(), "a/c" := Rival()]
  {
    hide Forgotten, Inv, Canonical, Next;
    SiteIsForgotten();
    RivalApplies(Forgotten());
    assert map[]["a/c" := Rival()] == map["a/c" := Rival()];
    assert map["a/b" := Site()]["a/c" := Rival()] == map["a/b" := Site(), "a/c" := Rival()];
  }

  lemma SelfSafeOn(name: string, generation: int, port: int)
    requires DnsLabel(name) && port > 0
    ensures SelfSafe(Web(name, generation, [Pod("d", "x")], port))
  {
    SitePods();
    var rt := Web(name, generation, [Pod("d", "x")], port);
    WebWellFormed(name, generation, [Pod("d", "x")], port);
    assert Admission.Claims(rt) == [];
    hide WellFormed, Pods, SelfSafe, DnsLabel;
    WellFormedSelfSafe(rt);
  }

  lemma RivalIsSafe()
    ensures PortSafe(map["a/c" := Rival()])
  {
    hide SelfSafe, Pods, DnsLabel;
    SitePods();
    SelfSafeOn("c", 1, 8080);
  }

  lemma RivalClashes(specs: map<string, Runtime>)
    requires "a/b" in specs && "a/c" in specs && specs["a/b"] == Site() && specs["a/c"] == Rival()
    ensures !PortSafe(specs)
  {
    assert Site().services[0] == Front(8080) && Rival().services[0] == Front(8080);
    assert UsesServicePort(Site(), 8080) && UsesServicePort(Rival(), 8080);
    assert !Compatible(specs["a/b"], specs["a/c"]);
  }

  lemma MovedIsAccepted(w: World)
    requires OtherPorts(w.cluster.specs, Moved())
    ensures Accepted(Roomy(), w, Moved()) && WithGeneration(w.cluster.specs, Moved()) == Moved()
  {
    hide Accepted, WithGeneration, Pods, DnsLabel, WellFormed, Roomy, OtherPorts;
    SitePods();
    WebAccepted(w, "b", 2, [Pod("d", "x")], 8081);
  }

  lemma ApplyEndangers(cfg: Config, w: World, rt: Runtime)
    requires Inv(w) && PortSafe(w.cluster.specs) && Accepted(cfg, w, rt) && !Restorable(w, rt.key.Path(), Ports())
    ensures exists o: Oracle :: !Always(w.cluster, Apply(o, cfg, w, rt, Quantities.None).world.cluster, Ports())
  {
    hide *;
    ApplyPortsExactly(cfg, w, rt, Quantities.None);
  }

  lemma RemoveEndangers(w: World, key: Key)
    requires Inv(w) && PortSafe(w.cluster.specs) && key.name != "" && !Restorable(w, key.Path(), Ports())
    ensures exists o: Oracle :: !Always(w.cluster, Remove(o, w, key).world.cluster, Ports())
  {
    hide *;
    RemovePortsExactly(w, key);
  }

  /** An update, accepted in a state without clashes, that may bring one; and so may a removal. */
  ghost predicate Endangered(cfg: Config, w: World, rt: Runtime) {
    && Inv(w) && PortSafe(w.cluster.specs) && Accepted(cfg, w, rt) && !Restorable(w, rt.key.Path(), Ports())
    && (exists o: Oracle :: !Always(w.cluster, Apply(o, cfg, w, rt, Quantities.None).world.cluster, Ports()))
    && (exists o: Oracle :: !Always(w.cluster, Remove(o, w, rt.key).world.cluster, Ports()))
  }

  lemma Endanger(cfg: Config, w: World, rt: Runtime)
    requires Inv(w) && PortSafe(w.cluster.specs) && !Restorable(w, rt.key.Path(), Ports()) && rt.key.name != ""
    requires Accepted(cfg, w, rt)
    ensures Endangered(cfg, w, rt)
  {
    hide Inv, PortSafe, Accepted, Apply, Remove, Always, Restorable, Ports;
    ApplyEndangers(cfg, w, rt);
    RemoveEndangers(w, rt.key);
  }

  /** A state without clashes that a few steps reach, with an accepted update of the site: both
      the update and another removal may put the site back beside the rival. */
  lemma StrandedIsUnsafe()
    ensures Endangered(Roomy(), Stranded(), Moved())
  {
    hide Stranded, Inv, PortSafe, Accepted, WithGeneration, Roomy, Restorable, Endangered;
    assert Moved().key == Site().key && Moved().key.Path() == "a/b";
    SiteIsStranded();
    assert OtherPorts(Stranded().cluster.specs, Moved());
    MovedIsAccepted(Stranded());
    RivalIsSafe();
    SiteReturns(Stranded());
    Endanger(Roomy(), Stranded(), Moved());
  }

  lemma SiteReturns(w: World)
    requires w.cluster.specs == map["a/c" := Rival()] && w.store == map["a/b" := Site(), "a/c" := Rival()]
    ensures !Restorable(w, "a/b", Ports())
  {
    hide PortSafe;
    RivalClashes(w.cluster.specs["a/b" := w.store["a/b"]]);
  }

  // ------------------------------------------------------------- a wrapped sum

  /** As many replicas of one CPU as make the sum wrap to nothing. */
  function Legion(): Deployment {
    Pod("d", "x").(cpus := "1", replicas := 0x2000_0000_0000_0000)
  }

  function Swollen(): Runtime {
    Web("b", 1, [Legion()], 8080)
  }

  /** A node of one CPU. */
  function Snug(): Config {
    Roomy().(node := Node(Resources("", "", 0), Resources("1", "", 0)))
  }

  lemma OneRequest(d: Deployment)
    ensures DeploymentsRequest([d]) == Plus(NOTHING, DeploymentRequest(d))
  {
    hide DeploymentRequest;
    var ds := [d];
    assert ds[..0] == [];
  }

  lemma SnugAllocates()
    ensures Allocatable(Snug().node) == Request(1000, 0, 0)
  {
    NoQuantity();
    Runs.OneCpu();
    hide Quantities.CpuMilli, Quantities.MemoryBytes;
  }

  lemma SwollenAsks()
    ensures Wrapped(RuntimeRequest(Swollen())) == NOTHING
    ensures !Room(Allocatable(Snug().node), HeldBy(Swollen()))
  {
    hide Allocatable, DeploymentRequest, DeploymentsRequest, HeldBy, Held, HeldEach, RuntimeRequest;
    SnugAllocates();
    SwollenSum();
    RequestIsHeld(Swollen());
    Runs.OverflowFits(Snug().node, Legion());
  }

  lemma SwollenSum()
    ensures RuntimeRequest(Swollen()) == DeploymentRequest(Legion())
  {
    OneRequest(Legion());
    hide DeploymentRequest, DeploymentsRequest;
  }

  lemma LegionValid()
    ensures ValidDeployment(Legion())
  {
    Labels();
    OneIsLimit();
    hide DnsLabel, Quantities.CpuLimit, Text.Lower, Text.TrimSpace;
  }

  lemma OneIsLimit()
    ensures Quantities.CpuLimit(Text.Lower(Text.TrimSpace("1")))
  {
    assert Text.TrimSpace("1") == "1" && Text.Lower("1") == "1";
  }

  lemma SwollenWellFormed()
    ensures WellFormed(Swollen())
  {
    Labels();
    LegionValid();
    hide DnsLabel, ValidDeployment, WellFormed;
    assert Pods([Legion()]);
    WebWellFormed("b", 1, [Legion()], 8080);
  }

  /** Alone in memory, a request that wraps to nothing is admitted on any node. */
  lemma WrappedAdmitted(rt: Runtime, node: Node)
    requires Admission.Claims(rt) == [] && Wrapped(RuntimeRequest(rt)) == NOTHING
    ensures Admitted(map[], rt, node)
  {
    hide RuntimeRequest, Allocatable, Wrapped, Total;
    var others: Specs := map[];
    assert others - {rt.key.Path()} == others;
    assert Total(map[]) == NOTHING by { EmptyTotal(); }
    var r := RuntimeRequest(rt);
    assert Plus(NOTHING, r) == r;
  }

  lemma EmptyTotal()
    ensures Total(map[]) == NOTHING
  {
  }

  lemma AcceptedAlone(cfg: Config, w: World, rt: Runtime)
    requires w.cluster.specs == map[] && WellFormed(rt) && rt.generation > 0
    requires Admission.Claims(rt) == [] && Wrapped(RuntimeRequest(rt)) == NOTHING
    ensures Accepted(cfg, w, rt) && WithGeneration(w.cluster.specs, rt) == rt
  {
    hide WellFormed, Admitted, Wrapped, RuntimeRequest;
    WrappedAdmitted(rt, cfg.node);
  }

  lemma SwollenAccepted(w: World)
    requires w.cluster.specs == map[]
    ensures Accepted(Snug(), w, Swollen()) && WithGeneration(w.cluster.specs, Swollen()) == Swollen()
  {
    hide WellFormed, RuntimeRequest, Allocatable, Wrapped, Swollen, Snug, Accepted, WithGeneration;
    SwollenWellFormed();
    SwollenAsks();
    Swell();
    AcceptedAlone(Snug(), w, Swollen());
  }

  lemma Swell()
    ensures Swollen().generation == 1 && Swollen().key.Path() == "a/b" && Admission.Claims(Swollen()) == []
  {
  }

  /** The first update of a started node: it is accepted, and the exact sum in memory is then
      beyond the node. */
  lemma SumsWrap()
    ensures var w := Booted(map[], map[]);
            var v := Apply(NetworkBlind(), Snug(), w, Swollen(), Quantities.None).world;
            && Inv(w) && Fitted(w.cluster.specs, Snug().node) && Accepted(Snug(), w, Swollen())
            && v.cluster.specs == map["a/b" := Swollen()]
            && !Room(Allocatable(Snug().node), Demand(v.cluster.specs))
  {
    var w := Booted(map[], map[]);
    hide Inv, Accepted, Apply, WithGeneration, NetworkBlind, Shows, Allocatable, HeldBy, Snug, Swollen;
    NothingStored();
    BootedInvariant(map[], map[]);
    SwollenAccepted(w);
    NetworkBlindFails(Snug(), w, Swollen(), Quantities.None);
    var _ := ApplyShows(NetworkBlind(), Snug(), w, Swollen(), Quantities.None);
    Swell();
    SwollenTotal();
    EmptyDemand();
    SnugAllocates();
  }

  lemma SwollenTotal()
    ensures !Room(Allocatable(Snug().node), Demand(map["a/b" := Swollen()]))
  {
    SwollenAsks();
    hide Allocatable, HeldBy, Snug, Swollen;
    DemandOf(map["a/b" := Swollen()], "a/b");
    assert map["a/b" := Swollen()] - {"a/b"} == map[];
    EmptyDemand();
  }

  lemma EmptyDemand()
    ensures Demand(map[]) == NOTHING
  {
  }

  // ------------------------------------------------------------- parted routes

  /** The site is moved while the engine has no network: memory has its new port, the table
      still its old one. */
  ghost function Parted(): World {
    Next(NetworkBlind(), Up(), Moved())
  }

  lemma OverwriteOne(path: string, a: Runtime, b: Runtime)
    ensures map[path := a][path := b] == map[path := b]
  {
  }

  /** An update without a network reaches memory only. */
  lemma Overtakes(w: World, rt: Runtime)
    requires Inv(w) && Accepted(Roomy(), w, rt) && WithGeneration(w.cluster.specs, rt) == rt
    ensures var v := Next(NetworkBlind(), w, rt);
            && Inv(v) && v.cluster.containers == w.cluster.containers
            && v.cluster.specs == w.cluster.specs[rt.key.Path() := rt] && v.routed == w.routed
  {
    var o := NetworkBlind();
    hide Inv, Apply, Accepted, WithGeneration, NetworkBlind, Roomy, Shows, Serving.Published;
    NetworkBlindFails(Roomy(), w, rt, Quantities.None);
    var _ := ApplyShows(o, Roomy(), w, rt, Quantities.None);
    Serving.ApplyTable(o, Roomy(), w, rt, Quantities.None);
    InvApply(o, Roomy(), w, rt, Quantities.None);
  }

  lemma OutOfStep(w: World)
    requires "a/b" in w.routed && w.routed["a/b"] == Site() && "a/b" in w.cluster.specs && w.cluster.specs["a/b"] == Moved()
    ensures !Serving.InStep(w)
  {
    assert Site().generation != Moved().generation;
  }

  lemma SiteIsMoved(w: World)
    requires Inv(w) && w.cluster.specs == map["a/b" := Site()]
    ensures var v := Next(NetworkBlind(), w, Moved());
            && Inv(v) && v.cluster.containers == w.cluster.containers
            && v.cluster.specs == map["a/b" := Moved()] && v.routed == w.routed
  {
    hide Inv, Next, Accepted, WithGeneration, Roomy;
    assert Moved().key.Path() == "a/b";
    assert OtherPorts(w.cluster.specs, Moved());
    hide OtherPorts;
    MovedIsAccepted(w);
    Overtakes(w, Moved());
    OverwriteOne("a/b", Site(), Moved());
  }

  lemma RoutesArePart()
    ensures var w := Parted();
            && Inv(w) && w.cluster.containers.Keys == {SiteName()}
            && w.cluster.specs == map["a/b" := Moved()] && w.routed == map["a/b" := Site()]
            && !Serving.InStep(w)
  {
    hide Up, Inv, Next, AtSpec, SiteName, Site, Moved, Serving.InStep;
    SiteIsUp();
    SiteIsMoved(Up());
    OutOfStep(Parted());
  }

  /** Then the rival comes: its port is free in memory and taken in the table. */
  ghost function Crossed(): World {
    Next(Calm(), Parted(), Rival())
  }

  /** So a run without a failed bind, from a started node, ends with two runtimes routed on one
      port, although no two specs in memory claim the same one. */
  lemma RoutesAreCrossed()
    ensures Inv(Crossed()) && PortSafe(Crossed().cluster.specs) && !PortSafe(Crossed().routed)
  {
    hide Parted, Inv, Next, Serving.InStep, PortSafe;
    RoutesArePart();
    assert OtherPorts(Parted().cluster.specs, Rival());
    RivalApplies(Parted());
    RivalClashes(Crossed().routed);
    BothAreSafe(Crossed().cluster.specs);
  }

  lemma BothAreSafe(specs: map<string, Runtime>)
    requires specs == map["a/b" := Moved()]["a/c" := Rival()]
    ensures PortSafe(specs)
  {
    hide SelfSafe, ClashFree, Compatible, Pods, DnsLabel;
    SitePods();
    SelfSafeOn("b", 2, 8081);
    SelfSafeOn("c", 1, 8080);
    CompatibleOn(Moved(), Rival(), 8081, 8080);
    CompatibleOn(Rival(), Moved(), 8080, 8081);
  }

  lemma CompatibleOn(a: Runtime, b: Runtime, p: int, q: int)
    requires a.services == [Front(p)] && b.services == [Front(q)] && a.ingress == [] && b.ingress == [] && p != q
    ensures Compatible(a, b)
  {
    hide Conflicts;
    assert Admission.Claims(a) == [] && Admission.Claims(b) == [];
  }

  // -------------------------------------------------------- a dropped deployment

  /** The site with a second deployment. */
  function Wide(): Runtime {
    Web("b", 1, [Pod("d", "x"), Pod("e", "x")], 8080)
  }

  /** The same document without it. */
  function Narrow(): Runtime {
    Web("b", 2, [Pod("d", "x")], 8080)
  }

  function DroppedName(): string {
    Canonical(Wide().key, Pod("e", "x"), 1)
  }

  ghost function Widened(): World {
    Next(Calm(), Booted(map[], map[]), Wide())
  }

  lemma SpellingE()
    ensures Spelling(Key("a", "b"), Pod("e", "x"))[4] == 'e' && Spelling(Key("a", "b"), Pod("d", "x"))[4] == 'd'
    ensures |Spelling(Key("a", "b"), Pod("e", "x"))| == 7 == |Spelling(Key("a", "b"), Pod("d", "x"))|
  {
  }

  lemma DroppedApart()
    ensures DroppedName() != SiteName()
  {
    SpellingE();
    CollideExactly(Wide().key, Pod("e", "x"), 1, Site().key, Pod("d", "x"), 1);
    hide Canonical, Spelling;
  }

  lemma OneCanonical(key: Key, d: Deployment)
    requires d.replicas == 1
    ensures CanonicalNames(key, d) == {Canonical(key, d, 1)}
  {
    hide Canonical;
  }

  lemma WidePlain()
    ensures Plain(Wide())
  {
    DroppedApart();
    OneCanonical(Wide().key, Pod("d", "x"));
    OneCanonical(Wide().key, Pod("e", "x"));
    hide Canonical, CanonicalNames;
  }

  lemma WidePods()
    ensures Pods([Pod("d", "x"), Pod("e", "x")])
  {
    Labels();
    hide DnsLabel, ValidDeployment;
    PodValid(Pod("d", "x"));
    PodValid(Pod("e", "x"));
  }

  lemma WideApplies()
    ensures var w := Booted(map[], map[]);
            && Inv(w) && WithGeneration(w.cluster.specs, Wide()) == Wide()
            && Apply(Calm(), Roomy(), w, Wide(), Quantities.None).ending == Applied
            && UpToDate(Widened().cluster.containers, Wide())
            && OwnedAll(Widened().cluster.containers, Wide().key) >= NamesOfAll(Wide())
  {
    var w := Booted(map[], map[]);
    assert OtherPorts(w.cluster.specs, Wide());
    hide Inv, Accepted, Apply, WithGeneration, Success.Established, AtSpec, UpToDate, Recovery.Quiet, NamesOf, OwnedAll, Roomy, Sound,
      Plain, Workable, Misplaced, Pods, DnsLabel, OtherPorts, Serving.Binds, WellFormed, Calm;
    CalmIsQuiet();
    NothingStored();
    BootedInvariant(map[], map[]);
    WidePods();
    SitePods();
    WebAccepted(w, "b", 1, [Pod("d", "x"), Pod("e", "x")], 8080);
    WidePlain();
    EmptyTidy(Wide());
    Success.QuietApplySucceeds(Calm(), Roomy(), w, Wide(), Quantities.None);
  }

  /** On what the wide runtime leaves, the narrow one can be brought up, and the dropped
      deployment's container is misplaced. */
  lemma NarrowWorkable(m: Docker.Containers)
    requires UpToDate(m, Wide()) && OwnedAll(m, Wide().key) >= NamesOfAll(Wide())
    ensures Workable(m, Narrow()) && DroppedName() in Misplaced(m, Narrow())
  {
    var d, e := Wide().deployments[0], Wide().deployments[1];
    assert Fresh(m, Wide(), d, d.replicas) && Labelled(m, Wide().key, d);
    assert Fresh(m, Wide(), e, e.replicas) && Labelled(m, Wide().key, e);
    hide Canonical, SurgeName, Stale, NamesOf;
    assert Fitting(m[DroppedName()], Wide().key, e, 1);
  }

  lemma WideIsUp()
    ensures Inv(Widened()) && Widened().cluster.specs == map["a/b" := Wide()]
    ensures UpToDate(Widened().cluster.containers, Wide())
    ensures OwnedAll(Widened().cluster.containers, Wide().key) >= NamesOfAll(Wide())
  {
    assert Wide().key.Path() == "a/b";
    hide Inv, Apply, WithGeneration, UpToDate, NamesOf, OwnedAll, Roomy, Calm, Within, Wide;
    WideApplies();
    AppliedNext(Calm(), Booted(map[], map[]), Wide(), "a/b");
  }

  lemma NarrowAccepted(w: World)
    requires w.cluster.specs == map["a/b" := Wide()]
    ensures Accepted(Roomy(), w, Narrow()) && WithGeneration(w.cluster.specs, Narrow()) == Narrow() && Plain(Narrow())
  {
    assert Narrow().key.Path() == "a/b";
    assert OtherPorts(w.cluster.specs, Narrow());
    hide Accepted, WithGeneration, Pods, DnsLabel, WellFormed, Plain, OtherPorts, Roomy;
    SitePods();
    WebAccepted(w, "b", 2, [Pod("d", "x")], 8080);
    OnePlain("b", 2, Pod("d", "x"), 8080);
  }

  /** A runtime of two deployments is applied, and then, with nothing failing, updated to one:
      the update succeeds, and the other deployment's container is still there. */
  lemma DroppedStays()
    ensures var r := Apply(Calm(), Roomy(), Widened(), Narrow(), Quantities.None);
            && r.ending == Applied && DroppedName() in OwnedAll(r.world.cluster.containers, Narrow().key)
            && !AtSpec(r.world.cluster.containers, Narrow())
  {
    var w := Widened();
    assert Wide().key == Narrow().key;
    hide Widened, Inv, Accepted, Apply, WithGeneration, Success.Established, AtSpec, UpToDate, Recovery.Quiet, NamesOf, OwnedAll, Roomy,
      Plain, Workable, Misplaced, Serving.Binds, Calm, DroppedName, Wide, Narrow;
    WideIsUp();
    NarrowAccepted(w);
    NarrowWorkable(w.cluster.containers);
    CalmIsQuiet();
    Success.QuietApplySucceeds(Calm(), Roomy(), w, Narrow(), Quantities.None);
  }

  // --------------------------------------------------- a stray no pass removes

  /** The site with a new digest. */
  function Changed(): Runtime {
    Web("b", 2, [Pod("d", "y")], 8080)
  }

  /** An engine on which only renames fail. */
  ghost function NameBlind(): Oracle {
    Oracle((op, t) => if op == CallRename then Refused else Works, (t, s) => SomeOrder(s), t => 0, t => true, t => Disk.Done)
  }

  /** The new digest reaches memory only, and the next resync breaks off at the rename. */
  ghost function Strayed(): World {
    Resync(NameBlind(), Roomy(), Next(NetworkBlind(), Up(), Changed())).world
  }

  function StrayName(): string {
    SurgeName(Changed().key, Pod("d", "y"), 1, 2)
  }

  lemma ChangedAccepted(w: World)
    requires w.cluster.specs == map["a/b" := Site()]
    ensures Accepted(Roomy(), w, Changed()) && WithGeneration(w.cluster.specs, Changed()) == Changed()
  {
    assert Changed().key.Path() == "a/b";
    assert OtherPorts(w.cluster.specs, Changed());
    Labels();
    hide Accepted, WithGeneration, DnsLabel, WellFormed, OtherPorts, Roomy, ValidDeployment;
    PodValid(Pod("d", "y"));
    assert Pods([Pod("d", "y")]);
    WebAccepted(w, "b", 2, [Pod("d", "y")], 8080);
  }

  lemma SiteIsChanged(w: World)
    requires Inv(w) && w.cluster.specs == map["a/b" := Site()]
    ensures var v := Next(NetworkBlind(), w, Changed());
            v.cluster.containers == w.cluster.containers && v.cluster.specs == map["a/b" := Changed()]
  {
    hide Inv, Next, Accepted, WithGeneration, Roomy;
    assert Changed().key.Path() == "a/b";
    ChangedAccepted(w);
    Overtakes(w, Changed());
    OverwriteOne("a/b", Site(), Changed());
  }

  /** What the site's container shows to the new digest, and the free surge name. */
  lemma SiteIsStale(m: Docker.Containers)
    requires AtSpec(m, Site()) && m.Keys == {SiteName()}
    ensures SiteName() == Canonical(Changed().key, Pod("d", "y"), 1) && Stale(m[SiteName()], "y") && StrayName() !in m
  {
    var d := Site().deployments[0];
    assert Fresh(m, Site(), d, d.replicas);
    assert Canonical(Changed().key, Pod("d", "y"), 1) == SiteName() by { hide Sanitized; }
    hide Canonical, SurgeName;
    SurgeNotCanonical(Changed().key, Pod("d", "y"), 1, 2, 1);
  }

  lemma OneInMemory(specs: map<string, Runtime>, path: string, rt: Runtime)
    requires specs == map[path := rt]
    ensures InMemory(specs) == [rt]
  {
    var keys := InOrder(specs.Keys);
    assert path in keys && forall k :: k in keys ==> k == path;
    var last := |keys| - 1;
    assert keys[0] in keys && keys[last] in keys;
    assert last == 0;
  }

  lemma LoneReplica(o: Oracle, cfg: Restarts.SelfHeal, c: Cluster, rt: Runtime, d: Deployment)
    requires rt.deployments == [d] && d.replicas == 1 && !Rollout.EnsureReplica(o, cfg, c, rt, d, 1).ok
    ensures Rollout.Reconcile(o, cfg, c, rt) == Rollout.EnsureReplica(o, cfg, c, rt, d, 1)
  {
    hide Rollout.EnsureReplica, Rollout.RemoveExtra;
    var ds := [d];
    assert ds[..0] == [] && ds[|ds| - 1] == d;
    assert Rollout.EnsureAll(o, cfg, c, rt, ds[..0]) == Outcome(c, true);
    assert Rollout.EnsureReplicas(o, cfg, c, rt, d, 0) == Outcome(c, true);
    assert Rollout.EnsureReplicas(o, cfg, c, rt, d, 1) == Rollout.EnsureReplica(o, cfg, c, rt, d, 1);
  }

  lemma FailedTurn(o: Oracle, cfg: Config, w: World, rt: Runtime)
    requires InMemory(w.cluster.specs) == [rt] && !Rollout.Reconcile(o, cfg.selfHeal, w.cluster, rt).ok
    ensures Resync(o, cfg, w).world.cluster.containers == Rollout.Reconcile(o, cfg.selfHeal, w.cluster, rt).cluster.containers
  {
    hide Rollout.Reconcile, NewStatus, InMemory;
    var rts := [rt];
    assert rts[..0] == [] && rts[|rts| - 1] == rt;
    assert ResyncEach(o, cfg, w, rts[..0]) == Saved(w, true);
    assert ResyncEach(o, cfg, w, rts) == ResyncOne(o, cfg, w, rt);
  }

  lemma ChangedStrays(w: World)
    requires AtSpec(w.cluster.containers, Site()) && w.cluster.containers.Keys == {SiteName()}
    requires w.cluster.specs == map["a/b" := Changed()]
    ensures Resync(NameBlind(), Roomy(), w).world.cluster.containers == map[StrayName() := Made(Changed(), Pod("d", "y"), 1, READY)]
    ensures Stray(map[StrayName() := Made(Changed(), Pod("d", "y"), 1, READY)], Changed(), Pod("d", "y"), StrayName())
  {
    var o, d, c := NameBlind(), Pod("d", "y"), w.cluster;
    hide Canonical, SurgeName, AtSpec, Rollout.EnsureReplica, Rollout.Reconcile, Resync, InMemory, Stray, Stale, NameBlind;
    SiteIsStale(c.containers);
    assert RenamesFail(o) by { NameBlindFails(); }
    BrokenRename(o, Roomy().selfHeal, c, Changed(), d, 1);
    LoneReplica(o, Roomy().selfHeal, c, Changed(), d);
    OneInMemory(w.cluster.specs, "a/b", Changed());
    FailedTurn(o, Roomy(), w, Changed());
    assert (c.containers - {SiteName()})[StrayName() := Made(Changed(), d, 1, READY)] == map[StrayName() := Made(Changed(), d, 1, READY)];
  }

  lemma NameBlindFails()
    ensures RenamesFail(NameBlind())
  {
  }

  /** A few steps from a started node lead to a container under a surge name that no later pass
      will rename or remove, however well it goes. */
  lemma StrayStays()
    ensures var c, d := Strayed().cluster, Pod("d", "y");
            && Stray(c.containers, Changed(), d, StrayName())
            && forall o: Oracle, cfg | FaultFree(o) ::
                 Rollout.OwnedNames(Rollout.Ensure(o, cfg, c, Changed(), d).cluster.containers, Changed().key, d.name)
                 != CanonicalNames(Changed().key, d)
  {
    var c, d := Strayed().cluster, Pod("d", "y");
    StrayIsThere();
    StrayIsClear(c.containers);
    hide Strayed, FaultFree, Rollout.Ensure, Rollout.OwnedNames, CanonicalNames, Stray, Labelled, Clear, StrayName;
    forall o: Oracle, cfg | FaultFree(o)
      ensures Rollout.OwnedNames(Rollout.Ensure(o, cfg, c, Changed(), d).cluster.containers, Changed().key, d.name)
              != CanonicalNames(Changed().key, d)
    {
      ExactlyCanonical(o, cfg, c, Changed(), d);
    }
  }

  lemma StrayIsThere()
    ensures Strayed().cluster.containers == map[StrayName() := Made(Changed(), Pod("d", "y"), 1, READY)]
    ensures Stray(Strayed().cluster.containers, Changed(), Pod("d", "y"), StrayName())
  {
    hide Up, Next, Resync, Inv, AtSpec, Stray, StrayName, Changed, Site, SiteName;
    SiteIsUp();
    SiteIsChanged(Up());
    ChangedStrays(Next(NetworkBlind(), Up(), Changed()));
  }

  lemma StrayIsClear(m: Docker.Containers)
    requires m.Keys == {StrayName()}
    ensures Labelled(m, Changed().key, Pod("d", "y")) && Clear(m, Changed(), Pod("d", "y"), 1)
  {
    hide Canonical, SurgeName, Stale;
    SurgeNotCanonical(Changed().key, Pod("d", "y"), 1, 2, 1);
  }

  // ------------------------------------------------------------ a lost replica

  /** The site's container of an older revision, ready, beside that of its own revision, which
      is not running; and no self-heal. */
  function Halfway(): Cluster {
    var mine := Made(Site(), Pod("d", "x"), 1, State(false, NoCheck));
    Cluster(map[], map[], map[], map["old" := mine.(revision := "q", state := READY), SiteName() := mine], 0, 0, [])
  }

  /** The replica is up, and a rollout may take it down. */
  lemma ReplicaIsLost()
    ensures var heal, c, rt, d := Restarts.SelfHeal(false, 3, 10), Halfway(), Site(), Pod("d", "x");
            && Availability.Has(c.containers, Availability.Up(rt.key, d, 1))
            && exists o: Oracle ::
                 !Availability.Through(c, Rollout.Ensure(o, heal, c, rt, d).cluster, Availability.Up(rt.key, d, 1))
  {
    var heal, c, rt, d := Restarts.SelfHeal(false, 3, 10), Halfway(), Site(), Pod("d", "x");
    HalfwayIsUp();
    HalfwayUnguarded();
    hide Availability.Has, Availability.Up, Availability.Kept, Availability.Through, Availability.Guarded, Labelled, Rollout.Ensure, Halfway;
    assert Rollout.Surges(d);
    Availability.AvailabilityExact(heal, c, rt, d, 1);
  }

  lemma OldIsOther()
    ensures SiteName() != "old"
  {
    CanonicalShape(Site().key, Pod("d", "x"), 1);
    hide Canonical;
  }

  lemma HalfwayIsUp()
    ensures var c, rt, d := Halfway(), Site(), Pod("d", "x");
            && Labelled(c.containers, rt.key, d)
            && Availability.Has(c.containers, Availability.Up(rt.key, d, 1))
  {
    var c := Halfway();
    OldIsOther();
    hide Canonical;
    assert "old" in c.containers;
    assert Availability.Up(Site().key, Pod("d", "x"), 1)(c.containers["old"]);
  }

  lemma HalfwayUnguarded()
    ensures var heal, c, rt, d := Restarts.SelfHeal(false, 3, 10), Halfway(), Site(), Pod("d", "x");
            && !Availability.Has(c.containers, Availability.Kept(rt.key, d, 1))
            && !Availability.Guarded(heal, c, Canonical(rt.key, d, 1))
  {
    OldIsOther();
    hide Canonical;
  }

  // ------------------------------------------------------ a twin and a listener

  /** A healthy container of the runtime of the same name in another namespace is a twin: the
      endpoints of either runtime may then be containers of the other. */
  lemma NamesakeLeaks(key: Key, rt: Runtime, d: Deployment, c: Cluster, port: int)
    requires key.name == rt.key.name && key.namespace != rt.key.namespace && c.containers == Alone(rt, d)
    ensures exists o: Oracle ::
              FaultFree(o) && !Endpoints.OwnOnly(Endpoints.DiscoverDeployment(o, c, key, d.name, port), c.containers, key)
  {
    var name := Canonical(rt.key, d, 1);
    hide Canonical;
    assert Endpoints.Twin(c.containers, key, d.name, name);
    assert Endpoints.Pods(c.containers, key, d.name) == {};
    CalmIsQuiet();
    hide Endpoints.Twin, Endpoints.Pods, Endpoints.OwnOnly, Endpoints.DiscoverDeployment, Alone, Calm;
    Endpoints.LeakExactly(c, key, d.name, port);
    assert FaultFree(Calm());
  }

  /** The first Apply on a started node may leave the proxy with routes that no one listens to. */
  lemma SiteUnheard()
    ensures exists o: Oracle ::
              !ListenersMatch(Apply(o, Roomy(), Booted(map[], map[]), Site(), Quantities.None).world.table)
  {
    var w := Booted(map[], map[]);
    SiteAccepted(w);
    NothingStored();
    hide WithGeneration, Accepted, Apply, Inv, WellFormed;
    assert ListenersMatch(w.table) by { hide Sound; InitialInvariant(w); }
    SiteClaims();
    hide ListenersMatch, Serving.Heard, ClaimsPort;
    Serving.ApplyListenersExactly(Roomy(), w, Site(), Quantities.None);
  }

  lemma SiteClaims()
    ensures ClaimsPort(Site(), 8080) && !Serving.Heard(Booted(map[], map[]).table, Site())
  {
    var claim := Claimed(Site())[0];
    assert Site().services[0] == Front(8080);
    assert claim in Claimed(Site()) && claim.port == 8080;
    assert ClaimsPort(Site(), 8080);
    assert 8080 !in Booted(map[], map[]).table.servers;
  }

  // ------------------------------------------------------ a switched replica

  /** The site up and ready. */
  ghost function Settled(): World {
    Step(Calm(), Roomy(), Up(), Event.Elsewhere(Alone(Site(), Pod("d", "x")), 0))
  }

  /** One look at the list is refused. */
  ghost function Slip(t: nat): (o: Oracle)
    ensures Slips(o, t) && Rollbacks.Purging(o, t)
  {
    Oracle((op, u) => if op == List && u == t then Refused else Works, (u, s) => SomeOrder(s), u => 0, u => true, u => Disk.Done)
  }

  /** Nothing fails but looks at the list, and the one at t does. */
  ghost predicate Slips(o: Oracle, t: nat) {
    && (forall op, u :: op != List ==> o.fault(op, u) == Works) && o.fault(List, t) == Refused
    && forall u :: o.disk(u) == Disk.Done
  }

  lemma SurgeTurn(o: Oracle, t: nat, c: Cluster, rt: Runtime, d: Deployment, name: string)
    requires Slips(o, t) && name in c.containers && SurgeName(rt.key, d, 1, rt.generation) !in c.containers
    requires SurgeName(rt.key, d, 1, rt.generation) != name
    ensures var out := Rollout.ReplaceWithSurge(o, c, rt, d, 1, name);
            && out.ok && out.cluster.containers == c.containers[name := Made(rt, d, 1, READY)]
            && out.cluster.tick == c.tick + 3
  {
    hide SurgeName, NewStatus;
    var surge := SurgeName(rt.key, d, 1, rt.generation);
    var run := RunContainer(o, c, rt, d, 1, surge);
    assert run.ok && run.cluster.containers == c.containers[surge := Made(rt, d, 1, READY)] && run.cluster.tick == c.tick + 1;
    hide RunContainer;
    var m := c.containers[surge := Made(rt, d, 1, READY)] - {name};
    assert (m - {surge})[name := m[surge]] == c.containers[name := Made(rt, d, 1, READY)];
  }

  /** The replica is switched over within five calls. */
  lemma SwitchedTurn(o: Oracle, t: nat, cfg: Restarts.SelfHeal, c: Cluster, rt: Runtime, d: Deployment)
    requires Slips(o, t) && Rollout.Surges(d)
    requires var name := Canonical(rt.key, d, 1);
             name in c.containers && c.containers[name].hash != "" && c.containers[name].hash != d.specHash
             && SurgeName(rt.key, d, 1, rt.generation) !in c.containers
    ensures var out := Rollout.EnsureReplica(o, cfg, c, rt, d, 1);
            && out.ok && out.cluster.containers == c.containers[Canonical(rt.key, d, 1) := Made(rt, d, 1, READY)]
            && out.cluster.tick == c.tick + 5
  {
    var name := Canonical(rt.key, d, 1);
    SurgeNotCanonical(rt.key, d, 1, rt.generation, 1);
    hide Canonical, SurgeName, Rollout.ReplaceWithSurge, Rollout.Settle, RunContainer;
    var there := Exists(o, c, name).cluster;
    var drifted := Drifted(o, there, name, d.specHash);
    assert drifted.yes && drifted.cluster.containers == c.containers && drifted.cluster.tick == c.tick + 2;
    SurgeTurn(o, t, drifted.cluster, rt, d, name);
  }

  lemma SlippedRollout(o: Oracle, cfg: Restarts.SelfHeal, c: Cluster, rt: Runtime, d: Deployment)
    requires rt.deployments == [d] && d.replicas == 1 && Slips(o, c.tick + 5)
    requires var out := Rollout.EnsureReplica(o, cfg, c, rt, d, 1); out.ok && out.cluster.tick == c.tick + 5
    ensures var out := Rollout.Reconcile(o, cfg, c, rt);
            && !out.ok && out.cluster.tick == c.tick + 6
            && out.cluster.containers == Rollout.EnsureReplica(o, cfg, c, rt, d, 1).cluster.containers
  {
    hide Rollout.EnsureReplica;
    var ds := [d];
    assert ds[..0] == [] && ds[|ds| - 1] == d;
    assert Rollout.EnsureAll(o, cfg, c, rt, ds[..0]) == Outcome(c, true);
    assert Rollout.EnsureReplicas(o, cfg, c, rt, d, 0) == Outcome(c, true);
    var turn := Rollout.EnsureReplica(o, cfg, c, rt, d, 1);
    assert Rollout.EnsureReplicas(o, cfg, c, rt, d, 1) == turn;
    var listed := ListNames(o, turn.cluster, Rollout.OwnedNames(turn.cluster.containers, rt.key, d.name));
    assert listed.value.None?;
    assert Rollout.Ensure(o, cfg, c, rt, d) == Outcome(listed.cluster, false);
  }

  lemma SlippedNetwork(o: Oracle, t: nat, w: World, rt: Runtime)
    requires Slips(o, t)
    ensures var phase := if rt.key.Path() in w.cluster.specs then Updating else Pending;
            EnsureNetwork(o, WritePhase(w.cluster, rt, phase)).ok && Rollbacks.Begun(o, w, rt).tick == w.cluster.tick + 1
  {
    hide NewStatus;
  }

  lemma SlippedCarry(o: Oracle, cfg: Config, w: World, rt: Runtime, prior: Prior)
    requires var c := Rollbacks.Begun(o, w, rt);
             var out := Rollout.Reconcile(o, cfg.selfHeal, c, rt);
             !out.ok && out.cluster.tick > w.cluster.tick + 6
    requires Slips(o, w.cluster.tick + 6) && prior.Prior?
    ensures var c := Rollbacks.Begun(o, w, rt);
            var v := w.(cluster := Rollout.Reconcile(o, cfg.selfHeal, c, rt).cluster);
            Carry(o, cfg, w, rt, prior) == Rollback(o, v, rt, prior)
  {
    SlippedNetwork(o, w.cluster.tick + 6, w, rt);
    hide WritePhase, EnsureNetwork, Rollout.Reconcile, Discovering, RecordFailed, Rollback;
  }

  lemma SiteIsSettled()
    ensures var w := Settled();
            && Inv(w) && w.cluster.specs == map["a/b" := Site()] && w.cluster.containers == Alone(Site(), Pod("d", "x"))
  {
    hide Up, Inv, AtSpec, Site, Alone, SiteName, Calm, Roomy;
    SiteIsUp();
    InvStep(Calm(), Roomy(), Up(), Event.Elsewhere(Alone(Site(), Pod("d", "x")), 0));
  }

  lemma ChangedFacts()
    ensures var rt, d := Changed(), Pod("d", "y");
            && rt.deployments == [d] && d.replicas == 1 && d.specHash == "y" && Rollout.Surges(d) && rt.generation == 2
            && rt.key == Site().key && rt.key.Path() == "a/b"
  {
  }

  function Switched(): string {
    Canonical(Changed().key, Pod("d", "y"), 1)
  }

  lemma ChangedSlips(o: Oracle, c: Cluster)
    requires Slips(o, c.tick + 5) && c.containers == Alone(Site(), Pod("d", "x"))
    ensures var out := Rollout.Reconcile(o, Roomy().selfHeal, c, Changed());
            && !out.ok && out.cluster.tick == c.tick + 6 && Switched() in out.cluster.containers
            && forall n :: n in out.cluster.containers ==> n in OfGeneration(out.cluster.containers, Changed().key, 2)
  {
    var d := Pod("d", "y");
    hide Canonical, SurgeName, Rollout.EnsureReplica, Rollout.Reconcile, Alone, Made, Changed, Site, Slips, Owned, Roomy, Rollout.Surges, Pod;
    AloneIsStale();
    ChangedFacts();
    SwitchedTurn(o, c.tick + 5, Roomy().selfHeal, c, Changed(), d);
    SlippedRollout(o, Roomy().selfHeal, c, Changed(), d);
    SwitchedOnly(Rollout.Reconcile(o, Roomy().selfHeal, c, Changed()).cluster.containers);
  }

  lemma ChangedSwitches(o: Oracle, w: World, prior: Prior)
    requires Slips(o, w.cluster.tick + 6) && prior.Prior? && w.cluster.containers == Alone(Site(), Pod("d", "x"))
    requires Rollbacks.Purging(o, w.cluster.tick + 6)
    ensures var r := Carry(o, Roomy(), w, Changed(), prior);
            r.ending == RolledBack && r.world.cluster.containers == map[]
  {
    var rt, c := Changed(), Rollbacks.Begun(o, w, Changed());
    hide Rollout.Reconcile, Carry, Rollback, Rollbacks.Begun, Alone, Changed, Site, Slips, OfGeneration, Roomy, SubMap, Pod,
      Rollbacks.Purging;
    Rollbacks.BegunEffect(o, w, rt);
    SlippedNetwork(o, w.cluster.tick + 6, w, rt);
    ChangedFacts();
    ChangedSlips(o, c);
    SlippedCarry(o, Roomy(), w, rt, prior);
    var v := w.(cluster := Rollout.Reconcile(o, Roomy().selfHeal, c, rt).cluster);
    Rollbacks.PurgingRollback(o, w.cluster.tick + 6, v, rt, prior);
    Rollbacks.RollbackEffect(o, v, rt, prior);
    NothingKept(Rollback(o, v, rt, prior).world.cluster.containers, v.cluster.containers);
  }

  lemma AloneIsStale()
    ensures var m, name := Alone(Site(), Pod("d", "x")), Canonical(Changed().key, Pod("d", "y"), 1);
            && m.Keys == {name} && m[name].hash == "x" && StrayName() !in m
  {
    assert Canonical(Changed().key, Pod("d", "y"), 1) == SiteName() by { hide Sanitized; }
    hide Canonical, SurgeName;
    SurgeNotCanonical(Changed().key, Pod("d", "y"), 1, 2, 1);
  }

  lemma SwitchedOnly(m: Docker.Containers)
    requires m == Alone(Site(), Pod("d", "x"))[Canonical(Changed().key, Pod("d", "y"), 1) := Made(Changed(), Pod("d", "y"), 1, READY)]
    ensures forall n :: n in m ==> n in OfGeneration(m, Changed().key, 2)
  {
    AloneIsStale();
    hide Canonical, Alone;
  }

  lemma NothingKept(m: Docker.Containers, c: Docker.Containers)
    requires SubMap(m, c) && forall n :: n in c ==> n in OfGeneration(c, Changed().key, 2)
    requires forall n :: n in OfGeneration(c, Changed().key, 2) ==> n !in m
    ensures m == map[]
  {
    hide OfGeneration;
    assert forall n :: n !in m;
  }

  lemma AloneIsUp()
    ensures Availability.Has(Alone(Site(), Pod("d", "x")), Availability.Up(Site().key, Pod("d", "x"), 1))
  {
    hide Canonical;
    assert SiteName() in Alone(Site(), Pod("d", "x"));
  }

  lemma SwitchedFrom(o: Oracle, w: World)
    requires Inv(w) && w.cluster.specs == map["a/b" := Site()] && w.cluster.containers == Alone(Site(), Pod("d", "x"))
    requires Slips(o, w.cluster.tick + 6) && Rollbacks.Purging(o, w.cluster.tick + 6)
    ensures var r := Apply(o, Roomy(), w, Changed(), Quantities.None);
            r.ending == RolledBack && r.world.cluster.specs == w.cluster.specs && r.world.cluster.containers == map[]
  {
    hide Inv, Accepted, Apply, Carry, WithGeneration, Changed, Site, Roomy, Alone, Slips, Shows, Pod, Rollbacks.Purging;
    ChangedFacts();
    ChangedAccepted(w);
    var v, given, prior := ApplyIsCarry(o, Roomy(), w, Changed(), Quantities.None);
    ChangedSwitches(o, w, prior);
    var b := ApplyShows(o, Roomy(), w, Changed(), Quantities.None);
  }

  /** An update that surges: its replica is switched over, then one look at the list is refused,
      and the rollback removes the only container. Memory is back where it was, and the site is
      down until the next resync. */
  lemma SwitchedIsLost()
    ensures var w := Settled();
            var r := Apply(Slip(w.cluster.tick + 6), Roomy(), w, Changed(), Quantities.None);
            && Availability.Has(w.cluster.containers, Availability.Up(Site().key, Pod("d", "x"), 1))
            && r.ending == RolledBack && r.world.cluster.specs == w.cluster.specs && r.world.cluster.containers == map[]
  {
    var w := Settled();
    hide Settled, Inv, Apply, Changed, Site, Roomy, Alone, Slips, Availability.Has, Availability.Up, Pod, Rollbacks.Purging;
    SiteIsSettled();
    AloneIsUp();
    SwitchedFrom(Slip(w.cluster.tick + 6), w);
  }

  // -------------------------------------------------------- a failed cleanup

  lemma UnlistedRollback(w: World, failed: Runtime, prior: Prior)
    requires prior.Prior? && failed.generation > 0
    ensures var r := Rollback(Unlisted(), w, failed, prior);
            r.ending == RollbackFailed && r.world.cluster.containers == w.cluster.containers
  {
    hide NewStatus, CachedEndpoints;
  }

  lemma ChangedStays(w: World, prior: Prior)
    requires prior.Prior? && w.cluster.containers == Alone(Site(), Pod("d", "x"))
    ensures var r := Carry(Unlisted(), Roomy(), w, Changed(), prior);
            && r.ending == RollbackFailed
            && OfGeneration(r.world.cluster.containers, Changed().key, 2) != {}
  {
    var o, rt, c := Unlisted(), Changed(), Rollbacks.Begun(Unlisted(), w, Changed());
    UnlistedSlips(w.cluster.tick + 6);
    hide Rollout.Reconcile, Carry, Rollback, Rollbacks.Begun, Changed, Site, Slips, Roomy, Pod, Unlisted, Alone, OfGeneration, Switched, NewStatus;
    Rollbacks.BegunEffect(o, w, rt);
    SlippedNetwork(o, w.cluster.tick + 6, w, rt);
    ChangedFacts();
    ChangedSlips(o, c);
    SlippedCarry(o, Roomy(), w, rt, prior);
    var v := w.(cluster := Rollout.Reconcile(o, Roomy().selfHeal, c, rt).cluster);
    UnlistedRollback(v, rt, prior);
    assert Switched() in OfGeneration(v.cluster.containers, rt.key, 2);
  }

  lemma UnlistedSlips(t: nat)
    ensures Slips(Unlisted(), t)
  {
  }

  lemma SettledIsDated(w: World)
    requires w.cluster.specs == map["a/b" := Site()] && w.cluster.containers == Alone(Site(), Pod("d", "x"))
    ensures Rollbacks.Dated(w)
  {
    hide Canonical;
  }

  /** The same update with no list at all: the rollback fails, memory is back where it was, and a
      container of the failed generation is left, which the next update is assigned again. */
  lemma FailedStays()
    ensures var w := Settled();
            var r := Apply(Unlisted(), Roomy(), w, Changed(), Quantities.None);
            && Rollbacks.Dated(w) && r.ending == RollbackFailed && r.world.cluster.specs == w.cluster.specs
            && OfGeneration(r.world.cluster.containers, Site().key, NextGeneration(w.cluster.specs, "a/b")) != {}
            && !Rollbacks.Dated(r.world)
  {
    var w := Settled();
    hide Settled, Inv, Apply, Changed, Roomy, Alone, Pod, Rollbacks.Dated, OfGeneration, Accepted, Carry, WithGeneration, Shows, Unlisted;
    SiteIsSettled();
    SettledIsDated(w);
    ChangedFacts();
    ChangedAccepted(w);
    var v, given, prior := ApplyIsCarry(Unlisted(), Roomy(), w, Changed(), Quantities.None);
    ChangedStays(w, prior);
    assert NextGeneration(w.cluster.specs, "a/b") == 2;
    assert w.cluster.specs["a/b"].generation == 1;
    Dating.WentBack(Unlisted(), Roomy(), w, Changed(), Quantities.None);
    Dating.WentBackDated(Unlisted(), Roomy(), w, Changed(), Quantities.None);
  }
}
