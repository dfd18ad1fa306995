/** Small runtimes, and one of them followed through an Apply that works and a restart that
    goes wrong. It meets every condition of the theorems it is used with. */
module Examples {
  import opened Text
  import opened Runtimes
  import opened Naming
  import opened RouteTable
  import opened Statuses
  import opened Docker
  import opened Controller
  import opened Invariants
  import opened Safety
  import opened Convergence
  import opened Reconciliation
  import opened Recovery
  import opened Rollbacks
  import opened Admission
  import Quantities
  import Restarts
  import Serving
  import Success

  /** A deployment of one replica that is replaced with surge. */
  function Pod(name: string, digest: string): Deployment {
    Deployment(name, "r", 1, RollingUpdate(0, 1), map["k" := "v"], [ContainerPort("", 80)], "", "", 0, digest)
  }

  function Front(port: int): Service {
    Service("s", map["k" := "v"], 80, port, Number(80))
  }

  /** A runtime of namespace "a" that claims one port. */
  function Web(name: string, generation: int, pods: seq<Deployment>, port: int): Runtime {
    Runtime(Key("a", name), generation, "net", pods, [Front(port)], [])
  }

  function Site(): Runtime {
    Web("b", 1, [Pod("d", "x")], 8080)
  }

  /** A node with no limits. */
  function Roomy(): Config {
    Config(Restarts.SelfHeal(true, 3, 10), Node(Resources("", "", 0), Resources("", "", 0)))
  }

  function Booted(store: map<string, Runtime>, containers: Docker.Containers): World {
    World(Cluster(map[], map[], map[], containers, 0, 0, []), Table(map[], map[], map[], 0), store, map[])
  }

  /** Nothing fails. */
  ghost function Calm(): Oracle {
    Oracle((op, t) => Works, (t, s) => SomeOrder(s), t => 0, t => true, t => Disk.Done)
  }

  lemma Labels()
    ensures DnsLabel("a") && DnsLabel("b") && DnsLabel("c") && DnsLabel("d") && DnsLabel("e") && DnsLabel("s")
  {
  }

  /** Valid deployments behind the front. */
  ghost predicate Pods(ds: seq<Deployment>) {
    ds != [] && DistinctDeployments(ds) && forall d :: d in ds ==> ValidDeployment(d) && d.selector == map["k" := "v"]
  }

  lemma PodMatches(d: Deployment, port: int)
    requires d.selector == map["k" := "v"]
    ensures LabelsMatch(d.selector, Front(port).selector)
  {
    hide TrimSpace;
    assert "k" in Front(port).selector;
    assert forall key :: key in Front(port).selector ==> key == "k";
  }

  lemma PodSelected(name: string, generation: int, pods: seq<Deployment>, port: int)
    requires Pods(pods)
    ensures Matching(Web(name, generation, pods, port), Front(port).selector) != []
  {
    hide LabelsMatch, Matching, ValidDeployment, DistinctDeployments;
    PodMatches(pods[0], port);
    MatchingExactly(Web(name, generation, pods, port), Front(port).selector, pods[0]);
  }

  lemma PodValid(d: Deployment)
    requires DnsLabel(d.name) && d == Pod(d.name, d.specHash)
    ensures ValidDeployment(d)
  {
    NoQuantity();
    hide DnsLabel, Quantities.CpuMilli, Quantities.MemoryBytes;
  }

  lemma WebWellFormed(name: string, generation: int, pods: seq<Deployment>, port: int)
    requires Pods(pods) && DnsLabel(name) && port > 0
    ensures WellFormed(Web(name, generation, pods, port))
  {
    Labels();
    PodSelected(name, generation, pods, port);
    hide DnsLabel, Matching, TargetPort, ValidDeployment, DistinctDeployments;
    assert "k" in Front(port).selector;
    assert ValidService(Web(name, generation, pods, port), Front(port));
    hide ValidService;
  }

  lemma NoQuantity()
    ensures Quantities.CpuMilli("") == Quantities.Some(0) && Quantities.MemoryBytes("") == Quantities.Some(0)
  {
  }

  lemma NoLimits()
    ensures Allocatable(Roomy().node) == NOTHING
  {
    NoQuantity();
    hide Quantities.CpuMilli, Quantities.MemoryBytes;
  }

  lemma PortsApart(a: Runtime, b: Runtime, p: int, q: int)
    requires a.services == [Front(p)] && b.services == [Front(q)] && a.ingress == [] && b.ingress == [] && p != q
    ensures ClashFree(a, b)
  {
    hide Conflicts;
    assert Admission.Claims(a) == [] && Admission.Claims(b) == [];
  }

  /** The others claim other ports. */
  ghost predicate OtherPorts(specs: map<string, Runtime>, rt: Runtime) {
    forall k :: k in specs && k != rt.key.Path() ==>
      specs[k].ingress == [] && exists q :: specs[k].services == [Front(q)] && [Front(q)] != rt.services
  }

  lemma WebAdmitted(specs: map<string, Runtime>, name: string, generation: int, pods: seq<Deployment>, port: int)
    requires OtherPorts(specs, Web(name, generation, pods, port))
    ensures Admitted(specs, Web(name, generation, pods, port), Roomy().node)
  {
    var rt := Web(name, generation, pods, port);
    NoLimits();
    hide RuntimeRequest, Allocatable, Total, Wrapped, Conflicts, ClashFree;
    assert Admission.Claims(rt) == [];
    var others := specs - {rt.key.Path()};
    forall k | k in others
      ensures ClashFree(rt, others[k])
    {
      var q :| specs[k].services == [Front(q)] && [Front(q)] != rt.services;
      PortsApart(rt, specs[k], port, q);
    }
  }

  lemma WebAccepted(w: World, name: string, generation: int, pods: seq<Deployment>, port: int)
    requires Pods(pods) && DnsLabel(name) && port > 0 && generation > 0
    requires OtherPorts(w.cluster.specs, Web(name, generation, pods, port))
    ensures var rt := Web(name, generation, pods, port);
            WellFormed(rt) && Accepted(Roomy(), w, rt) && WithGeneration(w.cluster.specs, rt) == rt
  {
    WebWellFormed(name, generation, pods, port);
    WebAdmitted(w.cluster.specs, name, generation, pods, port);
    hide WellFormed, Admitted, Pods, DnsLabel, OtherPorts;
  }

  lemma SiteAccepted(w: World)
    requires w.cluster.specs == map[]
    ensures WellFormed(Site()) && Accepted(Roomy(), w, Site()) && WithGeneration(w.cluster.specs, Site()) == Site()
  {
    SitePods();
    hide WellFormed, Accepted, WithGeneration, Pods, DnsLabel;
    WebAccepted(w, "b", 1, [Pod("d", "x")], 8080);
  }

  lemma OnePlain(name: string, generation: int, d: Deployment, port: int)
    requires d.specHash != "" && d.replicas >= 0
    ensures Plain(Web(name, generation, [d], port))
  {
    hide Canonical, SurgeName;
  }

  lemma EmptyTidy(rt: Runtime)
    ensures Tidy(map[], rt)
  {
    hide Canonical, SurgeName;
  }

  lemma CalmIsQuiet()
    ensures Quiet(Calm()) && Serving.Binds(Calm())
  {
  }

  lemma OneName(key: Key, d: Deployment)
    requires d.replicas == 1
    ensures NamesOf(key, [d]) == {Canonical(key, d, 1)}
  {
    hide Canonical;
    assert [d][..0] == [];
    assert FirstNames(key, d, 1) == {Canonical(key, d, 1)};
  }

  lemma BootedInvariant(store: map<string, Runtime>, containers: Docker.Containers)
    requires Sound(store)
    ensures Inv(Booted(store, containers))
  {
    hide WellFormed;
    InitialInvariant(Booted(store, containers));
  }

  lemma NothingStored()
    ensures Sound(map[])
  {
  }

  lemma SitePods()
    ensures Pods([Pod("d", "x")]) && DnsLabel("b") && DnsLabel("c")
  {
    Labels();
    hide DnsLabel, ValidDeployment;
    PodValid(Pod("d", "x"));
  }

  /** On an empty node, when nothing fails, the example is applied: its one container is the
      canonical one, and memory, disk, table and cache hold it. */
  lemma SiteApplied(o: Oracle, filed: Option<Status>)
    requires Quiet(o) && Serving.Binds(o)
    ensures var r := Apply(o, Roomy(), Booted(map[], map[]), Site(), filed);
            && r.ending == Applied && Success.Established(r.world, Site())
            && AtSpec(r.world.cluster.containers, Site())
            && OwnedAll(r.world.cluster.containers, Site().key) == {Canonical(Site().key, Pod("d", "x"), 1)}
  {
    var w := Booted(map[], map[]);
    NothingStored();
    BootedInvariant(map[], map[]);
    SiteAccepted(w);
    OnePlain("b", 1, Pod("d", "x"), 8080);
    EmptyTidy(Site());
    hide Inv, Accepted, Plain, Workable, Misplaced, Quiet, Apply, Success.Established, Canonical, WithGeneration, UpToDate, Pods, NamesOf;
    Success.QuietApplySucceeds(o, Roomy(), w, Site(), filed);
    OneName(Site().key, Pod("d", "x"));
  }

  /** A healthy container of a runtime, and nothing else. */
  function Alone(rt: Runtime, d: Deployment): Docker.Containers {
    map[Canonical(rt.key, d, 1) := Made(rt, d, 1, READY)]
  }

  lemma AloneIsFresh(rt: Runtime, d: Deployment)
    requires d.specHash != ""
    ensures var name, m := Canonical(rt.key, d, 1), Alone(rt, d);
            && name in m && !Stale(m[name], d.specHash) && Ready(m[name].state)
            && forall n :: n in OwnedAll(m, rt.key) ==> m[n].generation == rt.generation
  {
    hide Canonical;
  }

  lemma SiteStored()
    ensures Sound(map["a/b" := Site()]) && WellFormed(Site())
  {
    SitePods();
    WebWellFormed("b", 1, [Pod("d", "x")], 8080);
    hide WellFormed, Pods;
    assert Site().key.Path() == "a/b";
  }

  /** The example's healthy container and its spec on disk, as a restarted controller finds
      them. If the first look at the container's state fails, the rollback removes it. */
  lemma SiteWiped(filed: Option<Status>)
    ensures var m := Alone(Site(), Pod("d", "x"));
            var r := Apply(StateBlind(), Roomy(), Booted(map["a/b" := Site()], m), Site(), filed);
            && Ready(m[Canonical(Site().key, Pod("d", "x"), 1)].state)
            && r.ending == RolledBack && OwnedAll(r.world.cluster.containers, Site().key) == {}
  {
    var m := Alone(Site(), Pod("d", "x"));
    var w := Booted(map["a/b" := Site()], m);
    hide Inv, Accepted, Apply, Canonical, WellFormed, WithGeneration, Alone, Stale, OwnedAll, Ready, Sound, StateBlind;
    SiteStored();
    SiteAccepted(w);
    BootedInvariant(w.store, m);
    AloneIsFresh(Site(), Pod("d", "x"));
    assert Site().key.Path() == "a/b";
    ReloadRollbackWipes(Roomy(), w, Site(), filed);
  }
}
