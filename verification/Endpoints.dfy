/** Finding the ready containers behind a service, and the second lookup by the old labels,
    which leave the namespace out. */
module Endpoints {
  import opened Text
  import opened Runtimes
  import opened Sorting
  import opened Statuses
  import opened Docker
  import Quantities

  /** Running containers by the current owner labels. */
  function Pods(m: Docker.Containers, key: Key, deployment: string): (names: set<string>) {
    set n | n in m && m[n].state.running && OwnedBy(m[n], key, deployment)
  }

  /** Running containers by the old labels: instance and service only. */
  function LegacyPods(m: Docker.Containers, key: Key, deployment: string): (names: set<string>) {
    set n | n in m && m[n].state.running && m[n].legacy && m[n].instance == key.name && m[n].service == deployment
  }

  /** The two lookups of `discoverDeploymentEndpoints`. */
  function ListPods(o: Oracle, c: Cluster, key: Key, deployment: string): Answer<seq<string>> {
    var current := ListNames(o, c, Pods(c.containers, key, deployment));
    if current.value.Some? && current.value.value != [] then current
    else ListNames(o, current.cluster, LegacyPods(c.containers, key, deployment))
  }

  datatype Found = Found(cluster: Cluster, endpoints: seq<Endpoint>)

  /** A container that cannot be inspected or is not ready is left out. */
  function Inspect(o: Oracle, c: Cluster, names: seq<string>, port: int): Found
    decreases |names|
  {
    if names == [] then Found(c, [])
    else
      var before := Inspect(o, c, names[..|names| - 1], port);
      var name := names[|names| - 1];
      var a := Read(o, before.cluster, InspectEndpoint, name);
      Found(a.cluster,
            if a.value.Some? && Ready(a.value.value.state) then before.endpoints + [Endpoint(name, port)]
            else before.endpoints)
  }

  /** `discoverDeploymentEndpoints` */
  function DiscoverDeployment(o: Oracle, c: Cluster, key: Key, deployment: string, port: int): Answer<seq<Endpoint>> {
    var listed := ListPods(o, c, key, deployment);
    if listed.value.None? then Answer(listed.cluster, Quantities.None)
    else
      var found := Inspect(o, listed.cluster, listed.value.value, port);
      Answer(found.cluster, Quantities.Some(found.endpoints))
  }

  function DiscoverEach(o: Oracle, c: Cluster, key: Key, ds: seq<Deployment>, port: int): Answer<seq<Endpoint>>
    decreases |ds|
  {
    if ds == [] then Answer(c, Quantities.Some([]))
    else
      var before := DiscoverEach(o, c, key, ds[..|ds| - 1], port);
      if before.value.None? then before
      else
        var here := DiscoverDeployment(o, before.cluster, key, ds[|ds| - 1].name, port);
        if here.value.None? then here
        else Answer(here.cluster, Quantities.Some(before.value.value + here.value.value))
  }

  function ByContainer(): (Endpoint, Endpoint) -> bool {
    (a: Endpoint, b: Endpoint) => Less(a.container, b.container)
  }

  /** `discoverEndpoints` */
  function Discover(o: Oracle, c: Cluster, rt: Runtime, s: Service): Answer<seq<Endpoint>> {
    var ds := Matching(rt, s.selector);
    var port := TargetPort(s, ds);
    if port == 0 then Answer(c, Quantities.None)
    else
      var found := DiscoverEach(o, c, rt.key, ds, port);
      if found.value.None? then found
      else Answer(found.cluster, Quantities.Some(SortBy(found.value.value, ByContainer())))
  }

  /** `refreshRuntimeEndpoints` */
  function Refresh(o: Oracle, c: Cluster, rt: Runtime, k: nat): Answer<Discovered>
    requires k <= |rt.services|
  {
    if k == 0 then Answer(c, Quantities.Some(map[]))
    else
      var before := Refresh(o, c, rt, k - 1);
      if before.value.None? then before
      else
        var s := rt.services[k - 1];
        var found := Discover(o, before.cluster, rt, s);
        if found.value.None? then Answer(found.cluster, Quantities.None)
        else Answer(found.cluster, Quantities.Some(before.value.value[s.name := found.value.value]))
  }

  // ---------------------------------------------------------- no side effects

  /** Only time has passed. */
  ghost predicate OnlyTime(c: Cluster, e: Cluster) {
    c.tick <= e.tick && c.now <= e.now && e == c.(tick := e.tick, now := e.now)
  }

  lemma {:induction false} InspectOnlyReads(o: Oracle, c: Cluster, names: seq<string>, port: int)
    ensures OnlyTime(c, Inspect(o, c, names, port).cluster)
  {
    if names != [] {
      InspectOnlyReads(o, c, names[..|names| - 1], port);
    }
  }

  lemma {:induction false} DiscoverOnlyReads(o: Oracle, c: Cluster, key: Key, ds: seq<Deployment>, port: int)
    ensures OnlyTime(c, DiscoverEach(o, c, key, ds, port).cluster)
  {
    if ds != [] {
      DiscoverOnlyReads(o, c, key, ds[..|ds| - 1], port);
      var before := DiscoverEach(o, c, key, ds[..|ds| - 1], port);
      if before.value.Some? {
        var listed := ListPods(o, before.cluster, key, ds[|ds| - 1].name);
        if listed.value.Some? {
          InspectOnlyReads(o, listed.cluster, listed.value.value, port);
        }
      }
    }
  }

  /** Refreshing endpoints changes nothing but the clock. */
  lemma {:induction false} RefreshOnlyReads(o: Oracle, c: Cluster, rt: Runtime, k: nat)
    requires k <= |rt.services|
    ensures OnlyTime(c, Refresh(o, c, rt, k).cluster)
  {
    if k > 0 {
      RefreshOnlyReads(o, c, rt, k - 1);
      var before := Refresh(o, c, rt, k - 1);
      var ds := Matching(rt, rt.services[k - 1].selector);
      hide Matching, TargetPort, DiscoverEach;
      DiscoverOnlyReads(o, before.cluster, rt.key, ds, TargetPort(rt.services[k - 1], ds));
    }
  }

  // ---------------------------------------------------------- what is found

  lemma {:induction false} InspectFinds(o: Oracle, c: Cluster, names: seq<string>, port: int, e: Endpoint)
    ensures e in Inspect(o, c, names, port).endpoints ==>
              e.port == port && e.container in names && e.container in c.containers && Ready(c.containers[e.container].state)
    ensures FaultFree(o) && e.port == port && e.container in names
            && e.container in c.containers && Ready(c.containers[e.container].state)
            ==> e in Inspect(o, c, names, port).endpoints
  {
    if names != [] {
      var u, x := names[..|names| - 1], names[|names| - 1];
      InspectFinds(o, c, u, port, e);
      InspectOnlyReads(o, c, u, port);
      assert names == u + [x];
    }
  }

  /** The lookup that counts when nothing fails. */
  function Visible(m: Docker.Containers, key: Key, deployment: string): (names: set<string>) {
    if Pods(m, key, deployment) != {} then Pods(m, key, deployment) else LegacyPods(m, key, deployment)
  }

  /** A ready container of somebody else that the second lookup takes for the deployment's. */
  ghost predicate Twin(m: Docker.Containers, key: Key, deployment: string, n: string) {
    n in LegacyPods(m, key, deployment) && !Owned(m[n], key) && Ready(m[n].state)
  }

  lemma ListPodsFinds(o: Oracle, c: Cluster, key: Key, deployment: string)
    ensures var l := ListPods(o, c, key, deployment);
            && OnlyTime(c, l.cluster)
            && (l.value.Some? ==> forall n :: n in l.value.value ==>
                  n in Pods(c.containers, key, deployment) || n in LegacyPods(c.containers, key, deployment))
            && (FaultFree(o) ==>
                  && l.value.Some?
                  && forall n :: n in l.value.value <==> n in Visible(c.containers, key, deployment))
  {
    hide Pods, LegacyPods;
    var names := Pods(c.containers, key, deployment);
    var q := o.listing(c.tick, names);
    assert forall n :: n in q <==> n in names;
    if q != [] {
      assert q[0] in names;
    }
  }

  /** What one deployment contributes: always ready containers that one of the lookups
      matches, and without failures exactly the ready ones of the lookup that counts. */
  lemma DeploymentFinds(o: Oracle, c: Cluster, key: Key, deployment: string, port: int, e: Endpoint)
    ensures var a := DiscoverDeployment(o, c, key, deployment, port);
            && (a.value.Some? && e in a.value.value ==>
                  e.port == port && e.container in c.containers && Ready(c.containers[e.container].state)
                  && (e.container in Pods(c.containers, key, deployment) || e.container in LegacyPods(c.containers, key, deployment)))
            && (FaultFree(o) ==>
                  && a.value.Some?
                  && (e in a.value.value <==>
                        e.port == port && e.container in Visible(c.containers, key, deployment)
                        && Ready(c.containers[e.container].state)))
  {
    ListPodsFinds(o, c, key, deployment);
    var l := ListPods(o, c, key, deployment);
    if l.value.Some? {
      hide ListPods;
      InspectFinds(o, l.cluster, l.value.value, port, e);
    }
  }

  /** An engine that refuses one listing. */
  ghost function ListBlind(t: nat): Oracle {
    Oracle((op, u) => if op == List && u == t then Refused else Works,
           (u, s) => SomeOrder(s), u => 0, u => true, u => Done)
  }

  /** Every endpoint found is a container of the runtime itself. */
  ghost predicate OwnOnly(a: Answer<seq<Endpoint>>, m: Docker.Containers, key: Key) {
    a.value.Some? ==> forall e :: e in a.value.value ==> e.container in m && Owned(m[e.container], key)
  }

  ghost predicate Twinless(m: Docker.Containers, key: Key, deployment: string) {
    forall n :: !Twin(m, key, deployment, n)
  }

  /** Traffic stays inside the runtime, whatever the engine does, if and only if no twin
      exists; when nothing fails, also if the runtime has a running container of its own. A
      runtime of the same name in another namespace is a twin. */
  lemma LeakExactly(c: Cluster, key: Key, deployment: string, port: int)
    ensures (forall o: Oracle :: OwnOnly(DiscoverDeployment(o, c, key, deployment, port), c.containers, key))
            <==> Twinless(c.containers, key, deployment)
    ensures forall o: Oracle | FaultFree(o) ::
              (OwnOnly(DiscoverDeployment(o, c, key, deployment, port), c.containers, key)
               <==> Pods(c.containers, key, deployment) != {} || Twinless(c.containers, key, deployment))
  {
    hide OwnOnly, Pods, DiscoverDeployment, FaultFree;
    if Twinless(c.containers, key, deployment) {
      forall o: Oracle
        ensures OwnOnly(DiscoverDeployment(o, c, key, deployment, port), c.containers, key)
      {
        TwinlessStaysInside(o, c, key, deployment, port);
      }
    } else {
      var n :| Twin(c.containers, key, deployment, n);
      TwinLeaks(c, key, deployment, port, n);
    }
    forall o: Oracle | FaultFree(o)
      ensures OwnOnly(DiscoverDeployment(o, c, key, deployment, port), c.containers, key)
              <==> Pods(c.containers, key, deployment) != {} || Twinless(c.containers, key, deployment)
    {
      QuietLeak(o, c, key, deployment, port);
    }
  }

  lemma TwinlessStaysInside(o: Oracle, c: Cluster, key: Key, deployment: string, port: int)
    requires Twinless(c.containers, key, deployment)
    ensures OwnOnly(DiscoverDeployment(o, c, key, deployment, port), c.containers, key)
  {
    var a := DiscoverDeployment(o, c, key, deployment, port);
    if a.value.Some? {
      forall e | e in a.value.value
        ensures e.container in c.containers && Owned(c.containers[e.container], key)
      {
        DeploymentFinds(o, c, key, deployment, port, e);
        assert !Twin(c.containers, key, deployment, e.container);
      }
    }
  }

  lemma TwinLeaks(c: Cluster, key: Key, deployment: string, port: int, n: string)
    requires Twin(c.containers, key, deployment, n)
    ensures !OwnOnly(DiscoverDeployment(ListBlind(c.tick), c, key, deployment, port), c.containers, key)
  {
    var o := ListBlind(c.tick);
    var l := ListPods(o, c, key, deployment);
    assert l.value.Some? && n in l.value.value;
    BlindInspect(l.cluster, c.tick, l.value.value, port, n);
    assert Endpoint(n, port).container == n;
  }

  lemma {:induction false} BlindInspect(c: Cluster, t: nat, names: seq<string>, port: int, n: string)
    requires n in names && n in c.containers && Ready(c.containers[n].state)
    ensures Endpoint(n, port) in Inspect(ListBlind(t), c, names, port).endpoints
  {
    var u, x := names[..|names| - 1], names[|names| - 1];
    InspectOnlyReads(ListBlind(t), c, u, port);
    if n in u {
      BlindInspect(c, t, u, port, n);
    } else {
      assert names == u + [x];
    }
  }

  lemma QuietLeak(o: Oracle, c: Cluster, key: Key, deployment: string, port: int)
    requires FaultFree(o)
    ensures OwnOnly(DiscoverDeployment(o, c, key, deployment, port), c.containers, key)
            <==> Pods(c.containers, key, deployment) != {} || Twinless(c.containers, key, deployment)
  {
    var a := DiscoverDeployment(o, c, key, deployment, port);
    DeploymentFinds(o, c, key, deployment, port, Endpoint("", port));
    hide DiscoverDeployment;
    if Pods(c.containers, key, deployment) != {} || Twinless(c.containers, key, deployment) {
      forall e | e in a.value.value
        ensures e.container in c.containers && Owned(c.containers[e.container], key)
      {
        DeploymentFinds(o, c, key, deployment, port, e);
        assert !Twin(c.containers, key, deployment, e.container) || Pods(c.containers, key, deployment) != {};
      }
    } else {
      var n :| Twin(c.containers, key, deployment, n);
      DeploymentFinds(o, c, key, deployment, port, Endpoint(n, port));
      assert Endpoint(n, port) in a.value.value && Endpoint(n, port).container == n;
    }
  }

  // ------------------------------------------------------- a service's endpoints

  /** A ready container of one of the deployments. */
  ghost predicate Behind(m: Docker.Containers, key: Key, ds: seq<Deployment>, n: string) {
    n in m && Ready(m[n].state) && exists d :: d in ds && n in Visible(m, key, d.name)
  }

  lemma {:induction false} EachFinds(o: Oracle, c: Cluster, key: Key, ds: seq<Deployment>, port: int, e: Endpoint)
    requires FaultFree(o)
    ensures var a := DiscoverEach(o, c, key, ds, port);
            a.value.Some? && (e in a.value.value <==> e.port == port && Behind(c.containers, key, ds, e.container))
  {
    if ds != [] {
      var u, d := ds[..|ds| - 1], ds[|ds| - 1];
      EachFinds(o, c, key, u, port, e);
      DiscoverOnlyReads(o, c, key, u, port);
      var b := DiscoverEach(o, c, key, u, port).cluster;
      DeploymentFinds(o, b, key, d.name, port, e);
      hide DiscoverDeployment, Visible;
      BehindStep(c.containers, key, u, d, e.container);
      assert ds == u + [d];
    }
  }

  lemma BehindStep(m: Docker.Containers, key: Key, u: seq<Deployment>, d: Deployment, n: string)
    ensures Behind(m, key, u + [d], n) <==> Behind(m, key, u, n) || (n in m && Ready(m[n].state) && n in Visible(m, key, d.name))
  {
    hide Visible;
    if e :| e in u && n in Visible(m, key, e.name) {
      assert e in u + [d];
    }
    assert d in u + [d];
  }

  lemma ContainerOrderWeak()
    ensures WeakOrder(ByContainer())
  {
    forall a: string, b: string
      ensures Less(a, b) ==> !Less(b, a)
    {
      LessTotal(a, b);
      if Less(a, b) && Less(b, a) {
        LessTransitive(a, b, a);
      }
    }
    forall a: string, b: string, c: string | !Less(b, a) && !Less(c, b)
      ensures !Less(c, a)
    {
      LessTotal(a, b);
      LessTotal(b, c);
      if Less(c, a) {
        if a == b || b == c {
        } else {
          LessTransitive(a, b, c);
          LessTransitive(a, c, a);
        }
      }
    }
  }

  /** Without failures a service's endpoints are, in the order of their names, exactly the ready
      ones among the containers that the lookup that counts finds for the deployments it
      selects. */
  lemma ServiceFinds(o: Oracle, c: Cluster, rt: Runtime, s: Service, e: Endpoint)
    requires FaultFree(o) && TargetPort(s, Matching(rt, s.selector)) > 0
    ensures var a := Discover(o, c, rt, s);
            && a.value.Some? && Sorted(a.value.value, ByContainer())
            && (e in a.value.value <==>
                  e.port == TargetPort(s, Matching(rt, s.selector))
                  && e.container in c.containers && Ready(c.containers[e.container].state)
                  && exists d :: d in rt.deployments && LabelsMatch(d.selector, s.selector)
                       && e.container in Visible(c.containers, rt.key, d.name))
  {
    var ds := Matching(rt, s.selector);
    var port := TargetPort(s, ds);
    EachFinds(o, c, rt.key, ds, port, e);
    var found := DiscoverEach(o, c, rt.key, ds, port).value.value;
    SortKeeps(found, ByContainer());
    InMultiset(e, SortBy(found, ByContainer()), found);
    ContainerOrderWeak();
    SortSorted(found, ByContainer());
    forall d
      ensures d in ds <==> d in rt.deployments && LabelsMatch(d.selector, s.selector)
    {
      MatchingExactly(rt, s.selector, d);
    }
    hide Matching, TargetPort, Visible, LabelsMatch, DiscoverEach;
  }

  /** Listing works, whatever else does not. */
  ghost predicate Lists(o: Oracle) {
    forall t :: o.fault(List, t) == Works
  }

  lemma {:induction false} EachFound(o: Oracle, c: Cluster, key: Key, ds: seq<Deployment>, port: int)
    requires Lists(o)
    ensures DiscoverEach(o, c, key, ds, port).value.Some?
  {
    if ds != [] {
      EachFound(o, c, key, ds[..|ds| - 1], port);
    }
  }

  lemma {:induction false} RefreshSucceeds(o: Oracle, c: Cluster, rt: Runtime, k: nat)
    requires Lists(o) && k <= |rt.services|
    requires forall s :: s in rt.services ==> TargetPort(s, Matching(rt, s.selector)) > 0
    ensures Refresh(o, c, rt, k).value.Some?
  {
    if k > 0 {
      RefreshSucceeds(o, c, rt, k - 1);
      var before := Refresh(o, c, rt, k - 1);
      var s := rt.services[k - 1];
      assert s in rt.services;
      hide Matching, TargetPort, DiscoverEach;
      EachFound(o, before.cluster, rt.key, Matching(rt, s.selector), TargetPort(s, Matching(rt, s.selector)));
    }
  }
}
