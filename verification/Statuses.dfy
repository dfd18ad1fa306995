/** Observed status: ready replicas by deployment and the phases derived from them. */
module Statuses {
  import opened Runtimes
  import opened Naming

  datatype Phase = Pending | Pulling | Starting | Running | Degraded | Updating | Failed | Terminating

  datatype DeploymentStatus = DeploymentStatus(name: string, ready: nat, replicas: int, revision: string, phase: Phase)

  datatype ResourceStatus = ResourceStatus(name: string, listenPort: int, phase: Phase)

  datatype Status = Status(
    observedGeneration: int,
    phase: Phase,
    deployments: seq<DeploymentStatus>,
    services: seq<ResourceStatus>,
    ingress: seq<ResourceStatus>)

  type Discovered = map<string, seq<Endpoint>>

  function EndpointsOf(found: Discovered, service: string): seq<Endpoint> {
    if service in found then found[service] else []
  }

  // ---------------------------------------------------------- ready replicas

  /** The canonical names of replicas 1 to k. */
  function FirstNames(key: Key, d: Deployment, k: int): (names: set<string>) {
    set r | 1 <= r <= k :: Canonical(key, d, r)
  }

  function CanonicalNames(key: Key, d: Deployment): (names: set<string>) {
    FirstNames(key, d, d.replicas)
  }

  lemma FirstNamesStep(key: Key, d: Deployment, k: nat)
    requires k >= 1
    ensures FirstNames(key, d, k) == FirstNames(key, d, k - 1) + {Canonical(key, d, k)}
  {
    hide Canonical;
  }

  function NamesOf(key: Key, ds: seq<Deployment>): (names: set<string>) {
    if ds == [] then {} else NamesOf(key, ds[..|ds| - 1]) + CanonicalNames(key, ds[|ds| - 1])
  }

  lemma {:induction false} NamesOfMembers(key: Key, ds: seq<Deployment>, n: string)
    ensures n in NamesOf(key, ds) <==> exists d :: d in ds && n in CanonicalNames(key, d)
  {
    hide CanonicalNames;
    if ds != [] {
      NamesOfMembers(key, ds[..|ds| - 1], n);
      assert ds == ds[..|ds| - 1] + [ds[|ds| - 1]];
    }
  }

  function Containers(es: seq<Endpoint>): (names: set<string>) {
    set e | e in es :: e.container
  }

  /** The containers found behind the services that select a deployment. */
  ghost predicate Serves(rt: Runtime, found: Discovered, d: Deployment, container: string) {
    exists s, e :: s in rt.services && LabelsMatch(d.selector, s.selector)
                   && e in EndpointsOf(found, s.name) && e.container == container
  }

  /** The ready count as a cardinality: canonical names of the deployment that some selecting
      service has found. */
  ghost function ReadyCount(rt: Runtime, found: Discovered, d: Deployment): (n: nat) {
    |ReadyNames(rt, found, d)|
  }

  ghost function ReadyNames(rt: Runtime, found: Discovered, d: Deployment): set<string> {
    set n | n in CanonicalNames(rt.key, d) && Serves(rt, found, d, n)
  }

  /** No two deployments of a runtime share a canonical name. */
  ghost predicate NamesApart(rt: Runtime) {
    forall i, j :: 0 <= i < j < |rt.deployments| ==>
      CanonicalNames(rt.key, rt.deployments[i]) !! CanonicalNames(rt.key, rt.deployments[j])
  }

  function Tally(ready: map<string, nat>, name: string): nat {
    if name in ready then ready[name] else 0
  }

  /** The counters count what has been seen, deployment by deployment. */
  ghost predicate Counted(rt: Runtime, ready: map<string, nat>, seen: set<string>) {
    forall d :: d in rt.deployments ==> Tally(ready, d.name) == |CanonicalNames(rt.key, d) * seen|
  }

  /** Both have containers, and their names are spelled alike. */
  predicate Clash(a: Key, d: Deployment, b: Key, e: Deployment) {
    d.replicas >= 1 && e.replicas >= 1 && Spelling(a, d) == Spelling(b, e)
  }

  /** The canonical names of two deployments, of whatever runtimes, are disjoint exactly if
      the deployments do not clash. */
  lemma DisjointExactly(a: Key, d: Deployment, b: Key, e: Deployment)
    ensures CanonicalNames(a, d) !! CanonicalNames(b, e) <==> !Clash(a, d, b, e)
  {
    hide Canonical, Spelling;
    if Clash(a, d, b, e) {
      CollideExactly(a, d, 1, b, e, 1);
      assert Canonical(a, d, 1) in CanonicalNames(a, d) && Canonical(b, e, 1) in CanonicalNames(b, e);
    } else {
      forall n | n in CanonicalNames(a, d)
        ensures n !in CanonicalNames(b, e)
      {
        var i :| 1 <= i <= d.replicas && n == Canonical(a, d, i);
        forall j: nat | 1 <= j <= e.replicas
          ensures n != Canonical(b, e, j)
        {
          CollideExactly(a, d, i, b, e, j);
        }
      }
    }
  }

  /** A runtime's names are apart exactly if no two of its deployments clash, which can be read
      off the document. */
  lemma NamesApartExactly(rt: Runtime)
    ensures NamesApart(rt) <==>
              forall i, j :: 0 <= i < j < |rt.deployments| ==> !Clash(rt.key, rt.deployments[i], rt.key, rt.deployments[j])
  {
    hide CanonicalNames, Clash;
    forall i, j | 0 <= i < j < |rt.deployments|
      ensures CanonicalNames(rt.key, rt.deployments[i]) !! CanonicalNames(rt.key, rt.deployments[j])
              <==> !Clash(rt.key, rt.deployments[i], rt.key, rt.deployments[j])
    {
      DisjointExactly(rt.key, rt.deployments[i], rt.key, rt.deployments[j]);
    }
  }

  /** No surge name is a canonical name of any runtime. */
  lemma SurgeNotAmong(key: Key, d: Deployment, replica: nat, generation: int, b: Key, e: Deployment)
    ensures SurgeName(key, d, replica, generation) !in CanonicalNames(b, e)
  {
    forall j: nat | 1 <= j <= e.replicas
      ensures SurgeName(key, d, replica, generation) != Canonical(b, e, j)
    {
      SurgeNeverCanonical(key, d, replica, generation, b, e, j);
    }
    hide Canonical, SurgeName;
  }

  lemma SurgeNotAmongAll(key: Key, d: Deployment, replica: nat, generation: int, b: Key, ds: seq<Deployment>)
    ensures SurgeName(key, d, replica, generation) !in NamesOf(b, ds)
  {
    var surge := SurgeName(key, d, replica, generation);
    NamesOfMembers(b, ds, surge);
    hide SurgeName, CanonicalNames, NamesOf;
    forall e | e in ds
      ensures surge !in CanonicalNames(b, e)
    {
      SurgeNotAmong(key, d, replica, generation, b, e);
    }
  }

  lemma ApartAt(rt: Runtime, i: nat, j: nat)
    requires NamesApart(rt) && i < |rt.deployments| && j < |rt.deployments| && i != j
    ensures CanonicalNames(rt.key, rt.deployments[i]) !! CanonicalNames(rt.key, rt.deployments[j])
  {
    hide CanonicalNames;
  }

  /** A name belongs to one deployment. */
  lemma OtherOwner(rt: Runtime, d: Deployment, e: Deployment, name: string)
    requires NamesApart(rt) && d in rt.deployments && e in rt.deployments && d != e
    requires name in CanonicalNames(rt.key, d)
    ensures name !in CanonicalNames(rt.key, e)
  {
    hide CanonicalNames, NamesApart;
    var i :| 0 <= i < |rt.deployments| && rt.deployments[i] == d;
    var j :| 0 <= j < |rt.deployments| && rt.deployments[j] == e;
    ApartAt(rt, i, j);
  }

  lemma NamedApart(rt: Runtime, d: Deployment, e: Deployment)
    requires DistinctDeployments(rt.deployments) && d in rt.deployments && e in rt.deployments && d.name == e.name
    ensures d == e
  {
  }

  lemma OneMore(own: set<string>, seen: set<string>, name: string)
    requires name in own && name !in seen
    ensures |own * (seen + {name})| == |own * seen| + 1
  {
    assert own * (seen + {name}) == own * seen + {name};
  }

  lemma NoMore(own: set<string>, seen: set<string>, name: string)
    requires name !in own
    ensures |own * (seen + {name})| == |own * seen|
  {
    assert own * (seen + {name}) == own * seen;
  }

  /** Counting one more name adds one to its deployment and nothing to the others. */
  lemma CountOne(rt: Runtime, ready: map<string, nat>, seen: set<string>, d: Deployment, name: string)
    requires NamesApart(rt) && DistinctDeployments(rt.deployments) && Counted(rt, ready, seen)
    requires d in rt.deployments && name in CanonicalNames(rt.key, d) && name !in seen
    ensures Counted(rt, ready[d.name := Tally(ready, d.name) + 1], seen + {name})
  {
    hide CanonicalNames;
    var more := ready[d.name := Tally(ready, d.name) + 1];
    forall e | e in rt.deployments
      ensures Tally(more, e.name) == |CanonicalNames(rt.key, e) * (seen + {name})|
    {
      var own := CanonicalNames(rt.key, e);
      if e == d {
        OneMore(own, seen, name);
      } else {
        OtherOwner(rt, d, e, name);
        NoMore(own, seen, name);
        if e.name == d.name {
          NamedApart(rt, d, e);
        }
      }
    }
  }

  // The nested loops as folds, innermost first. They are exact on every input; that they
  // count what one would want needs the names apart.

  datatype Counters = Counters(ready: map<string, nat>, seen: set<string>)

  function CountName(t: Counters, d: Deployment, container: string, name: string): Counters {
    if container != name || name in t.seen then t
    else Counters(t.ready[d.name := Tally(t.ready, d.name) + 1], t.seen + {name})
  }

  function CountReplicas(key: Key, d: Deployment, container: string, k: int, t: Counters): Counters
    decreases k
  {
    if k <= 0 then t
    else CountName(CountReplicas(key, d, container, k - 1, t), d, container, Canonical(key, d, k))
  }

  function CountDeployments(key: Key, ds: seq<Deployment>, container: string, t: Counters): Counters {
    if ds == [] then t
    else
      var d := ds[|ds| - 1];
      CountReplicas(key, d, container, d.replicas, CountDeployments(key, ds[..|ds| - 1], container, t))
  }

  function CountEndpoints(key: Key, matches: seq<Deployment>, es: seq<Endpoint>, t: Counters): Counters {
    if es == [] then t
    else CountDeployments(key, matches, es[|es| - 1].container, CountEndpoints(key, matches, es[..|es| - 1], t))
  }

  function CountServices(rt: Runtime, found: Discovered, k: nat): Counters
    requires k <= |rt.services|
  {
    if k == 0 then Counters(map[], {})
    else
      var s := rt.services[k - 1];
      CountEndpoints(rt.key, Matching(rt, s.selector), EndpointsOf(found, s.name), CountServices(rt, found, k - 1))
  }

  function ReadyReplicas(rt: Runtime, found: Discovered): (ready: map<string, nat>) {
    CountServices(rt, found, |rt.services|).ready
  }

  /** `readyReplicasByDeployment` */
  method ReadyReplicasByDeployment(rt: Runtime, found: Discovered) returns (ready: map<string, nat>)
    ensures ready == ReadyReplicas(rt, found)
  {
    hide Canonical, Matching;
    var t := Counters(map[], {});
    for i := 0 to |rt.services|
      invariant t == CountServices(rt, found, i)
    {
      var service := rt.services[i];
      t := VisitEndpoints(rt.key, Matching(rt, service.selector), EndpointsOf(found, service.name), t);
    }
    ready := t.ready;
  }

  method VisitEndpoints(key: Key, matches: seq<Deployment>, es: seq<Endpoint>, t0: Counters) returns (t: Counters)
    ensures t == CountEndpoints(key, matches, es, t0)
  {
    t := t0;
    for i := 0 to |es|
      invariant t == CountEndpoints(key, matches, es[..i], t0)
    {
      ghost var t1 := t;
      for j := 0 to |matches|
        invariant t == CountDeployments(key, matches[..j], es[i].container, t1)
      {
        t := VisitReplicas(key, matches[j], es[i].container, t);
        assert matches[..j + 1][..j] == matches[..j];
      }
      assert matches[..|matches|] == matches;
      assert es[..i + 1][..i] == es[..i];
    }
    assert es[..|es|] == es;
  }

  method VisitReplicas(key: Key, d: Deployment, container: string, t0: Counters) returns (t: Counters)
    ensures t == CountReplicas(key, d, container, d.replicas, t0)
  {
    hide Canonical;
    var ready: map<string, nat>, seen := t0.ready, t0.seen;
    var replica := 1;
    while replica <= d.replicas
      invariant 1 <= replica <= (if d.replicas < 0 then 0 else d.replicas) + 1
      invariant Counters(ready, seen) == CountReplicas(key, d, container, replica - 1, t0)
    {
      var name := Canonical(key, d, replica);
      if container == name && name !in seen {
        ready := ready[d.name := Tally(ready, d.name) + 1];
        seen := seen + {name};
      }
      replica := replica + 1;
    }
    t := Counters(ready, seen);
    assert d.replicas >= 0 ==> replica - 1 == d.replicas;
    assert d.replicas < 0 ==> replica - 1 == 0;
  }

  // ------------------------------------------ what the folds have counted

  lemma {:induction false} ReplicasCounted(rt: Runtime, d: Deployment, container: string, k: nat, t: Counters)
    requires NamesApart(rt) && DistinctDeployments(rt.deployments) && Counted(rt, t.ready, t.seen)
    requires d in rt.deployments && k <= d.replicas
    ensures var u := CountReplicas(rt.key, d, container, k, t);
            Counted(rt, u.ready, u.seen) && u.seen == t.seen + {container} * FirstNames(rt.key, d, k)
  {
    hide NamesApart, Counted, DistinctDeployments, Canonical;
    if k == 0 {
      assert FirstNames(rt.key, d, 0) == {};
    } else {
      ReplicasCounted(rt, d, container, k - 1, t);
      FirstNamesStep(rt.key, d, k);
      var v := CountReplicas(rt.key, d, container, k - 1, t);
      var name := Canonical(rt.key, d, k);
      if container == name && name !in v.seen {
        CountOne(rt, v.ready, v.seen, d, name);
      }
    }
  }

  lemma {:induction false} DeploymentsCounted(rt: Runtime, ds: seq<Deployment>, container: string, t: Counters)
    requires NamesApart(rt) && DistinctDeployments(rt.deployments) && Counted(rt, t.ready, t.seen)
    requires forall d :: d in ds ==> d in rt.deployments
    ensures var u := CountDeployments(rt.key, ds, container, t);
            Counted(rt, u.ready, u.seen) && u.seen == t.seen + {container} * NamesOf(rt.key, ds)
  {
    hide NamesApart, Counted, DistinctDeployments;
    if ds != [] {
      var d := ds[|ds| - 1];
      DeploymentsCounted(rt, ds[..|ds| - 1], container, t);
      var v := CountDeployments(rt.key, ds[..|ds| - 1], container, t);
      if d.replicas >= 0 {
        ReplicasCounted(rt, d, container, d.replicas, v);
      } else {
        NoNames(rt.key, d);
      }
      hide CountReplicas, CanonicalNames;
      assert CanonicalNames(rt.key, d) == CanonicalNames(rt.key, d);
    }
  }

  lemma NoNames(key: Key, d: Deployment)
    requires d.replicas < 0
    ensures CanonicalNames(key, d) == {}
  {
    hide Canonical;
  }

  lemma {:induction false} EndpointsCounted(rt: Runtime, matches: seq<Deployment>, es: seq<Endpoint>, t: Counters)
    requires NamesApart(rt) && DistinctDeployments(rt.deployments) && Counted(rt, t.ready, t.seen)
    requires forall d :: d in matches ==> d in rt.deployments
    ensures var u := CountEndpoints(rt.key, matches, es, t);
            Counted(rt, u.ready, u.seen) && u.seen == t.seen + Containers(es) * NamesOf(rt.key, matches)
  {
    hide NamesApart, Counted, DistinctDeployments, NamesOf, CountDeployments;
    if es != [] {
      var n := |es| - 1;
      EndpointsCounted(rt, matches, es[..n], t);
      DeploymentsCounted(rt, matches, es[n].container, CountEndpoints(rt.key, matches, es[..n], t));
      assert es == es[..n] + [es[n]];
      assert Containers(es) == Containers(es[..n]) + {es[n].container};
    }
  }

  /** What the first k services have made visible. */
  function SeenBy(rt: Runtime, found: Discovered, k: nat): (seen: set<string>)
    requires k <= |rt.services|
  {
    if k == 0 then {}
    else
      var s := rt.services[k - 1];
      SeenBy(rt, found, k - 1) + Containers(EndpointsOf(found, s.name)) * NamesOf(rt.key, Matching(rt, s.selector))
  }

  lemma {:induction false} ServicesCounted(rt: Runtime, found: Discovered, k: nat)
    requires NamesApart(rt) && DistinctDeployments(rt.deployments) && k <= |rt.services|
    ensures Counted(rt, CountServices(rt, found, k).ready, SeenBy(rt, found, k))
    ensures CountServices(rt, found, k).seen == SeenBy(rt, found, k)
  {
    hide NamesApart, Counted, DistinctDeployments, CountEndpoints, Matching, NamesOf, Containers, EndpointsOf;
    if k == 0 {
      NothingSeen(rt);
    } else {
      var s := rt.services[k - 1];
      ServicesCounted(rt, found, k - 1);
      MatchingWithin(rt, s.selector);
      EndpointsCounted(rt, Matching(rt, s.selector), EndpointsOf(found, s.name), CountServices(rt, found, k - 1));
    }
  }

  lemma MatchingWithin(rt: Runtime, selector: map<string, string>)
    ensures forall d :: d in Matching(rt, selector) ==> d in rt.deployments
  {
    forall d | d in Matching(rt, selector)
      ensures d in rt.deployments
    {
      MatchingExactly(rt, selector, d);
    }
  }

  /** With the names apart, the nested loops with their `seen` set compute for each deployment
      the cardinality of its canonical names among the containers found by the services that
      select it. */
  lemma ReadyIsCardinality(rt: Runtime, found: Discovered, d: Deployment)
    requires NamesApart(rt) && DistinctDeployments(rt.deployments) && d in rt.deployments
    ensures Tally(ReadyReplicas(rt, found), d.name) == ReadyCount(rt, found, d)
  {
    ServicesCounted(rt, found, |rt.services|);
    CountedIsReady(rt, found, d, ReadyReplicas(rt, found));
  }

  lemma NothingSeen(rt: Runtime)
    ensures Counted(rt, map[], {})
  {
    hide CanonicalNames;
    forall d | d in rt.deployments
      ensures |CanonicalNames(rt.key, d) * {}| == 0
    {
      assert CanonicalNames(rt.key, d) * {} == {};
    }
  }

  lemma CountedIsReady(rt: Runtime, found: Discovered, d: Deployment, ready: map<string, nat>)
    requires NamesApart(rt) && d in rt.deployments
    requires Counted(rt, ready, SeenBy(rt, found, |rt.services|))
    ensures Tally(ready, d.name) == ReadyCount(rt, found, d)
  {
    var seen := SeenBy(rt, found, |rt.services|);
    forall n | n in CanonicalNames(rt.key, d)
      ensures n in seen <==> Serves(rt, found, d, n)
    {
      SeenServes(rt, found, d, n);
    }
    hide CanonicalNames, Serves, SeenBy;
    assert CanonicalNames(rt.key, d) * seen == ReadyNames(rt, found, d);
  }

  ghost predicate SeenAt(rt: Runtime, found: Discovered, d: Deployment, s: Service, n: string) {
    LabelsMatch(d.selector, s.selector) && n in Containers(EndpointsOf(found, s.name))
  }

  lemma {:induction false} SeenByMembers(rt: Runtime, found: Discovered, k: nat, d: Deployment, n: string)
    requires NamesApart(rt) && d in rt.deployments && n in CanonicalNames(rt.key, d) && k <= |rt.services|
    ensures n in SeenBy(rt, found, k) <==> exists i :: 0 <= i < k && SeenAt(rt, found, d, rt.services[i], n)
  {
    hide CanonicalNames, NamesApart, LabelsMatch, Matching;
    if k > 0 {
      SeenByMembers(rt, found, k - 1, d, n);
      var s := rt.services[k - 1];
      var matches := Matching(rt, s.selector);
      NamesOfMembers(rt.key, matches, n);
      MatchingExactly(rt, s.selector, d);
      if n in NamesOf(rt.key, matches) {
        var o :| o in matches && n in CanonicalNames(rt.key, o);
        MatchingExactly(rt, s.selector, o);
        if o != d {
          OtherOwner(rt, d, o, n);
        }
      }
    }
  }

  lemma SeenServes(rt: Runtime, found: Discovered, d: Deployment, n: string)
    requires NamesApart(rt) && d in rt.deployments && n in CanonicalNames(rt.key, d)
    ensures n in SeenBy(rt, found, |rt.services|) <==> Serves(rt, found, d, n)
  {
    SeenByMembers(rt, found, |rt.services|, d, n);
    hide CanonicalNames, NamesApart, LabelsMatch, SeenBy;
    if i :| 0 <= i < |rt.services| && SeenAt(rt, found, d, rt.services[i], n) {
      assert rt.services[i] in rt.services;
    }
    if Serves(rt, found, d, n) {
      var s, e :| s in rt.services && LabelsMatch(d.selector, s.selector)
                  && e in EndpointsOf(found, s.name) && e.container == n;
      var i :| 0 <= i < |rt.services| && rt.services[i] == s;
      assert SeenAt(rt, found, d, rt.services[i], n);
    }
  }

  /** No counter exceeds the number of its deployment's names that have been seen. */
  ghost predicate Capped(rt: Runtime, t: Counters) {
    forall d :: d in rt.deployments ==> Tally(t.ready, d.name) <= |CanonicalNames(rt.key, d) * t.seen|
  }

  lemma CapOne(rt: Runtime, t: Counters, d: Deployment, container: string, name: string)
    requires DistinctDeployments(rt.deployments) && Capped(rt, t)
    requires d in rt.deployments && name in CanonicalNames(rt.key, d)
    ensures Capped(rt, CountName(t, d, container, name))
  {
    hide CanonicalNames;
    var u := CountName(t, d, container, name);
    forall e | e in rt.deployments
      ensures Tally(u.ready, e.name) <= |CanonicalNames(rt.key, e) * u.seen|
    {
      var own := CanonicalNames(rt.key, e);
      SubsetSize(own * t.seen, own * u.seen);
      if e.name == d.name {
        NamedApart(rt, d, e);
        if u != t {
          assert own * u.seen == own * t.seen + {name};
        }
      }
    }
  }

  lemma {:induction false} CapReplicas(rt: Runtime, d: Deployment, container: string, k: int, t: Counters)
    requires DistinctDeployments(rt.deployments) && Capped(rt, t) && d in rt.deployments && k <= d.replicas
    ensures Capped(rt, CountReplicas(rt.key, d, container, k, t))
    decreases k
  {
    hide DistinctDeployments, Capped, CountName, Canonical;
    if k > 0 {
      CapReplicas(rt, d, container, k - 1, t);
      CapOne(rt, CountReplicas(rt.key, d, container, k - 1, t), d, container, Canonical(rt.key, d, k));
    }
  }

  lemma {:induction false} CapDeployments(rt: Runtime, ds: seq<Deployment>, container: string, t: Counters)
    requires DistinctDeployments(rt.deployments) && Capped(rt, t) && forall d :: d in ds ==> d in rt.deployments
    ensures Capped(rt, CountDeployments(rt.key, ds, container, t))
  {
    hide DistinctDeployments, Capped, CountReplicas;
    if ds != [] {
      var d := ds[|ds| - 1];
      CapDeployments(rt, ds[..|ds| - 1], container, t);
      CapReplicas(rt, d, container, d.replicas, CountDeployments(rt.key, ds[..|ds| - 1], container, t));
    }
  }

  lemma {:induction false} CapEndpoints(rt: Runtime, matches: seq<Deployment>, es: seq<Endpoint>, t: Counters)
    requires DistinctDeployments(rt.deployments) && Capped(rt, t) && forall d :: d in matches ==> d in rt.deployments
    ensures Capped(rt, CountEndpoints(rt.key, matches, es, t))
  {
    hide DistinctDeployments, Capped, CountDeployments;
    if es != [] {
      CapEndpoints(rt, matches, es[..|es| - 1], t);
      CapDeployments(rt, matches, es[|es| - 1].container, CountEndpoints(rt.key, matches, es[..|es| - 1], t));
    }
  }

  lemma {:induction false} CapServices(rt: Runtime, found: Discovered, k: nat)
    requires DistinctDeployments(rt.deployments) && k <= |rt.services|
    ensures Capped(rt, CountServices(rt, found, k))
  {
    hide DistinctDeployments, CountEndpoints, Matching;
    if k > 0 {
      var s := rt.services[k - 1];
      CapServices(rt, found, k - 1);
      MatchingWithin(rt, s.selector);
      hide Capped;
      CapEndpoints(rt, Matching(rt, s.selector), EndpointsOf(found, s.name), CountServices(rt, found, k - 1));
    }
  }

  /** Ready is at most replicas: the counter the loops compute, whether or not the names of the
      deployments are apart. */
  lemma ReadyAtMostReplicas(rt: Runtime, found: Discovered, d: Deployment)
    requires DistinctDeployments(rt.deployments) && d in rt.deployments && d.replicas >= 0
    ensures Tally(ReadyReplicas(rt, found), d.name) <= d.replicas
  {
    CapServices(rt, found, |rt.services|);
    var names, seen := CanonicalNames(rt.key, d), CountServices(rt, found, |rt.services|).seen;
    NamesAtMost(rt.key, d, d.replicas);
    SubsetSize(names * seen, names);
  }

  lemma SubsetSize<T>(a: set<T>, b: set<T>)
    requires a <= b
    ensures |a| <= |b|
  {
    assert b == a + (b - a);
  }

  lemma {:induction false} NamesAtMost(key: Key, d: Deployment, k: nat)
    ensures |FirstNames(key, d, k)| <= k
  {
    hide Canonical;
    if k == 0 {
      assert FirstNames(key, d, k) == {};
    } else {
      NamesAtMost(key, d, k - 1);
      FirstNamesStep(key, d, k);
    }
  }

  // ------------------------------------------------------------------- phases

  /** Phases that a resource shows as they are. */
  predicate Transitional(p: Phase) {
    p.Pending? || p.Pulling? || p.Starting? || p.Updating? || p.Terminating?
  }

  predicate AllDeploymentsReady(ds: seq<Deployment>, ready: map<string, nat>) {
    forall d :: d in ds ==> Tally(ready, d.name) >= d.replicas
  }

  function RuntimePhase(rt: Runtime, requested: Phase, ready: map<string, nat>, failed: bool): Phase {
    if failed then Failed
    else if requested.Running? && !AllDeploymentsReady(rt.deployments, ready) then Degraded
    else requested
  }

  function ResourcePhase(runtimePhase: Phase, ready: bool, failed: bool): Phase {
    if failed then Failed
    else if Transitional(runtimePhase) then runtimePhase
    else if ready then Running
    else Degraded
  }

  function Desired(ds: seq<Deployment>): int {
    if ds == [] then 0 else ds[0].replicas + Desired(ds[1..])
  }

  predicate ServiceReady(rt: Runtime, s: Service, found: Discovered) {
    var desired := Desired(Matching(rt, s.selector));
    desired == 0 || |EndpointsOf(found, s.name)| >= desired
  }

  predicate IngressReady(rt: Runtime, g: Ingress, found: Discovered) {
    forall r :: r in g.routes ==> exists s :: s in rt.services && s.name == r.service && ServiceReady(rt, s, found)
  }

  function DeploymentStatusOf(phase: Phase, ready: map<string, nat>, failed: bool, d: Deployment): DeploymentStatus {
    var n := Tally(ready, d.name);
    DeploymentStatus(d.name, n, d.replicas, d.revision, ResourcePhase(phase, n >= d.replicas, failed))
  }

  function ServiceStatusOf(rt: Runtime, phase: Phase, found: Discovered, failed: bool, s: Service): ResourceStatus {
    ResourceStatus(s.name, s.listenPort, ResourcePhase(phase, ServiceReady(rt, s, found), failed))
  }

  function IngressStatusOf(rt: Runtime, phase: Phase, found: Discovered, failed: bool, g: Ingress): ResourceStatus {
    ResourceStatus(g.name, g.listenPort, ResourcePhase(phase, IngressReady(rt, g, found), failed))
  }

  function NewStatus(rt: Runtime, requested: Phase, found: Discovered, failed: bool): (status: Status)
    ensures status.observedGeneration == rt.generation
  {
    var ready := ReadyReplicas(rt, found);
    var phase := RuntimePhase(rt, requested, ready, failed);
    Status(
      rt.generation,
      phase,
      seq(|rt.deployments|, i requires 0 <= i < |rt.deployments| =>
        DeploymentStatusOf(phase, ready, failed, rt.deployments[i])),
      seq(|rt.services|, i requires 0 <= i < |rt.services| =>
        ServiceStatusOf(rt, phase, found, failed, rt.services[i])),
      seq(|rt.ingress|, i requires 0 <= i < |rt.ingress| =>
        IngressStatusOf(rt, phase, found, failed, rt.ingress[i])))
  }

  /** A healthy report is truthful: asked to report Running without an error, the runtime is
      Running exactly when every deployment status is Running, and otherwise Degraded. With
      the names apart that means every deployment has all its canonical containers found. */
  lemma RunningExactly(rt: Runtime, found: Discovered)
    ensures var s := NewStatus(rt, Running, found, false);
            && (s.phase == Running <==> forall d :: d in s.deployments ==> d.phase == Running)
            && (s.phase != Running ==> s.phase == Degraded)
            && (NamesApart(rt) && DistinctDeployments(rt.deployments) ==>
                  (s.phase == Running <==> forall d :: d in rt.deployments ==> ReadyCount(rt, found, d) >= d.replicas))
  {
    if NamesApart(rt) && DistinctDeployments(rt.deployments) {
      forall d | d in rt.deployments
        ensures Tally(ReadyReplicas(rt, found), d.name) == ReadyCount(rt, found, d)
      {
        ReadyIsCardinality(rt, found, d);
      }
    }
    hide ReadyCount, ReadyReplicas, NamesApart, DistinctDeployments;
    var s := NewStatus(rt, Running, found, false);
    if s.phase != Running {
      var d :| d in rt.deployments && Tally(ReadyReplicas(rt, found), d.name) < d.replicas;
      var i :| 0 <= i < |rt.deployments| && rt.deployments[i] == d;
      assert s.deployments[i].phase == Degraded;
      assert s.deployments[i] in s.deployments;
    }
  }

  /** With an error every resource reports Failed. */
  lemma FailedEverywhere(rt: Runtime, requested: Phase, found: Discovered)
    ensures var s := NewStatus(rt, requested, found, true);
            && s.phase == Failed
            && (forall d :: d in s.deployments ==> d.phase == Failed)
            && (forall r :: r in s.services + s.ingress ==> r.phase == Failed)
  {
    hide ReadyReplicas;
  }

  method NewStatusWithOptions(rt: Runtime, requested: Phase, found: Discovered, failed: bool) returns (status: Status)
    ensures status == NewStatus(rt, requested, found, failed)
  {
    var ready := ReadyReplicasByDeployment(rt, found);
    hide ReadyReplicas, ServiceReady, IngressReady;
    var phase := requested;
    if failed {
      phase := Failed;
    } else if phase == Running {
      var all := AllReady(rt.deployments, ready);
      if !all {
        phase := Degraded;
      }
    }
    var ds := [];
    for i := 0 to |rt.deployments|
      invariant |ds| == i
      invariant forall j :: 0 <= j < i ==> ds[j] == DeploymentStatusOf(phase, ready, failed, rt.deployments[j])
    {
      var d := rt.deployments[i];
      var n := Tally(ready, d.name);
      ds := ds + [DeploymentStatus(d.name, n, d.replicas, d.revision, ResourcePhase(phase, n >= d.replicas, failed))];
    }
    var ss := [];
    for i := 0 to |rt.services|
      invariant |ss| == i
      invariant forall j :: 0 <= j < i ==> ss[j] == ServiceStatusOf(rt, phase, found, failed, rt.services[j])
    {
      ss := ss + [ServiceStatusOf(rt, phase, found, failed, rt.services[i])];
    }
    var gs := [];
    for i := 0 to |rt.ingress|
      invariant |gs| == i
      invariant forall j :: 0 <= j < i ==> gs[j] == IngressStatusOf(rt, phase, found, failed, rt.ingress[j])
    {
      gs := gs + [IngressStatusOf(rt, phase, found, failed, rt.ingress[i])];
    }
    status := Status(rt.generation, phase, ds, ss, gs);
  }

  method AllReady(ds: seq<Deployment>, ready: map<string, nat>) returns (all: bool)
    ensures all <==> AllDeploymentsReady(ds, ready)
  {
    for i := 0 to |ds|
      invariant forall j :: 0 <= j < i ==> Tally(ready, ds[j].name) >= ds[j].replicas
    {
      if Tally(ready, ds[i].name) < ds[i].replicas {
        return false;
      }
    }
    return true;
  }
}
