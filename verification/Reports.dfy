/** A status, told of the document and of the endpoints found: what each deployment, service and
    ingress is reported as. */
module Reports {
  import opened Sorting
  import opened Runtimes
  import opened Statuses
  import opened Selection

  /** The replicas of the deployments that a service selects, together. */
  ghost function Behind(ds: seq<Deployment>, s: Service): (n: int) {
    if ds == [] then 0
    else Behind(ds[..|ds| - 1], s) + if Picks(s, ds[|ds| - 1]) then ds[|ds| - 1].replicas else 0
  }

  lemma {:induction false} InsertDesired(x: Deployment, ds: seq<Deployment>, less: (Deployment, Deployment) -> bool)
    ensures Desired(Insert(x, ds, less)) == x.replicas + Desired(ds)
  {
    if ds != [] && less(ds[0], x) {
      InsertDesired(x, ds[1..], less);
      assert Insert(x, ds, less)[1..] == Insert(x, ds[1..], less);
    } else {
      assert ([x] + ds)[1..] == ds;
    }
  }

  lemma {:induction false} SortDesired(ds: seq<Deployment>, less: (Deployment, Deployment) -> bool)
    ensures Desired(SortBy(ds, less)) == Desired(ds)
  {
    if ds != [] {
      SortDesired(ds[1..], less);
      InsertDesired(ds[0], SortBy(ds[1..], less), less);
    }
  }

  lemma {:induction false} DesiredSnoc(ds: seq<Deployment>, d: Deployment)
    ensures Desired(ds + [d]) == Desired(ds) + d.replicas
  {
    if ds == [] {
      assert [] + [d] == [d];
    } else {
      assert (ds + [d])[1..] == ds[1..] + [d];
      DesiredSnoc(ds[1..], d);
    }
  }

  lemma {:induction false} FilterDesired(ds: seq<Deployment>, s: Service)
    ensures Desired(Filter(ds, Selects(s.selector))) == Behind(ds, s)
  {
    if ds != [] {
      var u, d := ds[..|ds| - 1], ds[|ds| - 1];
      FilterDesired(u, s);
      FilterSnoc(u, d, Selects(s.selector));
      assert ds == u + [d];
      PicksMatch(s, d);
      assert Filter(u, Selects(s.selector)) + [] == Filter(u, Selects(s.selector));
      hide Picks, LabelsMatch;
      DesiredSnoc(Filter(u, Selects(s.selector)), d);
    }
  }

  lemma DesiredBehind(rt: Runtime, s: Service)
    ensures Desired(Matching(rt, s.selector)) == Behind(rt.deployments, s)
  {
    var picked := Filter(rt.deployments, Selects(s.selector));
    SortDesired(picked, ByName());
    FilterDesired(rt.deployments, s);
  }

  /** A service has as many endpoints as there are replicas behind it. */
  ghost predicate Full(rt: Runtime, found: Discovered, s: Service) {
    var n := Behind(rt.deployments, s);
    n == 0 || (if s.name in found then |found[s.name]| else 0) >= n
  }

  lemma ServiceFull(rt: Runtime, found: Discovered, s: Service)
    ensures ServiceReady(rt, s, found) <==> Full(rt, found, s)
  {
    DesiredBehind(rt, s);
    hide Desired, Matching, Behind;
  }

  /** A report of what is running, part by part: names, ports and revisions are those of the
      document; a deployment is Running if as many as its replicas are ready, a service if it
      has as many endpoints as replicas behind it, an ingress if that holds of the service of
      each of its routes; and what is not Running is Degraded. */
  lemma RunningTold(rt: Runtime, found: Discovered)
    ensures var st := NewStatus(rt, Running, found, false);
            && |st.deployments| == |rt.deployments| && |st.services| == |rt.services| && |st.ingress| == |rt.ingress|
            && (forall i :: 0 <= i < |rt.deployments| ==>
                  var d, x := rt.deployments[i], st.deployments[i];
                  && x.name == d.name && x.replicas == d.replicas && x.revision == d.revision
                  && x.phase == if x.ready >= d.replicas then Running else Degraded)
            && (forall i :: 0 <= i < |rt.services| ==>
                  var s, x := rt.services[i], st.services[i];
                  && x.name == s.name && x.listenPort == s.listenPort
                  && x.phase == if Full(rt, found, s) then Running else Degraded)
            && (forall i :: 0 <= i < |rt.ingress| ==>
                  var g, x := rt.ingress[i], st.ingress[i];
                  && x.name == g.name && x.listenPort == g.listenPort
                  && x.phase == if forall r :: r in g.routes ==>
                                     exists s :: s in rt.services && s.name == r.service && Full(rt, found, s)
                                then Running else Degraded)
  {
    hide Full, ServiceReady, ReadyReplicas;
    forall s: Service
      ensures ServiceReady(rt, s, found) <==> Full(rt, found, s)
    {
      ServiceFull(rt, found, s);
    }
    var st := NewStatus(rt, Running, found, false);
    assert st.phase == Running || st.phase == Degraded;
  }

  /** The ready count of a deployment is the number of its canonical names found. */
  lemma ReadyTold(rt: Runtime, requested: Phase, found: Discovered, i: nat)
    requires i < |rt.deployments| && NamesApart(rt) && DistinctDeployments(rt.deployments)
    ensures NewStatus(rt, requested, found, false).deployments[i].ready == ReadyCount(rt, found, rt.deployments[i])
  {
    ReadyIsCardinality(rt, found, rt.deployments[i]);
    hide ReadyReplicas, ReadyCount;
  }

  /** While something is under way, everything is reported as that. */
  lemma UnderWayTold(rt: Runtime, requested: Phase, found: Discovered)
    requires requested in {Pending, Pulling, Starting, Updating, Terminating}
    ensures var st := NewStatus(rt, requested, found, false);
            && st.phase == requested
            && (forall x :: x in st.deployments ==> x.phase == requested)
            && (forall x :: x in st.services + st.ingress ==> x.phase == requested)
  {
    hide ReadyReplicas, ServiceReady, IngressReady;
  }
}
