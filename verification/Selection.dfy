/** Which deployments a service selects, and which of their ports it reaches, told of labels and
    port declarations alone. */
module Selection {
  import opened Text
  import opened Sorting
  import opened Runtimes

  /** Every entry of the selector is a label of the deployment, up to blanks; a label that is
      missing reads as blank. */
  predicate Picks(s: Service, d: Deployment) {
    && s.selector != map[]
    && forall key :: key in s.selector ==>
         TrimSpace(if key in d.selector then d.selector[key] else "") == TrimSpace(s.selector[key])
  }

  predicate Offers(d: Deployment, name: string, port: int) {
    port > 0 && exists p :: p in d.ports && p.name == name && p.port == port
  }

  /** The service selects the deployment, which offers the port, and none before it offers any. */
  ghost predicate First(rt: Runtime, s: Service, d: Deployment, name: string, port: int) {
    && Picks(s, d) && Offers(d, name, port)
    && forall e, n :: e in rt.deployments && Picks(s, e) && Less(e.name, d.name) ==> !Offers(e, name, n)
  }

  lemma PicksMatch(s: Service, d: Deployment)
    ensures LabelsMatch(d.selector, s.selector) <==> Picks(s, d)
  {
    hide TrimSpace;
  }

  lemma {:induction false} PortOfOffers(name: string, ports: seq<ContainerPort>)
    ensures var port := PortOf(name, ports);
            if port > 0 then exists p :: p in ports && p.name == name && p.port == port
            else forall p :: p in ports && p.name == name ==> p.port <= 0
  {
    if ports != [] {
      PortOfOffers(name, ports[1..]);
      assert ports == [ports[0]] + ports[1..];
    }
  }

  /** The first deployment of a list that offers the name gives the port. */
  lemma {:induction false} NamedPortFirst(name: string, ds: seq<Deployment>)
    ensures var port := NamedPort(name, ds);
            if port > 0 then
              exists i :: 0 <= i < |ds| && Offers(ds[i], name, port) && (forall j, n :: 0 <= j < i ==> !Offers(ds[j], name, n))
            else forall i, n :: 0 <= i < |ds| ==> !Offers(ds[i], name, n)
  {
    if ds != [] {
      PortOfOffers(name, ds[0].ports);
      NamedPortFirst(name, ds[1..]);
      hide PortOf;
      var port := NamedPort(name, ds);
      if PortOf(name, ds[0].ports) > 0 {
        assert Offers(ds[0], name, port);
      } else if port > 0 {
        var i :| 0 <= i < |ds| - 1 && Offers(ds[1..][i], name, port) && forall j, n :: 0 <= j < i ==> !Offers(ds[1..][j], name, n);
        assert Offers(ds[i + 1], name, port);
        forall j, n | 0 <= j < i + 1
          ensures !Offers(ds[j], name, n)
        {
          if j > 0 {
            assert !Offers(ds[1..][j - 1], name, n);
          }
        }
      } else {
        forall i, n | 0 <= i < |ds|
          ensures !Offers(ds[i], name, n)
        {
          if i > 0 {
            assert !Offers(ds[1..][i - 1], name, n);
          }
        }
      }
    }
  }

  lemma NameOrderWeak()
    ensures WeakOrder(ByName())
  {
    forall a: string, b: string
      ensures Less(a, b) ==> !Less(b, a)
    {
      if Less(a, b) && Less(b, a) {
        LessTransitive(a, b, a);
      }
    }
    forall a: string, b: string, c: string | !Less(b, a) && !Less(c, b)
      ensures !Less(c, a)
    {
      LessTotal(a, b);
      LessTotal(b, c);
      LessTransitive(a, b, c);
      LessTransitive(c, a, c);
      LessTransitive(a, c, a);
    }
  }

  /** The port is that of the document: its number; or, for a name, that of the first deployment
      in name order that the service selects and that offers the name. It is missing, which is
      zero, exactly if there is neither. */
  lemma TargetPortExactly(rt: Runtime, s: Service)
    ensures var port := TargetPort(s, Matching(rt, s.selector));
            match s.targetPort
            case Number(n) => port == if n > 0 then n else 0
            case Named(raw) =>
              var name := TrimSpace(raw);
              if port > 0 then
                name != "" && exists d :: d in rt.deployments && First(rt, s, d, name, port)
              else
                name == "" || forall d, n :: d in rt.deployments && Picks(s, d) ==> !Offers(d, name, n)
  {
    var ds := Matching(rt, s.selector);
    forall d
      ensures d in ds <==> d in rt.deployments && Picks(s, d)
    {
      MatchingExactly(rt, s.selector, d);
      PicksMatch(s, d);
    }
    if s.targetPort.Named? {
      NameOrderWeak();
      SortSorted(Filter(rt.deployments, Selects(s.selector)), ByName());
      NamedPortExactly(rt, s, ds, TrimSpace(s.targetPort.name));
    }
  }

  lemma SortedAfter(ds: seq<Deployment>, i: nat, j: nat)
    requires Sorted(ds, ByName()) && i <= j < |ds|
    ensures !Less(ds[j].name, ds[i].name)
  {
    LessTransitive(ds[i].name, ds[i].name, ds[i].name);
    assert i < j ==> !ByName()(ds[j], ds[i]);
  }

  lemma NamedPortExactly(rt: Runtime, s: Service, ds: seq<Deployment>, name: string)
    requires Sorted(ds, ByName()) && forall d :: d in ds <==> d in rt.deployments && Picks(s, d)
    ensures var port := NamedPort(name, ds);
            if port > 0 then exists d :: d in rt.deployments && First(rt, s, d, name, port)
            else forall d, n :: d in rt.deployments && Picks(s, d) ==> !Offers(d, name, n)
  {
    NamedPortFirst(name, ds);
    hide Picks, Offers, NamedPort, Sorted;
    var port := NamedPort(name, ds);
    if port > 0 {
      var i :| 0 <= i < |ds| && Offers(ds[i], name, port) && forall j, n :: 0 <= j < i ==> !Offers(ds[j], name, n);
      var d := ds[i];
      assert d in ds;
      forall e, n | e in rt.deployments && Picks(s, e) && Less(e.name, d.name)
        ensures !Offers(e, name, n)
      {
        assert e in ds;
        var j :| 0 <= j < |ds| && ds[j] == e;
        if i <= j {
          SortedAfter(ds, i, j);
        }
      }
      assert First(rt, s, d, name, port);
    } else {
      forall d, n | d in rt.deployments && Picks(s, d)
        ensures !Offers(d, name, n)
      {
        assert d in ds;
      }
    }
  }
}
