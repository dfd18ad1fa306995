/** What Remove and Shutdown leave as it was, whether or not they work: everything of the other
    runtimes, and all but the proxy. */
module Apartness {
  import opened Text
  import opened Runtimes
  import opened Routing
  import opened RouteTable
  import opened Statuses
  import opened Docker
  import opened Controller
  import opened Invariants
  import opened Safety
  import Quantities
  import Rollbacks
  import Rollout

  /** The entries of all other keys are the same. */
  ghost predicate SameElse<V(!new)>(a: map<string, V>, b: map<string, V>, path: string) {
    forall k :: k != path ==> (k in a <==> k in b) && (k in a ==> a[k] == b[k])
  }

  /** The routes of all other runtimes are the same, port by port and in order. */
  ghost predicate OtherRoutes(a: map<int, seq<Route>>, b: map<int, seq<Route>>, key: Key) {
    forall p, r: Route :: r.key != key ==> multiset(RoutesAt(a, p))[r] == multiset(RoutesAt(b, p))[r]
  }

  lemma RoutesKept(routes: map<int, seq<Route>>, key: Key)
    ensures OtherRoutes(routes, WithoutKey(routes, key), key)
  {
    forall p, r: Route | r.key != key
      ensures multiset(RoutesAt(routes, p))[r] == multiset(RoutesAt(WithoutKey(routes, key), p))[r]
    {
      FilterCount(RoutesAt(routes, p), NotOf(key), r);
      assert RoutesAt(WithoutKey(routes, key), p) == Others(RoutesAt(routes, p), key);
    }
  }

  /** A key's prefix takes in no entry of another valid key, however the key is written. */
  lemma PrefixApart(key: Key, other: Key, service: string)
    requires ValidKey(other) && SlashFree(service) && key != other
    ensures !(key.Path() + "/" <= EndpointKey(other, service))
  {
    DnsLabelSlashFree(other.namespace);
    DnsLabelSlashFree(other.name);
    var p, e := key.Path() + "/", EndpointKey(other, service);
    if p <= e {
      var i, j := |other.namespace|, |other.namespace| + 1 + |other.name|;
      assert e == other.namespace + "/" + other.name + "/" + service;
      assert forall k :: 0 <= k < |e| && k != i && k != j ==> e[k] != '/';
      assert p[|key.namespace|] == '/' && p[|p| - 1] == '/';
      assert |p| - 1 == j && |key.namespace| == i;
      assert key.Path() == p[..j] == e[..j] == other.Path();
      KeyPathInjective(other, key);
    }
  }

  /** The cache entries of another runtime's services are the same. */
  ghost predicate CacheSame(a: map<string, seq<Endpoint>>, b: map<string, seq<Endpoint>>, key: Key) {
    forall other: Key, service :: other != key && ValidKey(other) && SlashFree(service) ==>
      var e := EndpointKey(other, service);
      (e in a <==> e in b) && (e in a ==> a[e] == b[e])
  }

  lemma CacheKept(endpoints: map<string, seq<Endpoint>>, key: Key)
    ensures CacheSame(endpoints, DropEndpoints(endpoints, key), key)
  {
    forall other: Key, service | other != key && ValidKey(other) && SlashFree(service)
      ensures !(key.Path() + "/" <= EndpointKey(other, service))
    {
      PrefixApart(key, other, service);
    }
    hide EndpointKey, ValidKey;
  }

  /** Specs, statuses, restart records and containers, but for the entries of one key. */
  ghost predicate ClusterElse(c: Cluster, e: Cluster, path: string) {
    && SameElse(c.specs, e.specs, path) && SameElse(c.statuses, e.statuses, path)
    && e.restarts == c.restarts && e.containers == c.containers
  }

  lemma LookupKeyed(o: Oracle, w: World, key: Key)
    requires Inv(w)
    ensures var rt := Lookup(o, w, key.Path());
            && (rt.value.Some? ==> rt.value.value.key.Path() == key.Path())
            && rt.cluster == w.cluster.(tick := rt.cluster.tick, now := rt.cluster.now)
  {
    hide WellFormed, Rebuilt;
  }

  lemma MarkedElse(c: Cluster, rt: Runtime, path: string)
    requires rt.key.Path() == path
    ensures ClusterElse(c, WritePhase(c, rt, Terminating), path)
  {
    hide NewStatus;
  }

  lemma ForgottenElse(b: Cluster, c: Cluster, d: Cluster, path: string)
    requires ClusterElse(c, d, path) && c == b.(tick := c.tick, now := c.now)
    ensures ClusterElse(b, Forget(d, path), path)
  {
  }

  lemma ItselfElse(c: Cluster, path: string)
    ensures ClusterElse(c, c, path)
  {
  }

  lemma LessElse(routed: Specs, path: string)
    ensures SameElse(routed, routed - {path}, path)
  {
  }

  lemma VanishingApart(o: Oracle, w: World, key: Key)
    requires Inv(w)
    ensures var v := Vanishing(o, w, key);
            && ClusterElse(w.cluster, v.world.cluster, key.Path())
            && v.world.store == w.store && SameElse(w.routed, v.world.routed, key.Path())
            && v.world.table == Drop(w.table, key)
            && (v.rt.Some? ==> v.rt.value.key.Path() == key.Path())
  {
    hide Inv, NewStatus, Drop, Lookup, WritePhase, Forget, ClusterElse, SameElse;
    LookupKeyed(o, w, key);
    var path, rt := key.Path(), Lookup(o, w, key.Path());
    LessElse(w.routed, path);
    if rt.value.Some? {
      MarkedElse(rt.cluster, rt.value.value, path);
    } else {
      ItselfElse(rt.cluster, path);
    }
    ForgottenElse(w.cluster, rt.cluster, if rt.value.Some? then WritePhase(rt.cluster, rt.value.value, Terminating) else rt.cluster, path);
  }

  lemma DeleteElse(o: Oracle, w: World, key: Key)
    ensures var deleted := DeleteRuntime(o, w, key);
            var v := if deleted.ok then SaveOther(o, deleted.world).world else deleted.world;
            && v.cluster == w.cluster.(tick := v.cluster.tick, now := v.cluster.now)
            && SameElse(w.store, v.store, key.Path()) && v.table == w.table && v.routed == w.routed
  {
  }

  /** No container is new or altered, and those that are gone have the runtime's labels. */
  ghost predicate OwnGone(a: Docker.Containers, b: Docker.Containers, rt: Docker.Option<Runtime>) {
    && (forall n :: n in b ==> n in a && b[n] == a[n])
    && forall n :: n in a && n !in b ==> rt.Some? && Owned(a[n], rt.value.key)
  }

  lemma PurgeOwn(o: Oracle, c: Cluster, rt: Runtime)
    ensures var e := Purge(o, c, OwnedAll(c.containers, rt.key)).cluster;
            && OwnGone(c.containers, e.containers, Quantities.Some(rt))
            && e.specs == c.specs && e.statuses == c.statuses && e.restarts == c.restarts
  {
    var names := OwnedAll(c.containers, rt.key);
    Rollbacks.PurgeExact(o, c, names);
    PurgeKeeps(o, c, names);
    hide Purge, Owned;
  }

  lemma ClearingApart(o: Oracle, w: World, key: Key, rt: Docker.Option<Runtime>)
    ensures var v := Clearing(o, w, key, rt).world;
            && v.cluster.specs == w.cluster.specs && v.cluster.statuses == w.cluster.statuses
            && SameElse(w.store, v.store, key.Path()) && v.table == w.table && v.routed == w.routed
            && OwnGone(w.cluster.containers, v.cluster.containers, rt)
  {
    hide Purge, OwnedAll, Owned, DeleteRuntime, SaveOther;
    var purged := if rt.Some? then Purge(o, w.cluster, OwnedAll(w.cluster.containers, rt.value.key)) else Outcome(w.cluster, true);
    if rt.Some? {
      PurgeOwn(o, w.cluster, rt.value);
    }
    DeleteElse(o, w.(cluster := purged.cluster), key);
  }

  lemma PurgeKeeps(o: Oracle, c: Cluster, names: set<string>)
    ensures var e := Purge(o, c, names).cluster;
            e.specs == c.specs && e.statuses == c.statuses && e.restarts == c.restarts
  {
    var listed := ListNames(o, c, names);
    if listed.value.Some? {
      RemovalKeeps(o, listed.cluster, listed.value.value);
    }
  }

  lemma {:induction false} RemovalKeeps(o: Oracle, c: Cluster, q: seq<string>)
    ensures var e := Rollout.RemoveEach(o, c, q).cluster;
            e.specs == c.specs && e.statuses == c.statuses && e.restarts == c.restarts
  {
    if q != [] {
      RemovalKeeps(o, c, q[..|q| - 1]);
    }
  }

  /** A Remove, whether or not it works, leaves of every other runtime all it has: spec, status,
      spec file, routes and cached endpoints. It starts and alters no container, and removes
      none but those with the labels of the runtime. */
  lemma RemoveKeepsOthers(o: Oracle, w: World, key: Key)
    requires Inv(w)
    ensures var v, path := Remove(o, w, key).world, key.Path();
            && SameElse(w.cluster.specs, v.cluster.specs, path) && SameElse(w.cluster.statuses, v.cluster.statuses, path)
            && SameElse(w.store, v.store, path) && SameElse(w.routed, v.routed, path)
            && OtherRoutes(w.table.routes, v.table.routes, key) && CacheSame(w.table.endpoints, v.table.endpoints, key)
            && (forall n :: n in v.cluster.containers ==> n in w.cluster.containers && v.cluster.containers[n] == w.cluster.containers[n])
            && forall n :: n in w.cluster.containers && n !in v.cluster.containers ==>
                 var x := w.cluster.containers[n];
                 x.managed && Key(x.namespace, x.instance).Path() == path
  {
    hide Inv, Vanishing, Clearing, WithoutKey, DropEndpoints, EndpointKey, ValidKey;
    if key.name != "" {
      VanishingApart(o, w, key);
      var gone := Vanishing(o, w, key);
      ClearingApart(o, gone.world, key, gone.rt);
      RoutesKept(w.table.routes, key);
      CacheKept(w.table.endpoints, key);
    }
  }

  /** A Shutdown stops the proxy, routes and listeners, and touches nothing else: specs, statuses,
      files, cached endpoints and containers are as they were. */
  lemma ShutdownStops(o: Oracle, w: World)
    ensures var v := Shutdown(o, w).world;
            && v.table.routes == map[] && v.table.servers == map[] && v.routed == map[]
            && v.table.endpoints == w.table.endpoints && v.store == w.store
            && v.cluster == w.cluster.(tick := v.cluster.tick, now := v.cluster.now)
    ensures forall port, host, path :: FirstMatch(RoutesAt(Shutdown(o, w).world.table.routes, port), w.cluster.specs.Keys, host, path) == 0
    ensures forall port :: RoutesAt(Shutdown(o, w).world.table.routes, port) == []
  {
  }
}
