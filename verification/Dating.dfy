/** Generations over whole runs: no container is labelled with a later generation than its
    runtime's spec, which is what lets a rollback tell new containers from old ones. And what
    one Apply can do to the containers at all. */
module Dating {
  import opened Runtimes
  import opened RouteTable
  import opened Statuses
  import opened Docker
  import opened Controller
  import opened Effects
  import opened Invariants
  import opened Safety
  import opened Reconciliation
  import opened Rollbacks
  import Rollout
  import Endpoints
  import Quantities
  import Runs
  import Serving

  // ------------------------------------------------- containers of one Apply

  lemma WithinLost(a: Containers, b: Containers, m: Containers, rt: Runtime, names: set<string>, gone: set<string>)
    requires Within(a, b, rt, names) && SubMap(m, b)
    requires forall n :: n in gone ==> n in b && Owned(b[n], rt.key)
    requires forall n :: n in b && n !in gone ==> n in m
    ensures Within(a, m, rt, names)
  {
    hide Owned;
    forall n | n in m
      ensures (n in a && m[n] == a[n]) || MadeBy(m[n], rt)
    {
      assert n in b && b[n] == m[n];
    }
  }

  lemma RollingContainers(o: Oracle, cfg: Config, w: World, rt: Runtime, prior: Prior)
    requires Current(w.cluster, rt)
    ensures Within(w.cluster.containers, Rolling(o, cfg, w, rt, prior).world.cluster.containers, rt, NamesOfAll(rt))
  {
    ReconcileEffect(o, cfg.selfHeal, w.cluster, rt);
    var out := Rollout.Reconcile(o, cfg.selfHeal, w.cluster, rt);
    var rolled := w.(cluster := out.cluster);
    var m := out.cluster.containers;
    assert Within(w.cluster.containers, m, rt, NamesOfAll(rt));
    hide Pass, Rollout.Reconcile, Within, NamesOf, Rollback, Discovering, RecordFailed, SubMap;
    if out.ok {
      DiscoveringContainers(o, rolled, rt);
    } else if prior.Prior? {
      RollbackEffect(o, rolled, rt, prior);
      var gone := OfGeneration(m, rt.key, rt.generation);
      WithinLost(w.cluster.containers, m, Rollback(o, rolled, rt, prior).world.cluster.containers, rt, NamesOfAll(rt), gone);
    } else {
      FailedContainers(o, rolled, rt);
    }
  }

  lemma FailedContainers(o: Oracle, w: World, rt: Runtime)
    ensures RecordFailed(o, w, rt).cluster.containers == w.cluster.containers
  {
    hide NewStatus;
  }

  lemma FinishContainers(o: Oracle, w: World, rt: Runtime, found: Discovered)
    ensures Finish(o, w, rt, found).world.cluster.containers == w.cluster.containers
  {
    hide NewStatus;
  }

  lemma DiscoveringContainers(o: Oracle, w: World, rt: Runtime)
    ensures Discovering(o, w, rt).world.cluster.containers == w.cluster.containers
  {
    Endpoints.RefreshOnlyReads(o, w.cluster, rt, |rt.services|);
    hide Endpoints.Refresh, Replace, StartPorts, Ascending, RouteMap, Finish, RecordFailed;
    var found := Endpoints.Refresh(o, w.cluster, rt, |rt.services|);
    var seen := w.(cluster := found.cluster);
    if found.value.None? {
      FailedContainers(o, seen, rt);
    } else {
      var rep := Replace(w.table, rt, found.value.value, RouteMap(rt));
      var c := Rewrite(seen.cluster, rt);
      var up := StartPorts(rep.table, Ascending(rep.starts), o.bind, c.tick);
      var routed := seen.(cluster := Skip(c, up.attempts), table := up.table, routed := w.routed[rt.key.Path() := rt]);
      FailedContainers(o, routed, rt);
      FinishContainers(o, routed.(table := StopPorts(up.table, rep.stops)), rt, found.value.value);
    }
  }

  lemma CarryContainers(o: Oracle, cfg: Config, w: World, rt: Runtime, prior: Prior)
    ensures Within(w.cluster.containers, Carry(o, cfg, w, rt, prior).world.cluster.containers, rt, NamesOfAll(rt))
  {
    BegunEffect(o, w, rt);
    var phase := if rt.key.Path() in w.cluster.specs then Updating else Pending;
    var network := EnsureNetwork(o, WritePhase(w.cluster, rt, phase));
    assert network.cluster.containers == w.cluster.containers by { hide NewStatus; }
    hide Within, NamesOf, Rolling, RecordFailed, WritePhase, EnsureNetwork;
    if network.ok {
      RollingContainers(o, cfg, w.(cluster := Begun(o, w, rt)), rt, prior);
    } else {
      FailedContainers(o, w.(cluster := network.cluster), rt);
      WithinItself(w.cluster.containers, rt, NamesOfAll(rt));
    }
  }

  lemma WithinItself(m: Containers, rt: Runtime, names: set<string>)
    ensures Within(m, m, rt, names)
  {
  }

  /** Whatever fails and however it ends, an Apply alters no container, starts containers only
      for its own runtime and generation, and removes a container of another owner only from
      under one of the runtime's canonical names. */
  lemma ApplyContainers(o: Oracle, cfg: Config, w: World, rt: Runtime, filed: Option<Status>)
    ensures var given := WithGeneration(w.cluster.specs, rt);
            Within(w.cluster.containers, Apply(o, cfg, w, rt, filed).world.cluster.containers, given, NamesOfAll(given))
  {
    var given := WithGeneration(w.cluster.specs, rt);
    hide Accepted, Apply, Previous, Carry, Within, NamesOf;
    if Accepted(cfg, w, rt) {
      AcceptedCarries(o, cfg, w, rt, filed);
      var p := Previous(o, w, rt.key.Path(), filed);
      assert p.cluster.containers == w.cluster.containers by { PreviousContainers(o, w, rt.key.Path(), filed); }
      CarryContainers(o, cfg, w.(cluster := p.cluster), given, p.prior);
    } else {
      Runs.RejectedIsSilent(o, cfg, w, rt, filed);
      WithinItself(w.cluster.containers, given, NamesOfAll(given));
    }
  }

  lemma PreviousContainers(o: Oracle, w: World, path: string, filed: Option<Status>)
    ensures Previous(o, w, path, filed).cluster.containers == w.cluster.containers
  {
  }

  // --------------------------------------------------------- dated throughout

  lemma WithinDated(a: Containers, b: Containers, rt: Runtime, key: Key, g: int)
    requires exists names :: Within(a, b, rt, names)
    requires UpTo(a, key, g) && (key == rt.key ==> rt.generation <= g)
    ensures UpTo(b, key, g)
  {
    var names :| Within(a, b, rt, names);
    forall n | n in b && Owned(b[n], key)
      ensures b[n].generation <= g
    {
      if !(n in a && b[n] == a[n]) {
        assert MadeBy(b[n], rt);
        assert rt.key == key;
      }
    }
  }

  /** An update that went back has left no container of its own, later generation. */
  ghost predicate Cleared(w: World, v: World, rt: Runtime) {
    && rt.key.Path() in w.cluster.specs
    && (rt.generation <= w.cluster.specs[rt.key.Path()].generation || OfGeneration(v.cluster.containers, rt.key, rt.generation) == {})
  }

  /** What keeps containers dated: generations that never go back, and a failed update that
      goes back without leaving a container. */
  ghost predicate Advances(o: Oracle, cfg: Config, w: World, rt: Runtime, filed: Option<Status>) {
    var path, given, r := rt.key.Path(), WithGeneration(w.cluster.specs, rt), Apply(o, cfg, w, rt, filed);
    if GoesBack(r.ending) then Cleared(w, r.world, given)
    else if path in w.cluster.specs then w.cluster.specs[path].generation <= given.generation
    else UpTo(w.cluster.containers, rt.key, given.generation)
  }

  lemma WentBack(o: Oracle, cfg: Config, w: World, rt: Runtime, filed: Option<Status>)
    requires Inv(w) && rt.key.Path() in w.cluster.specs && GoesBack(Apply(o, cfg, w, rt, filed).ending)
    ensures Apply(o, cfg, w, rt, filed).world.cluster.specs == w.cluster.specs
  {
    hide Inv, Accepted, Apply, WithGeneration, Shows;
    if Accepted(cfg, w, rt) {
      var b := ApplyShows(o, cfg, w, rt, filed);
    } else {
      Runs.RejectedIsSilent(o, cfg, w, rt, filed);
    }
  }

  /** After an update that went back, whether or not its rollback completed, containers are
      dated exactly if none of the failed generation is left, or that is no later one. */
  lemma WentBackDated(o: Oracle, cfg: Config, w: World, rt: Runtime, filed: Option<Status>)
    requires Inv(w) && Dated(w) && rt.key.Path() in w.cluster.specs && GoesBack(Apply(o, cfg, w, rt, filed).ending)
    ensures var v := Apply(o, cfg, w, rt, filed).world;
            Dated(v) <==> Cleared(w, v, WithGeneration(w.cluster.specs, rt))
  {
    var path, v, given := rt.key.Path(), Apply(o, cfg, w, rt, filed).world, WithGeneration(w.cluster.specs, rt);
    WentBack(o, cfg, w, rt, filed);
    ApplyContainers(o, cfg, w, rt, filed);
    KeyedSpecs(w);
    assert given.key == rt.key && ValidKey(rt.key) by { WentBackValid(o, cfg, w, rt, filed); }
    hide Apply, WithGeneration, Inv, ValidKey, NamesOf, Within, Keyed;
    BackDated(w.cluster.specs, path, w.cluster.containers, v.cluster.containers, given);
  }

  lemma WentBackValid(o: Oracle, cfg: Config, w: World, rt: Runtime, filed: Option<Status>)
    requires GoesBack(Apply(o, cfg, w, rt, filed).ending)
    ensures WithGeneration(w.cluster.specs, rt).key == rt.key && ValidKey(rt.key)
  {
    hide Apply, Carry;
    if Accepted(cfg, w, rt) {
      ValidGiven(cfg, w, rt);
    } else {
      Runs.RejectedIsSilent(o, cfg, w, rt, filed);
    }
  }

  lemma BackDated(specs: map<string, Runtime>, path: string, a: Containers, b: Containers, rt: Runtime)
    requires Keyed(specs) && ValidKey(rt.key) && path == rt.key.Path() && path in specs
    requires forall k :: k in specs ==> UpTo(a, specs[k].key, specs[k].generation)
    requires Within(a, b, rt, NamesOfAll(rt))
    ensures (forall k :: k in specs ==> UpTo(b, specs[k].key, specs[k].generation))
            <==> rt.generation <= specs[path].generation || OfGeneration(b, rt.key, rt.generation) == {}
  {
    var g := specs[path].generation;
    hide NamesOf, Within, ValidKey;
    KeyPathInjective(rt.key, specs[path].key);
    forall k | k in specs && k != path
      ensures UpTo(b, specs[k].key, specs[k].generation)
    {
      WithinDated(a, b, rt, specs[k].key, specs[k].generation);
    }
    BackUpTo(a, b, rt, g);
  }

  lemma BackUpTo(a: Containers, b: Containers, rt: Runtime, g: int)
    requires UpTo(a, rt.key, g) && Within(a, b, rt, NamesOfAll(rt))
    ensures UpTo(b, rt.key, g) <==> rt.generation <= g || OfGeneration(b, rt.key, rt.generation) == {}
  {
    hide NamesOf;
    var left := OfGeneration(b, rt.key, rt.generation);
    if rt.generation > g {
      if left != {} {
        var n :| n in left;
        assert !UpTo(b, rt.key, g);
      } else {
        forall n | n in b && Owned(b[n], rt.key)
          ensures b[n].generation <= g
        {
          assert n !in left;
        }
      }
    }
  }

  /** A rollback that completes leaves none. */
  lemma CompletedIsCleared(o: Oracle, cfg: Config, w: World, rt: Runtime, filed: Option<Status>)
    requires Inv(w) && rt.key.Path() in w.cluster.specs && WithGeneration(w.cluster.specs, rt).generation > 0
    requires Apply(o, cfg, w, rt, filed).ending == RolledBack
    ensures Cleared(w, Apply(o, cfg, w, rt, filed).world, WithGeneration(w.cluster.specs, rt))
  {
    var v, given := Apply(o, cfg, w, rt, filed).world, WithGeneration(w.cluster.specs, rt);
    assert given.key == rt.key;
    hide Inv, Apply, WithGeneration, SubMap, NamesOf;
    RollbackInverse(o, cfg, w, rt, filed);
    assert forall n :: n !in OfGeneration(v.cluster.containers, rt.key, given.generation);
  }

  /** The failed generation is assigned again. So the next update's is carried by no container
      yet exactly if the containers are dated, which a failed cleanup may have cost. */
  lemma AssignedAgain(o: Oracle, cfg: Config, w: World, rt: Runtime, filed: Option<Status>)
    requires Inv(w) && Dated(w) && rt.generation == 0 && rt.key.Path() in w.cluster.specs
    requires 0 < w.cluster.specs[rt.key.Path()].generation < Quantities.MAX_INT64
    requires GoesBack(Apply(o, cfg, w, rt, filed).ending)
    ensures var v, given := Apply(o, cfg, w, rt, filed).world, WithGeneration(w.cluster.specs, rt);
            && NextGeneration(v.cluster.specs, rt.key.Path()) == given.generation
            && (Dated(v) <==> OfGeneration(v.cluster.containers, rt.key, given.generation) == {})
  {
    WentBack(o, cfg, w, rt, filed);
    WentBackDated(o, cfg, w, rt, filed);
    hide Apply, Inv, Dated;
  }

  lemma ApplyDated(o: Oracle, cfg: Config, w: World, rt: Runtime, filed: Option<Status>)
    requires Inv(w) && Dated(w) && Advances(o, cfg, w, rt, filed)
    ensures Dated(Apply(o, cfg, w, rt, filed).world)
  {
    var r, given := Apply(o, cfg, w, rt, filed), WithGeneration(w.cluster.specs, rt);
    if GoesBack(r.ending) {
      assert given.key == rt.key;
      hide Apply, Inv, WithGeneration, Dated;
      WentBackDated(o, cfg, w, rt, filed);
    } else if !Accepted(cfg, w, rt) {
      Runs.RejectedIsSilent(o, cfg, w, rt, filed);
    } else {
      ApplyContainers(o, cfg, w, rt, filed);
      Serving.ApplyLeaves(o, cfg, w, rt, filed);
      AcceptedCarries(o, cfg, w, rt, filed);
      var p := Previous(o, w, rt.key.Path(), filed);
      Serving.CarryEnding(o, cfg, w.(cluster := p.cluster), given, p.prior);
      KeyedSpecs(w);
      ValidGiven(cfg, w, rt);
      hide Apply, Accepted, WithGeneration, Within, NamesOf, Inv, Carry, Previous;
      UpdateDated(w.cluster.specs, w.cluster.containers, r.world.cluster.containers, given);
    }
  }

  /** The generation an update is given: its own if it names one; else the one after that of the
      runtime in memory, or the first. Nothing else of the document changes. */
  lemma GivenExactly(specs: Specs, rt: Runtime)
    ensures var given, path := WithGeneration(specs, rt), rt.key.Path();
            && given == rt.(generation := given.generation)
            && (rt.generation != 0 ==> given == rt)
            && (rt.generation == 0 ==>
                  given.generation == if path !in specs || specs[path].generation <= 0 then 1
                                      else if specs[path].generation < Quantities.MAX_INT64 then specs[path].generation + 1
                                      else Quantities.Wrap64(specs[path].generation + 1))
  {
  }

  lemma KeyedSpecs(w: World)
    requires Inv(w)
    ensures Keyed(w.cluster.specs)
  {
  }

  lemma ValidGiven(cfg: Config, w: World, rt: Runtime)
    requires Accepted(cfg, w, rt)
    ensures ValidKey(WithGeneration(w.cluster.specs, rt).key) && WithGeneration(w.cluster.specs, rt).key == rt.key
  {
  }

  lemma UpdateDated(specs: map<string, Runtime>, a: Containers, b: Containers, rt: Runtime)
    requires Keyed(specs) && ValidKey(rt.key)
    requires forall k :: k in specs ==> UpTo(a, specs[k].key, specs[k].generation)
    requires Within(a, b, rt, NamesOfAll(rt))
    requires var path := rt.key.Path();
             if path in specs then specs[path].generation <= rt.generation else UpTo(a, rt.key, rt.generation)
    ensures var later := specs[rt.key.Path() := rt];
            forall k :: k in later ==> UpTo(b, later[k].key, later[k].generation)
  {
    var path, later := rt.key.Path(), specs[rt.key.Path() := rt];
    hide Within, NamesOf, ValidKey;
    forall k | k in later
      ensures UpTo(b, later[k].key, later[k].generation)
    {
      if k != path {
        WithinDated(a, b, rt, specs[k].key, specs[k].generation);
      } else {
        if path in specs {
          KeyPathInjective(rt.key, specs[path].key);
          LaterStill(a, rt.key, specs[path].generation, rt.generation);
        }
        WithinDated(a, b, rt, rt.key, rt.generation);
      }
    }
  }

  lemma LaterStill(m: Containers, key: Key, g: int, h: int)
    requires UpTo(m, key, g) && g <= h
    ensures UpTo(m, key, h)
  {
  }

  // ------------------------------------------------------------ other steps

  lemma LessDated(specs: map<string, Runtime>, later: map<string, Runtime>, a: Containers, b: Containers)
    requires forall k :: k in specs ==> UpTo(a, specs[k].key, specs[k].generation)
    requires SubMap(b, a) && forall k :: k in later ==> k in specs && later[k] == specs[k]
    ensures forall k :: k in later ==> UpTo(b, later[k].key, later[k].generation)
  {
    hide UpTo, SubMap;
    forall k | k in later
      ensures UpTo(b, later[k].key, later[k].generation)
    {
      UpToLess(b, a, specs[k].key, specs[k].generation);
    }
  }

  lemma VanishingContainers(o: Oracle, w: World, key: Key)
    ensures Vanishing(o, w, key).world.cluster.containers == w.cluster.containers
  {
    hide NewStatus, Drop;
  }

  lemma ClearingContainers(o: Oracle, w: World, key: Key, rt: Option<Runtime>)
    ensures SubMap(Clearing(o, w, key, rt).world.cluster.containers, w.cluster.containers)
  {
    SubMapItself(w.cluster.containers);
    if rt.Some? {
      PurgeExact(o, w.cluster, OwnedAll(w.cluster.containers, rt.value.key));
    }
    hide Purge, OwnedAll, SubMap;
  }

  lemma RemoveContainers(o: Oracle, w: World, key: Key)
    ensures SubMap(Remove(o, w, key).world.cluster.containers, w.cluster.containers)
  {
    SubMapItself(w.cluster.containers);
    VanishingContainers(o, w, key);
    hide Vanishing, Clearing, SubMap;
    var v := Vanishing(o, w, key);
    ClearingContainers(o, v.world, key, v.rt);
  }

  lemma RemoveDated(o: Oracle, w: World, key: Key)
    requires Inv(w) && Dated(w)
    ensures Dated(Remove(o, w, key).world)
  {
    RemoveContainers(o, w, key);
    if key.name != "" {
      RemoveShows(o, w, key);
    }
    hide Inv, UpTo, SubMap;
    var v := Remove(o, w, key).world;
    assert v.cluster.specs == w.cluster.specs - {key.Path()} || v == w by { hide Lookup, WritePhase, Forget, Drop, Purge; }
    hide Remove;
    LessDated(w.cluster.specs, v.cluster.specs, w.cluster.containers, v.cluster.containers);
  }

  lemma ResyncOneContainers(o: Oracle, cfg: Config, w: World, rt: Runtime)
    ensures ResyncOne(o, cfg, w, rt).world.cluster.containers == Rollout.Reconcile(o, cfg.selfHeal, w.cluster, rt).cluster.containers
  {
    var out := Rollout.Reconcile(o, cfg.selfHeal, w.cluster, rt);
    Endpoints.RefreshOnlyReads(o, out.cluster, rt, |rt.services|);
    var found := Endpoints.Refresh(o, out.cluster, rt, |rt.services|);
    hide Rollout.Reconcile, Endpoints.Refresh, NewStatus, PutEndpoints, RecordFailed;
    FailedContainers(o, w.(cluster := out.cluster), rt);
    FailedContainers(o, w.(cluster := found.cluster), rt);
  }

  lemma ResyncOneDated(o: Oracle, cfg: Config, w: World, rt: Runtime)
    requires Current(w.cluster, rt) && Dated(w) && Keyed(w.cluster.specs)
    ensures Dated(ResyncOne(o, cfg, w, rt).world)
  {
    ReconcileEffect(o, cfg.selfHeal, w.cluster, rt);
    Runs.ResyncOneShows(o, cfg, w, rt);
    ResyncOneContainers(o, cfg, w, rt);
    var specs := w.cluster.specs;
    assert specs[rt.key.Path() := rt] == specs && ValidKey(rt.key);
    hide ResyncOne, Rollout.Reconcile, UpTo, NamesOf, Shows, Within, ValidKey;
    UpdateDated(specs, w.cluster.containers, Rollout.Reconcile(o, cfg.selfHeal, w.cluster, rt).cluster.containers, rt);
  }

  lemma {:induction false} ResyncEachDated(o: Oracle, cfg: Config, w: World, rts: seq<Runtime>)
    requires Dated(w) && Keyed(w.cluster.specs) && forall rt :: rt in rts ==> Current(w.cluster, rt)
    ensures Dated(ResyncEach(o, cfg, w, rts).world)
  {
    hide ResyncOne, Dated, Shows, Keyed;
    if rts != [] {
      var u, rt := rts[..|rts| - 1], rts[|rts| - 1];
      assert forall r :: r in u ==> r in rts;
      ResyncEachDated(o, cfg, w, u);
      var before := ResyncEach(o, cfg, w, u);
      if before.ok {
        assert rt in rts;
        Runs.ResyncEachShows(o, cfg, w, u);
        ResyncOneDated(o, cfg, before.world, rt);
      }
    }
  }

  /** What keeps containers dated in a step: an Apply that advances, and surroundings that put
      no later label on a container. */
  ghost predicate Orderly(o: Oracle, cfg: Config, w: World, e: Event) {
    match e
    case Applying(rt, filed) => Advances(o, cfg, w, rt, filed)
    case Elsewhere(m, pause) => forall k :: k in w.cluster.specs ==> UpTo(m, w.cluster.specs[k].key, w.cluster.specs[k].generation)
    case _ => true
  }

  lemma StepDated(o: Oracle, cfg: Config, w: World, e: Event)
    requires Inv(w) && Dated(w) && Orderly(o, cfg, w, e)
    ensures Dated(Step(o, cfg, w, e))
  {
    match e
    case Applying(rt, filed) =>
      hide Inv, Dated, Advances, Apply;
      ApplyDated(o, cfg, w, rt, filed);
    case Removing(key) =>
      hide Inv, Dated, Remove;
      RemoveDated(o, w, key);
    case Resyncing =>
      KeyedSpecs(w);
      InMemoryCurrent(w.cluster);
      hide Inv, Dated, ResyncEach, Current, Keyed;
      ResyncEachDated(o, cfg, w, InMemory(w.cluster.specs));
    case Stopping =>
    case Elsewhere(m, pause) =>
  }

  /** Over every run whose updates advance, and leave no container when they go back, no
      container is labelled with a later generation than its runtime's spec. */
  lemma {:induction false} RunDated(o: Oracle, cfg: Config, w: World, es: seq<Event>)
    requires Inv(w) && Dated(w)
    requires forall i :: 0 <= i < |es| ==> Orderly(o, cfg, Run(o, cfg, w, es[..i]), es[i])
    ensures Dated(Run(o, cfg, w, es))
    decreases |es|
  {
    hide Inv, Dated, Orderly, Step;
    if es != [] {
      var u := es[..|es| - 1];
      forall i | 0 <= i < |u|
        ensures Orderly(o, cfg, Run(o, cfg, w, u[..i]), u[i])
      {
        assert u[..i] == es[..i];
      }
      RunDated(o, cfg, w, u);
      RunInvariant(o, cfg, w, u);
      assert es[..|es| - 1] == u;
      StepDated(o, cfg, Run(o, cfg, w, u), es[|es| - 1]);
    }
  }
}
