/** Availability during a rolling update with surge: which replicas keep a ready container at
    every point of a pass over their deployment, whatever fails on the way. */
module Availability {
  import opened Runtimes
  import Quantities
  import opened Naming
  import opened Sorting
  import opened Statuses
  import opened Restarts
  import opened Docker
  import opened Rollout
  import opened Locality

  ghost predicate Has(m: Containers, q: Container -> bool) {
    exists n :: n in m && q(m[n])
  }

  /** q holds of some container at every point between two states. */
  ghost predicate Through(c: Cluster, e: Cluster, q: Container -> bool) {
    && c.trace <= e.trace
    && Has(e.containers, q)
    && forall i :: |c.trace| <= i < |e.trace| ==> Has(e.trace[i].containers, q)
  }

  lemma ThroughTransitive(a: Cluster, b: Cluster, c: Cluster, q: Container -> bool)
    requires Through(a, b, q) && Through(b, c, q)
    ensures Through(a, c, q)
  {
    hide Has;
    forall i | |a.trace| <= i < |c.trace|
      ensures Has(c.trace[i].containers, q)
    {
      if i < |b.trace| {
        assert c.trace[i] == b.trace[i];
      }
    }
  }

  lemma ThroughTick(o: Oracle, c: Cluster, q: Container -> bool)
    requires Has(c.containers, q)
    ensures Through(c, Tick(o, c), q)
  {
  }

  lemma ThroughRecord(c: Cluster, name: string, r: Record, q: Container -> bool)
    requires Has(c.containers, q)
    ensures Through(c, SetRecord(c, name, r), q)
  {
  }

  lemma ThroughWrite(c: Cluster, rt: Runtime, phase: Phase, q: Container -> bool)
    requires Has(c.containers, q)
    ensures Through(c, WritePhase(c, rt, phase), q) && WritePhase(c, rt, phase).containers == c.containers
  {
    hide Has, NewStatus;
  }

  lemma HasWithout(m: Containers, name: string, q: Container -> bool)
    requires Has(m, q) && (name in m ==> !q(m[name]))
    ensures Has(m - {name}, q)
  {
    var n :| n in m && q(m[n]);
    assert n in m - {name} && (m - {name})[n] == m[n];
  }

  lemma HasWith(m: Containers, name: string, x: Container, q: Container -> bool)
    requires (Has(m, q) && name !in m) || q(x)
    ensures Has(m[name := x], q)
  {
    if q(x) {
      assert m[name := x][name] == x;
    } else {
      var n :| n in m && q(m[n]);
      assert m[name := x][n] == m[n];
    }
  }

  lemma ThroughRemove(o: Oracle, c: Cluster, name: string, q: Container -> bool)
    requires Has(c.containers, q) && Has(c.containers - {name}, q)
    ensures Through(c, RemoveContainer(o, c, name).cluster, q)
  {
    hide Has;
  }

  lemma ThroughRename(o: Oracle, c: Cluster, from: string, to: string, q: Container -> bool)
    requires Has(c.containers, q)
    ensures Through(c, RenameContainer(o, c, from, to).cluster, q)
  {
    if from in c.containers && to !in c.containers {
      var x := c.containers[from];
      if !q(x) {
        HasWithout(c.containers, from, q);
      }
      HasWith(c.containers - {from}, to, x, q);
    }
    hide Has;
  }

  lemma ThroughLaunch(o: Oracle, c: Cluster, rt: Runtime, d: Deployment, replica: int, name: string, q: Container -> bool)
    requires Has(c.containers, q)
    ensures var out := Launch(o, c, rt, d, replica, name);
            && Through(c, out.cluster, q)
            && (out.ok ==> name !in c.containers
                           && out.cluster.containers == c.containers[name := Made(rt, d, replica, READY)])
  {
    if name !in c.containers {
      forall s: State
        ensures Has(c.containers[name := Made(rt, d, replica, s)], q)
      {
        HasWith(c.containers, name, Made(rt, d, replica, s), q);
      }
    }
    hide Has;
  }

  lemma ThroughRun(o: Oracle, c: Cluster, rt: Runtime, d: Deployment, replica: int, name: string, q: Container -> bool)
    requires Has(c.containers, q)
    ensures var out := RunContainer(o, c, rt, d, replica, name);
            && Through(c, out.cluster, q)
            && (out.ok ==> name !in c.containers
                           && out.cluster.containers == c.containers[name := Made(rt, d, replica, READY)])
  {
    var c1 := WritePhase(c, rt, Pulling);
    var c2 := WritePhase(c1, rt, Starting);
    ThroughWrite(c, rt, Pulling, q);
    ThroughWrite(c1, rt, Starting, q);
    hide Has, Through, WritePhase, Launch;
    ThroughTransitive(c, c1, c2, q);
    ThroughLaunch(o, c2, rt, d, replica, name, q);
    ThroughTransitive(c, c2, Launch(o, c2, rt, d, replica, name).cluster, q);
  }

  // ------------------------------------------------- one replica of a rollout

  /** q is about ready containers of one replica index, and a container the pass starts for
      that index has it. */
  ghost predicate About(q: Container -> bool, rt: Runtime, d: Deployment, r: int) {
    && (forall x :: q(x) ==> x.replica == r && Ready(x.state))
    && q(Made(rt, d, r, READY))
  }

  lemma ThroughHeal(o: Oracle, cfg: SelfHeal, c: Cluster, rt: Runtime, d: Deployment, replica: int, name: string, q: Container -> bool)
    requires Has(c.containers, q) && (name in c.containers ==> !q(c.containers[name]))
    ensures Through(c, HealContainer(o, cfg, c, rt, d, replica, name).cluster, q)
    ensures var h := HealContainer(o, cfg, c, rt, d, replica, name);
            h.restarted && h.ok ==> name in h.cluster.containers && h.cluster.containers[name] == Made(rt, d, replica, READY)
  {
    var rec := RecordOf(c, name);
    var noted := SetRecord(c, name, Healed(cfg, rec, c.now));
    ThroughRecord(c, name, Healed(cfg, rec, c.now), q);
    ThroughWrite(noted, rt, Updating, q);
    HasWithout(c.containers, name, q);
    var c1 := WritePhase(noted, rt, Updating);
    hide Has, Through, RunContainer, RemoveContainer, WritePhase, Healed;
    ThroughTransitive(c, noted, c1, q);
    ThroughRemove(o, c1, name, q);
    var removed := RemoveContainer(o, c1, name);
    ThroughTransitive(c, c1, removed.cluster, q);
    ThroughHasEnd(c, removed.cluster, q);
    ThroughRun(o, removed.cluster, rt, d, replica, name, q);
    ThroughTransitive(c, removed.cluster, RunContainer(o, removed.cluster, rt, d, replica, name).cluster, q);
  }

  lemma ThroughHasEnd(c: Cluster, e: Cluster, q: Container -> bool)
    requires Through(c, e, q)
    ensures Has(e.containers, q)
  {
  }

  lemma ThroughSettle(o: Oracle, cfg: SelfHeal, c: Cluster, rt: Runtime, d: Deployment, replica: int, name: string, q: Container -> bool)
    requires Has(c.containers, q) && (forall x :: q(x) ==> Ready(x.state))
    ensures Through(c, Settle(o, cfg, c, rt, d, replica, name).cluster, q)
  {
    var t := Tick(o, c);
    ThroughTick(o, c, q);
    ThroughRecord(t, name, MarkedHealthy(RecordOf(t, name)), q);
    hide Has, Through, HealContainer, MarkedHealthy;
    ThroughTransitive(c, t, MarkHealthy(t, name), q);
    if name in c.containers && NeedsRestart(c.containers[name].state) {
      assert !Ready(c.containers[name].state);
      ThroughHeal(o, cfg, t, rt, d, replica, name, q);
      ThroughTransitive(c, t, HealContainer(o, cfg, t, rt, d, replica, name).cluster, q);
    }
  }

  lemma ThroughSurge(o: Oracle, c: Cluster, rt: Runtime, d: Deployment, replica: nat, q: Container -> bool, r: int)
    requires Has(c.containers, q) && About(q, rt, d, r)
    requires var name := Canonical(rt.key, d, replica); name in c.containers ==> c.containers[name].replica == replica
    ensures Through(c, ReplaceWithSurge(o, c, rt, d, replica, Canonical(rt.key, d, replica)).cluster, q)
  {
    var name, surge := Canonical(rt.key, d, replica), SurgeName(rt.key, d, replica, rt.generation);
    SurgeNotCanonical(rt.key, d, replica, rt.generation, replica);
    hide Canonical, SurgeName, Through, RunContainer;
    ThroughRun(o, c, rt, d, replica, surge, q);
    var run := RunContainer(o, c, rt, d, replica, surge);
    if run.ok {
      SurgeCarries(c.containers, run.cluster.containers, rt, d, replica, name, surge, q, r);
      hide Has;
      ThroughHasEnd(c, run.cluster, q);
      ThroughRemove(o, run.cluster, name, q);
      var removed := RemoveContainer(o, run.cluster, name);
      ThroughTransitive(c, run.cluster, removed.cluster, q);
      if removed.ok {
        ThroughHasEnd(c, removed.cluster, q);
        ThroughRename(o, removed.cluster, surge, name, q);
        ThroughTransitive(c, removed.cluster, RenameContainer(o, removed.cluster, surge, name).cluster, q);
      }
    }
  }

  /** With the replacement up, the canonical container can go. */
  lemma SurgeCarries(before: Containers, m: Containers, rt: Runtime, d: Deployment, replica: nat,
                     name: string, surge: string, q: Container -> bool, r: int)
    requires Has(before, q) && About(q, rt, d, r)
    requires name in before ==> before[name].replica == replica
    requires name != surge && surge !in before && m == before[surge := Made(rt, d, replica, READY)]
    ensures Has(m, q) && Has(m - {name}, q)
  {
    HasWith(before, surge, m[surge], q);
    if r == replica {
      HasWith(before - {name}, surge, m[surge], q);
      assert (before - {name})[surge := m[surge]] == m - {name};
    } else {
      HasWithout(m, name, q);
    }
  }

  lemma ThroughReplica(o: Oracle, cfg: SelfHeal, c: Cluster, rt: Runtime, d: Deployment, replica: nat, q: Container -> bool, r: int)
    requires Has(c.containers, q) && About(q, rt, d, r) && Beside(d)
    requires var name := Canonical(rt.key, d, replica); name in c.containers ==> c.containers[name].replica == replica
    ensures Through(c, EnsureReplica(o, cfg, c, rt, d, replica).cluster, q)
  {
    var name := Canonical(rt.key, d, replica);
    var t := Tick(o, c);
    ThroughTick(o, c, q);
    ThroughTick(o, t, q);
    ThroughTick(o, Tick(o, t), q);
    ThroughTransitive(c, t, Tick(o, t), q);
    ThroughTransitive(c, Tick(o, t), Tick(o, Tick(o, t)), q);
    var there := Exists(o, c, name);
    hide Has, Through, Canonical, RunContainer, ReplaceWithSurge, Settle;
    if !there.yes {
      ThroughRun(o, t, rt, d, replica, name, q);
      ThroughTransitive(c, t, RunContainer(o, t, rt, d, replica, name).cluster, q);
    } else {
      var drifted := Drifted(o, t, name, d.specHash);
      if drifted.yes {
        ThroughSurge(o, drifted.cluster, rt, d, replica, q, r);
        ThroughTransitive(c, drifted.cluster, ReplaceWithSurge(o, drifted.cluster, rt, d, replica, name).cluster, q);
      } else {
        ThroughSettle(o, cfg, drifted.cluster, rt, d, replica, name, q);
        ThroughTransitive(c, drifted.cluster, Settle(o, cfg, drifted.cluster, rt, d, replica, name).cluster, q);
      }
    }
  }

  // ---------------------------------------------------------- a whole deployment

  /** A ready container of a replica. */
  function Up(key: Key, d: Deployment, r: int): Container -> bool {
    (x: Container) => OwnedBy(x, key, d.name) && x.replica == r && Ready(x.state)
  }

  /** A ready container of a replica that is no surplus of the new spec. */
  function Kept(key: Key, d: Deployment, r: int): Container -> bool {
    (x: Container) => OwnedBy(x, key, d.name) && x.replica == r && Ready(x.state) && Wanted(x, d)
  }

  /** The canonical container is missing, ready, or due for a restart. */
  ghost predicate Guarded(cfg: SelfHeal, c: Cluster, name: string) {
    name !in c.containers || Ready(c.containers[name].state) || Heals(cfg, c, name)
  }

  lemma GuardKept(cfg: SelfHeal, c: Cluster, e: Cluster, rt: Runtime, d: Deployment, replica: nat, r: nat)
    requires Local(c, e, rt, d, replica, Names(rt, d, replica)) && r != replica
    requires Guarded(cfg, c, Canonical(rt.key, d, r))
    ensures Guarded(cfg, e, Canonical(rt.key, d, r))
  {
    OtherNames(rt, d, r, replica);
    hide Canonical, Names;
  }

  lemma SecuredByTurn(o: Oracle, cfg: SelfHeal, c: Cluster, rt: Runtime, d: Deployment, r: nat)
    requires Labelled(c.containers, rt.key, d) && 1 <= r <= d.replicas
    requires Guarded(cfg, c, Canonical(rt.key, d, r))
    requires EnsureReplica(o, cfg, c, rt, d, r).ok
    ensures Has(EnsureReplica(o, cfg, c, rt, d, r).cluster.containers, Kept(rt.key, d, r))
  {
    ReplicaEffect(o, cfg, c, rt, d, r);
    var name := Canonical(rt.key, d, r);
    hide EnsureReplica, Local, Heals, Canonical;
    var m := EnsureReplica(o, cfg, c, rt, d, r).cluster.containers;
    if m == c.containers[name := Made(rt, d, r, READY)] {
      assert m[name] == Made(rt, d, r, READY);
    } else {
      assert Fitting(m[name], rt.key, d, r);
    }
  }

  /** The replica is secured for good, or its turn is still to come and will secure it. */
  ghost predicate Secured(cfg: SelfHeal, c: Cluster, rt: Runtime, d: Deployment, k: nat, r: nat) {
    Has(c.containers, Kept(rt.key, d, r)) || (k < r && Guarded(cfg, c, Canonical(rt.key, d, r)))
  }

  lemma TurnAvailable(o: Oracle, cfg: SelfHeal, b: Cluster, rt: Runtime, d: Deployment, k: nat, r: nat)
    requires Labelled(b.containers, rt.key, d) && Beside(d) && 1 <= r <= d.replicas && 1 <= k <= d.replicas
    requires Has(b.containers, Up(rt.key, d, r)) && Secured(cfg, b, rt, d, k - 1, r)
    ensures var turn := EnsureReplica(o, cfg, b, rt, d, k);
            && Through(b, turn.cluster, Up(rt.key, d, r))
            && Labelled(turn.cluster.containers, rt.key, d)
            && (turn.ok ==> Secured(cfg, turn.cluster, rt, d, k, r))
  {
    var up, kept, turn := Up(rt.key, d, r), Kept(rt.key, d, r), EnsureReplica(o, cfg, b, rt, d, k);
    LabelHolds(b.containers, rt.key, d, k);
    hide Has, Labelled, Guarded, EnsureReplica, Canonical, Names, Beside, Up, Kept;
    AboutUp(rt, d, r);
    ThroughReplica(o, cfg, b, rt, d, k, up, r);
    ReplicaEffect(o, cfg, b, rt, d, k);
    hide Local, Through;
    LabelledKept(b, turn.cluster, rt, d, k);
    if Has(b.containers, kept) {
      ThroughReplica(o, cfg, b, rt, d, k, kept, r);
      ThroughHasEnd(b, turn.cluster, kept);
    } else if k < r {
      GuardKept(cfg, b, turn.cluster, rt, d, k, r);
    } else if turn.ok {
      SecuredByTurn(o, cfg, b, rt, d, r);
    }
  }

  lemma {:induction false} ReplicasAvailable(o: Oracle, cfg: SelfHeal, c: Cluster, rt: Runtime, d: Deployment, k: nat, r: nat)
    requires Labelled(c.containers, rt.key, d) && Beside(d)
    requires 1 <= r <= d.replicas && k <= d.replicas
    requires Has(c.containers, Up(rt.key, d, r)) && Secured(cfg, c, rt, d, 0, r)
    ensures var out := EnsureReplicas(o, cfg, c, rt, d, k);
            && Through(c, out.cluster, Up(rt.key, d, r))
            && Labelled(out.cluster.containers, rt.key, d)
            && (out.ok ==> Secured(cfg, out.cluster, rt, d, k, r))
  {
    var up := Up(rt.key, d, r);
    hide Has, Labelled, EnsureReplica, Through, Secured, Beside, Up;
    if k > 0 {
      ReplicasAvailable(o, cfg, c, rt, d, k - 1, r);
      var before := EnsureReplicas(o, cfg, c, rt, d, k - 1);
      if before.ok {
        ThroughHasEnd(c, before.cluster, up);
        TurnAvailable(o, cfg, before.cluster, rt, d, k, r);
        ThroughTransitive(c, before.cluster, EnsureReplica(o, cfg, before.cluster, rt, d, k).cluster, up);
      }
    } else {
      ThroughItself(c, up);
    }
  }

  lemma LabelHolds(m: Containers, key: Key, d: Deployment, r: nat)
    requires Labelled(m, key, d) && 1 <= r <= d.replicas
    ensures Canonical(key, d, r) in m ==> m[Canonical(key, d, r)].replica == r
  {
    hide Canonical;
  }

  lemma ThroughItself(c: Cluster, q: Container -> bool)
    requires Has(c.containers, q)
    ensures Through(c, c, q)
  {
  }

  lemma AboutUp(rt: Runtime, d: Deployment, r: int)
    requires 1 <= r <= d.replicas
    ensures About(Up(rt.key, d, r), rt, d, r) && About(Kept(rt.key, d, r), rt, d, r)
  {
  }

  lemma RemoveLess(o: Oracle, c: Cluster, name: string)
    ensures var m := RemoveContainer(o, c, name).cluster.containers;
            forall n :: n in m ==> n in c.containers && m[n] == c.containers[n]
  {
  }

  lemma {:induction false} RemovalAvailable(o: Oracle, c: Cluster, names: seq<string>, q: Container -> bool)
    requires Has(c.containers, q)
    requires forall n :: n in names && n in c.containers ==> !q(c.containers[n])
    ensures var out := RemoveEach(o, c, names);
            Through(c, out.cluster, q)
            && forall n :: n in out.cluster.containers ==> n in c.containers && out.cluster.containers[n] == c.containers[n]
  {
    hide Has, Through, RemoveContainer;
    if names == [] {
      ThroughItself(c, q);
    } else {
      var u, x := names[..|names| - 1], names[|names| - 1];
      assert forall n :: n in u ==> n in names;
      RemovalAvailable(o, c, u, q);
      var before := RemoveEach(o, c, u);
      if before.ok {
        ThroughHasEnd(c, before.cluster, q);
        HasWithout(before.cluster.containers, x, q);
        ThroughRemove(o, before.cluster, x, q);
        RemoveLess(o, before.cluster, x);
        ThroughTransitive(c, before.cluster, RemoveContainer(o, before.cluster, x).cluster, q);
      }
    }
  }

  lemma ExtraRemovalAvailable(o: Oracle, c: Cluster, rt: Runtime, d: Deployment, r: nat)
    requires Has(c.containers, Kept(rt.key, d, r))
    ensures Through(c, RemoveExtra(o, c, rt, d).cluster, Up(rt.key, d, r))
  {
    var kept, up := Kept(rt.key, d, r), Up(rt.key, d, r);
    var t := Tick(o, c);
    ThroughTick(o, c, kept);
    var listed := ListNames(o, c, OwnedNames(c.containers, rt.key, d.name));
    if listed.value.Some? {
      var q := Filter(listed.value.value, IsExtra(c.containers, d));
      forall n | n in q && n in t.containers
        ensures !kept(t.containers[n])
      {
        FilterMembers(listed.value.value, IsExtra(c.containers, d), n);
      }
      hide Has, Through, Extra, OwnedBy;
      RemovalAvailable(o, t, q, kept);
      ThroughTransitive(c, t, RemoveEach(o, t, q).cluster, kept);
    }
    KeptIsUp(c, RemoveExtra(o, c, rt, d).cluster, rt.key, d, r);
  }

  lemma KeptIsUp(c: Cluster, e: Cluster, key: Key, d: Deployment, r: nat)
    requires Through(c, e, Kept(key, d, r))
    ensures Through(c, e, Up(key, d, r))
  {
    hide OwnedBy, Extra;
    forall m: Containers | Has(m, Kept(key, d, r))
      ensures Has(m, Up(key, d, r))
    {
      var n :| n in m && Kept(key, d, r)(m[n]);
      assert Up(key, d, r)(m[n]);
    }
    hide Has;
  }

  /** With surge, a replica that is up stays up throughout the pass, on success or abort, if
      a ready container of it is no surplus, or its canonical container is missing, ready, or
      due for a restart. This holds for every oracle and both for a change within a revision
      and for a change of revision. */
  lemma StaysUp(o: Oracle, cfg: SelfHeal, c: Cluster, rt: Runtime, d: Deployment, r: nat)
    requires Labelled(c.containers, rt.key, d) && Beside(d) && 1 <= r <= d.replicas
    requires Has(c.containers, Up(rt.key, d, r))
    requires Has(c.containers, Kept(rt.key, d, r)) || Guarded(cfg, c, Canonical(rt.key, d, r))
    ensures Through(c, Ensure(o, cfg, c, rt, d).cluster, Up(rt.key, d, r))
  {
    hide Has, Labelled, Guarded, Through, EnsureReplicas, RemoveExtra, Canonical, Up, Kept;
    var replicas := EnsureReplicas(o, cfg, c, rt, d, d.replicas);
    ReplicasAvailable(o, cfg, c, rt, d, d.replicas, r);
    if replicas.ok {
      ExtraRemovalAvailable(o, replicas.cluster, rt, d, r);
      ThroughTransitive(c, replicas.cluster, RemoveExtra(o, replicas.cluster, rt, d).cluster, Up(rt.key, d, r));
    }
  }

  // -------------------------------------------------------- the condition is exact

  /** An engine on which only the look at digest labels fails, and ports can be bound or not. */
  ghost function HashBlind(bind: bool): Oracle {
    Oracle((op, t) => if op == InspectHash then Refused else Works, (t, s) => SomeOrder(s), t => 0, t => bind, t => Done)
  }

  lemma BlindRun(bind: bool, c: Cluster, rt: Runtime, d: Deployment, replica: int, name: string)
    requires name !in c.containers
    ensures RunContainer(HashBlind(bind), c, rt, d, replica, name).ok
    ensures RunContainer(HashBlind(bind), c, rt, d, replica, name).cluster.now == c.now
  {
    hide NewStatus;
  }

  lemma BlindHeal(bind: bool, cfg: SelfHeal, c: Cluster, rt: Runtime, d: Deployment, replica: int, name: string)
    ensures var h := HealContainer(HashBlind(bind), cfg, c, rt, d, replica, name); h.ok && h.cluster.now == c.now
  {
    var o := HashBlind(bind);
    var noted := SetRecord(c, name, Healed(cfg, RecordOf(c, name), c.now));
    var removed := RemoveContainer(o, WritePhase(noted, rt, Updating), name);
    assert removed.ok && name !in removed.cluster.containers && removed.cluster.now == c.now;
    hide RunContainer, Healed, Judge, RemoveContainer, WritePhase;
    BlindRun(bind, removed.cluster, rt, d, replica, name);
  }

  /** On such an engine no container is seen to drift, so each turn succeeds, and it leaves a
      container that is present and not due for a restart as it is. */
  lemma BlindReplica(bind: bool, cfg: SelfHeal, c: Cluster, rt: Runtime, d: Deployment, replica: nat)
    ensures var out := EnsureReplica(HashBlind(bind), cfg, c, rt, d, replica);
            var name := Canonical(rt.key, d, replica);
            && out.ok && out.cluster.now == c.now
            && (name in c.containers && !Heals(cfg, c, name) ==> out.cluster.containers == c.containers)
  {
    var o, name := HashBlind(bind), Canonical(rt.key, d, replica);
    var t := Tick(o, c);
    hide Canonical, RunContainer, HealContainer, Judge, MarkedHealthy;
    if name !in c.containers {
      BlindRun(bind, t, rt, d, replica, name);
    } else {
      var drifted := Drifted(o, t, name, d.specHash);
      assert !drifted.yes && drifted.cluster.containers == c.containers && drifted.cluster.now == c.now
          && drifted.cluster.restarts == c.restarts;
      BlindSettle(bind, cfg, drifted.cluster, rt, d, replica, name);
      hide Settle, Drifted;
      assert Heals(cfg, c, name) == Heals(cfg, drifted.cluster, name);
    }
  }

  lemma BlindSettle(bind: bool, cfg: SelfHeal, c: Cluster, rt: Runtime, d: Deployment, replica: nat, name: string)
    requires name in c.containers
    ensures var out := Settle(HashBlind(bind), cfg, c, rt, d, replica, name);
            && out.ok && out.cluster.now == c.now
            && (!Heals(cfg, c, name) ==> out.cluster.containers == c.containers)
  {
    var o := HashBlind(bind);
    var t := Tick(o, c);
    assert t.now == c.now && t.restarts == c.restarts && t.containers == c.containers;
    assert Read(o, c, InspectState, name) == Answer(t, Quantities.Some(c.containers[name]));
    hide HealContainer, Judge, MarkedHealthy, HashBlind, Read, Local;
    BlindHeal(bind, cfg, t, rt, d, replica, name);
    LocalHeal(o, cfg, t, rt, d, replica, name, {name});
    var s := c.containers[name].state;
    assert Ready(s) ==> !NeedsRestart(s);
  }

  lemma {:induction false} BlindReplicas(bind: bool, cfg: SelfHeal, c: Cluster, rt: Runtime, d: Deployment, k: nat, r: nat)
    requires r >= 1 && !Has(c.containers, Kept(rt.key, d, r)) && !Guarded(cfg, c, Canonical(rt.key, d, r))
    ensures var out := EnsureReplicas(HashBlind(bind), cfg, c, rt, d, k);
            && out.ok
            && !Has(out.cluster.containers, Kept(rt.key, d, r)) && !Guarded(cfg, out.cluster, Canonical(rt.key, d, r))
            && out.cluster.now == c.now
  {
    if k > 0 {
      BlindReplicas(bind, cfg, c, rt, d, k - 1, r);
      var b := EnsureReplicas(HashBlind(bind), cfg, c, rt, d, k - 1).cluster;
      BlindTurn(bind, cfg, b, rt, d, k, r);
      hide Has, Guarded, EnsureReplica, Kept, Canonical;
    }
  }

  lemma BlindTurn(bind: bool, cfg: SelfHeal, c: Cluster, rt: Runtime, d: Deployment, k: nat, r: nat)
    requires r >= 1 && !Has(c.containers, Kept(rt.key, d, r)) && !Guarded(cfg, c, Canonical(rt.key, d, r))
    ensures var out := EnsureReplica(HashBlind(bind), cfg, c, rt, d, k);
            && out.ok
            && !Has(out.cluster.containers, Kept(rt.key, d, r)) && !Guarded(cfg, out.cluster, Canonical(rt.key, d, r))
            && out.cluster.now == c.now
  {
    var out, kept, name := EnsureReplica(HashBlind(bind), cfg, c, rt, d, k), Kept(rt.key, d, r), Canonical(rt.key, d, r);
    BlindReplica(bind, cfg, c, rt, d, k);
    ReplicaEffect(HashBlind(bind), cfg, c, rt, d, k);
    if k != r {
      OtherNames(rt, d, r, k);
      hide EnsureReplica, HashBlind, Judge, Canonical, SurgeName, Kept;
      NotKept(c.containers, out.cluster.containers, rt, d, k, r, Canonical(rt.key, d, k));
      hide Has;
      assert out.cluster.containers[name] == c.containers[name];
      assert RecordOf(out.cluster, name) == RecordOf(c, name);
    } else {
      hide EnsureReplica, HashBlind, Canonical, SurgeName, Kept, Has;
      BlindRecord(bind, cfg, c, rt, d, r);
    }
  }

  /** A refused restart stays refused: the record keeps its streak and its next attempt. */
  lemma BlindRecord(bind: bool, cfg: SelfHeal, c: Cluster, rt: Runtime, d: Deployment, r: nat)
    requires !Guarded(cfg, c, Canonical(rt.key, d, r))
    ensures var name := Canonical(rt.key, d, r);
            var e := EnsureReplica(HashBlind(bind), cfg, c, rt, d, r).cluster;
            NeedsRestart(c.containers[name].state) ==>
              Judge(cfg, RecordOf(e, name), c.now) != Attempt
  {
    var o, name := HashBlind(bind), Canonical(rt.key, d, r);
    hide Canonical, RunContainer;
    var drifted := Drifted(o, Tick(o, c), name, d.specHash);
    assert !drifted.yes && drifted.cluster.containers == c.containers && drifted.cluster.now == c.now
        && drifted.cluster.restarts == c.restarts;
  }

  lemma NotKept(m0: Containers, m: Containers, rt: Runtime, d: Deployment, k: nat, r: nat, name: string)
    requires k != r && !Has(m0, Kept(rt.key, d, r))
    requires m == m0[name := Made(rt, d, k, READY)] || m == m0
    ensures !Has(m, Kept(rt.key, d, r))
  {
    forall n | n in m
      ensures !Kept(rt.key, d, r)(m[n])
    {
      assert m[n].replica != r || (n in m0 && m[n] == m0[n]);
    }
  }

  lemma {:induction false} BlindRemoval(bind: bool, c: Cluster, names: seq<string>)
    ensures var out := RemoveEach(HashBlind(bind), c, names);
            out.ok && out.cluster.containers == map n | n in c.containers && n !in names :: c.containers[n]
  {
    if names != [] {
      var u, x := names[..|names| - 1], names[|names| - 1];
      BlindRemoval(bind, c, u);
      assert names == u + [x];
    }
  }

  lemma BlindExtra(bind: bool, c: Cluster, rt: Runtime, d: Deployment, r: nat)
    requires !Has(c.containers, Kept(rt.key, d, r))
    ensures !Has(RemoveExtra(HashBlind(bind), c, rt, d).cluster.containers, Up(rt.key, d, r))
  {
    var o := HashBlind(bind);
    var listed := o.listing(c.tick, OwnedNames(c.containers, rt.key, d.name));
    var q := Filter(listed, IsExtra(c.containers, d));
    BlindRemoval(bind, Tick(o, c), q);
    var m := RemoveExtra(o, c, rt, d).cluster.containers;
    forall n | n in m
      ensures !Up(rt.key, d, r)(m[n])
    {
      FilterMembers(listed, IsExtra(c.containers, d), n);
      assert n in listed <==> n in OwnedNames(c.containers, rt.key, d.name);
      assert !Kept(rt.key, d, r)(c.containers[n]);
    }
  }

  lemma {:induction false} BlindPass(bind: bool, cfg: SelfHeal, c: Cluster, rt: Runtime, d: Deployment, k: nat)
    ensures EnsureReplicas(HashBlind(bind), cfg, c, rt, d, k).ok
  {
    hide EnsureReplica, HashBlind;
    if k > 0 {
      BlindPass(bind, cfg, c, rt, d, k - 1);
      BlindReplica(bind, cfg, EnsureReplicas(HashBlind(bind), cfg, c, rt, d, k - 1).cluster, rt, d, k);
    }
  }

  lemma BlindEnsures(bind: bool, cfg: SelfHeal, c: Cluster, rt: Runtime, d: Deployment)
    ensures Ensure(HashBlind(bind), cfg, c, rt, d).ok
  {
    var o := HashBlind(bind);
    BlindPass(bind, cfg, c, rt, d, Replicas(d));
    hide EnsureReplicas;
    var b := EnsureReplicas(o, cfg, c, rt, d, Replicas(d)).cluster;
    var listed := o.listing(b.tick, OwnedNames(b.containers, rt.key, d.name));
    BlindRemoval(bind, Tick(o, b), Filter(listed, IsExtra(b.containers, d)));
  }

  /** On such an engine every rollout succeeds, whatever the containers. */
  lemma {:induction false} BlindRollout(bind: bool, cfg: SelfHeal, c: Cluster, rt: Runtime, ds: seq<Deployment>)
    ensures EnsureAll(HashBlind(bind), cfg, c, rt, ds).ok
  {
    hide Ensure, HashBlind;
    if ds != [] {
      BlindRollout(bind, cfg, c, rt, ds[..|ds| - 1]);
      BlindEnsures(bind, cfg, EnsureAll(HashBlind(bind), cfg, c, rt, ds[..|ds| - 1]).cluster, rt, ds[|ds| - 1]);
    }
  }

  /** Availability, exactly: a replica that is up stays up at every point of every pass,
      whatever fails, if and only if a ready container of it is no surplus of the new spec, or
      its canonical container is missing, ready, or due for a restart. In the remaining case
      (the new revision's container is there, not ready, and self-heal passes over it) the
      old revision's container is removed as surplus with nothing in its place. */
  lemma AvailabilityExact(cfg: SelfHeal, c: Cluster, rt: Runtime, d: Deployment, r: nat)
    requires Labelled(c.containers, rt.key, d) && Beside(d) && 1 <= r <= d.replicas
    requires Has(c.containers, Up(rt.key, d, r))
    ensures (forall o: Oracle :: Through(c, Ensure(o, cfg, c, rt, d).cluster, Up(rt.key, d, r)))
            <==> Has(c.containers, Kept(rt.key, d, r)) || Guarded(cfg, c, Canonical(rt.key, d, r))
  {
    hide Has, Labelled, Guarded, EnsureReplicas, RemoveExtra, Canonical, Up, Kept, HashBlind;
    if Has(c.containers, Kept(rt.key, d, r)) || Guarded(cfg, c, Canonical(rt.key, d, r)) {
      forall o: Oracle
        ensures Through(c, Ensure(o, cfg, c, rt, d).cluster, Up(rt.key, d, r))
      {
        StaysUp(o, cfg, c, rt, d, r);
      }
    } else {
      var o := HashBlind(true);
      BlindReplicas(true, cfg, c, rt, d, d.replicas, r);
      BlindExtra(true, EnsureReplicas(o, cfg, c, rt, d, d.replicas).cluster, rt, d, r);
      assert !Through(c, Ensure(o, cfg, c, rt, d).cluster, Up(rt.key, d, r));
    }
  }
}
