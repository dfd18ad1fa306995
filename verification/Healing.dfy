/** Self-heal seen from outside: when a container that is down or unhealthy is restarted, told of
    the restarts and recoveries it has had, in every state that a run can reach. */
module Healing {
  import opened Runtimes
  import opened Naming
  import opened Statuses
  import opened Restarts
  import opened Docker
  import opened Rollout
  import opened Locality
  import opened Scaling
  import Histories
  import Controller

  function Past(c: Cluster, name: string): seq<Mark> {
    RecordOf(c, name).past
  }

  /** The next restart of the container is allowed. */
  predicate Allowed(cfg: SelfHeal, past: seq<Mark>, now: nat) {
    cfg.enabled && SinceRecovery(past) < cfg.maxRestarts && now >= DueAfter(cfg, past)
  }

  lemma HealDecides(o: Oracle, cfg: SelfHeal, c: Cluster, rt: Runtime, d: Deployment, replica: int, name: string)
    requires FaultFree(o) && Faithful(cfg, RecordOf(c, name))
    ensures var h := HealContainer(o, cfg, c, rt, d, replica, name);
            && h.ok && c.now <= h.cluster.now
            && if Allowed(cfg, Past(c, name), c.now) then
                 Past(h.cluster, name) == Past(c, name) + [Restarted(c.now)]
                 && h.cluster.containers == c.containers[name := Made(rt, d, replica, READY)]
               else Past(h.cluster, name) == Past(c, name) && h.cluster.containers == c.containers
  {
    var rec := RecordOf(c, name);
    DecidedByPast(cfg, rec, c.now);
    var noted := SetRecord(c, name, Healed(cfg, rec, c.now));
    hide NewStatus, Faithful, DueAfter, SinceRecovery;
    if Judge(cfg, rec, c.now) == Attempt {
      HealWorks(o, noted, rt, d, replica, name);
    }
    hide RunContainer, RemoveContainer, WritePhase;
  }

  lemma HealWorks(o: Oracle, noted: Cluster, rt: Runtime, d: Deployment, replica: int, name: string)
    requires FaultFree(o)
    ensures var removed := RemoveContainer(o, WritePhase(noted, rt, Updating), name);
            var run := RunContainer(o, removed.cluster, rt, d, replica, name);
            && removed.ok && run.ok && noted.now <= run.cluster.now && run.cluster.restarts == noted.restarts
            && run.cluster.containers == noted.containers[name := Made(rt, d, replica, READY)]
  {
    hide NewStatus;
    Replaced(noted.containers, name, Made(rt, d, replica, READY));
  }

  /** A turn that meets an up-to-date container that is down or unhealthy. If a restart is allowed
      when the turn begins, it happens; if it happens, it was allowed by then; and otherwise
      nothing changes. */
  lemma UnhealthyTurn(o: Oracle, cfg: SelfHeal, c: Cluster, rt: Runtime, d: Deployment, r: nat)
    requires FaultFree(o) && d.specHash != "" && Faithful(cfg, RecordOf(c, Canonical(rt.key, d, r)))
    requires var name := Canonical(rt.key, d, r);
             && name in c.containers && OfDigest(c.containers[name], d.specHash)
             && (!c.containers[name].state.running || c.containers[name].state.health.Unhealthy?)
    ensures var name, out := Canonical(rt.key, d, r), EnsureReplica(o, cfg, c, rt, d, r);
            && out.ok && c.now <= out.cluster.now
            && (Allowed(cfg, Past(c, name), c.now) ==> Past(out.cluster, name) != Past(c, name))
            && if Past(out.cluster, name) == Past(c, name) then out.cluster.containers == c.containers
               else (exists t :: c.now <= t <= out.cluster.now && Allowed(cfg, Past(c, name), t)
                                 && Past(out.cluster, name) == Past(c, name) + [Restarted(t)])
                    && out.cluster.containers == c.containers[name := Made(rt, d, r, READY)]
  {
    var name := Canonical(rt.key, d, r);
    hide Canonical, HealContainer, MarkHealthy, Faithful, DueAfter, SinceRecovery, Replace, RunContainer;
    var drifted := Drifted(o, Exists(o, c, name).cluster, name, d.specHash);
    assert !drifted.yes && drifted.cluster.containers == c.containers && drifted.cluster.restarts == c.restarts
        && drifted.cluster.now >= c.now;
    var t := Tick(o, drifted.cluster);
    assert t.restarts == c.restarts && t.containers == c.containers && t.now >= c.now;
    HealDecides(o, cfg, t, rt, d, r, name);
    var out := EnsureReplica(o, cfg, c, rt, d, r);
    assert out == Settle(o, cfg, drifted.cluster, rt, d, r, name);
    assert out.cluster == HealContainer(o, cfg, t, rt, d, r, name).cluster;
    assert Past(t, name) != Past(t, name) + [Restarted(t.now)];
  }

  /** A turn that meets an up-to-date, ready container leaves it alone, and it has recovered. */
  lemma ReadyTurn(o: Oracle, cfg: SelfHeal, c: Cluster, rt: Runtime, d: Deployment, r: nat)
    requires FaultFree(o) && d.specHash != "" && Faithful(cfg, RecordOf(c, Canonical(rt.key, d, r)))
    requires var name := Canonical(rt.key, d, r);
             && name in c.containers && OfDigest(c.containers[name], d.specHash)
             && c.containers[name].state.running
             && (c.containers[name].state.health.NoCheck? || c.containers[name].state.health.Healthy?)
    ensures var name, out := Canonical(rt.key, d, r), EnsureReplica(o, cfg, c, rt, d, r);
            && out.ok && out.cluster.containers == c.containers
            && SinceRecovery(Past(out.cluster, name)) == 0
            && Past(c, name) <= Past(out.cluster, name) && Times(Past(out.cluster, name)) == Times(Past(c, name))
  {
    var name := Canonical(rt.key, d, r);
    hide Canonical, HealContainer, Replace, RunContainer, Faithful, DueAfter, SinceRecovery, MarkHealthy;
    var drifted := Drifted(o, Exists(o, c, name).cluster, name, d.specHash);
    assert !drifted.yes && drifted.cluster.containers == c.containers && drifted.cluster.restarts == c.restarts;
    var t := Tick(o, drifted.cluster);
    MarkRecovers(cfg, t, name);
    assert EnsureReplica(o, cfg, c, rt, d, r) == Outcome(MarkHealthy(t, name), true);
  }

  lemma MarkRecovers(cfg: SelfHeal, c: Cluster, name: string)
    requires Faithful(cfg, RecordOf(c, name))
    ensures var e := MarkHealthy(c, name);
            && e.containers == c.containers && SinceRecovery(Past(e, name)) == 0
            && Past(c, name) <= Past(e, name) && Times(Past(e, name)) == Times(Past(c, name))
  {
    var r := RecordOf(c, name);
    ReadyRecovers(cfg, r);
    TimesAppend(r.past, [Recovered]);
    hide DueAfter, LastRestart;
    assert Times([Recovered]) == [];
    if !Untried(r) {
      assert MarkHealthy(c, name) == SetRecord(c, name, MarkedHealthy(r));
    }
  }

  /** In every state that a run reaches, whatever fails, each container's record is exactly what
      its past makes it; so the theorems above hold there. */
  lemma RunRecords(o: Oracle, cfg: Controller.Config, w: Controller.World, es: seq<Controller.Event>, name: string)
    requires Faithful(cfg.selfHeal, RecordOf(w.cluster, name))
    ensures Faithful(cfg.selfHeal, RecordOf(Controller.Run(o, cfg, w, es).cluster, name))
  {
    var history := Histories.HistoryOf(o, cfg, w, es, name);
    hide Controller.Run, RecordOf, Faithful;
    RunFaithful(cfg.selfHeal, RecordOf(w.cluster, name), history);
  }

  /** Given up, in every such state: a container is refused for good if and only if as many
      restarts as the limit have followed its last recovery. */
  lemma GivenUpExactly(o: Oracle, cfg: Controller.Config, w: Controller.World, es: seq<Controller.Event>, name: string, now: nat)
    requires var r := RecordOf(w.cluster, name);
             Faithful(cfg.selfHeal, r) && r.streak <= cfg.selfHeal.maxRestarts && r.streak <= r.count
    ensures var r := RecordOf(Controller.Run(o, cfg, w, es).cluster, name);
            Judge(cfg.selfHeal, r, now) == Exhausted <==>
              cfg.selfHeal.enabled && SinceRecovery(r.past) == cfg.selfHeal.maxRestarts
  {
    RunRecords(o, cfg, w, es, name);
    Histories.RunStreaks(o, cfg, w, es, name);
    hide Controller.Run, RecordOf, DueAfter, LastRestart, SinceRecovery;
    DecidedByPast(cfg.selfHeal, RecordOf(Controller.Run(o, cfg, w, es).cluster, name), now);
  }

  lemma {:induction false} NeverAttempts(cfg: SelfHeal, r: Record, es: seq<Event>)
    requires !cfg.enabled
    ensures Attempts(cfg, r, es) == []
    decreases |es|
  {
    if es != [] {
      NeverAttempts(cfg, Step(cfg, r, es[0]), es[1..]);
    }
  }

  /** With self-heal off, no run restarts anything. */
  lemma RunDisabled(o: Oracle, cfg: Controller.Config, w: Controller.World, es: seq<Controller.Event>, name: string)
    requires !cfg.selfHeal.enabled
    ensures Histories.RestartTimes(o, cfg, w, es, name) == []
  {
    var history := Histories.HistoryOf(o, cfg, w, es, name);
    hide Controller.Run, RecordOf;
    var r := RecordOf(w.cluster, name);
    PastIsTrail(cfg.selfHeal, r, history);
    TrailTimes(cfg.selfHeal, r, history);
    NeverAttempts(cfg.selfHeal, r, history);
  }
}
