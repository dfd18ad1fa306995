/** Self-heal bookkeeping for one container: how often a restart may be attempted, and when. */
module Restarts {
  import Arith

  datatype Note = Nothing | Failing | LimitExceeded | BackingOff

  /** What has happened to a container: a restart, or the end of a failure streak. */
  datatype Mark = Restarted(at: nat) | Recovered

  /** Times are in ticks since the zero time, which comes before every attempt. `past` is a
      history variable: it decides nothing. */
  datatype Record = Record(count: nat, streak: nat, last: nat, next: nat, note: Note, past: seq<Mark>)

  const FRESH := Record(0, 0, 0, 0, Nothing, [])

  datatype SelfHeal = SelfHeal(enabled: bool, maxRestarts: nat, backoff: nat)

  /** The three refusals of `healContainer`, in its order, or an attempt. */
  datatype Verdict = Disabled | Exhausted | Waiting | Attempt

  function Judge(cfg: SelfHeal, r: Record, now: nat): Verdict {
    if !cfg.enabled then Disabled
    else if r.streak >= cfg.maxRestarts then Exhausted
    else if now < r.next then Waiting
    else Attempt
  }

  /** The record `healContainer` leaves. */
  function Healed(cfg: SelfHeal, r: Record, now: nat): Record {
    match Judge(cfg, r, now)
    case Disabled => r.(note := Failing)
    case Exhausted => r.(note := LimitExceeded)
    case Waiting => r.(note := BackingOff)
    case Attempt =>
      Record(r.count + 1, r.streak + 1, now, now + (r.streak + 1) * cfg.backoff, Failing, r.past + [Restarted(now)])
  }

  /** A record without attempts. */
  predicate Untried(r: Record) {
    r.count == 0 && r.streak == 0
  }

  /** `markRestartHealthy`: a record without attempts is left alone, and NextAttempt is kept. */
  function MarkedHealthy(r: Record): Record {
    if Untried(r) then r else r.(streak := 0, note := Nothing, past := r.past + [Recovered])
  }

  // ----------------------------------------------------------- all histories

  datatype Event = Heal(at: nat) | Healthy | Message(note: Note)

  function Step(cfg: SelfHeal, r: Record, e: Event): Record {
    match e
    case Heal(at) => Healed(cfg, r, at)
    case Healthy => MarkedHealthy(r)
    case Message(note) => r.(note := note)
  }

  function Run(cfg: SelfHeal, r: Record, es: seq<Event>): Record
    decreases |es|
  {
    if es == [] then r else Run(cfg, Step(cfg, r, es[0]), es[1..])
  }

  predicate IsAttempt(cfg: SelfHeal, r: Record, e: Event) {
    e.Heal? && Judge(cfg, r, e.at) == Attempt
  }

  /** The times of the restarts a history makes. */
  function Attempts(cfg: SelfHeal, r: Record, es: seq<Event>): (times: seq<nat>)
    decreases |es|
  {
    if es == [] then []
    else (if IsAttempt(cfg, r, es[0]) then [es[0].at] else []) + Attempts(cfg, Step(cfg, r, es[0]), es[1..])
  }

  /** What a history adds to a record's past. */
  function Trail(cfg: SelfHeal, r: Record, es: seq<Event>): (marks: seq<Mark>)
    decreases |es|
  {
    if es == [] then []
    else Marks(cfg, r, es[0]) + Trail(cfg, Step(cfg, r, es[0]), es[1..])
  }

  function Marks(cfg: SelfHeal, r: Record, e: Event): seq<Mark> {
    if IsAttempt(cfg, r, e) then [Restarted(e.at)]
    else if e.Healthy? && !Untried(r) then [Recovered] else []
  }

  /** The times of the restarts among some marks. */
  function Times(marks: seq<Mark>): (times: seq<nat>) {
    if marks == [] then []
    else (if marks[0].Restarted? then [marks[0].at] else []) + Times(marks[1..])
  }

  lemma {:induction false} TimesAppend(a: seq<Mark>, b: seq<Mark>)
    ensures Times(a + b) == Times(a) + Times(b)
  {
    if a == [] {
      assert a + b == b;
    } else {
      assert (a + b)[0] == a[0] && (a + b)[1..] == a[1..] + b;
      TimesAppend(a[1..], b);
    }
  }

  lemma {:induction false} TrailTimes(cfg: SelfHeal, r: Record, es: seq<Event>)
    ensures Times(Trail(cfg, r, es)) == Attempts(cfg, r, es)
    decreases |es|
  {
    if es != [] {
      var next, rest := Step(cfg, r, es[0]), es[1..];
      TrailTimes(cfg, next, rest);
      var marks := Marks(cfg, r, es[0]);
      TimesAppend(marks, Trail(cfg, next, rest));
      hide Step;
      assert Times(marks) == if IsAttempt(cfg, r, es[0]) then [es[0].at] else [];
      assert Trail(cfg, r, es) == marks + Trail(cfg, next, rest);
    }
  }

  lemma StepPast(cfg: SelfHeal, r: Record, e: Event)
    ensures Step(cfg, r, e).past == r.past + Marks(cfg, r, e) && |Marks(cfg, r, e)| <= 1
  {
  }

  /** The past of a record is what has happened to it. */
  lemma {:induction false} PastIsTrail(cfg: SelfHeal, r: Record, es: seq<Event>)
    ensures Run(cfg, r, es).past == r.past + Trail(cfg, r, es)
    decreases |es|
  {
    if es != [] {
      StepPast(cfg, r, es[0]);
      hide Step, Marks;
      PastIsTrail(cfg, Step(cfg, r, es[0]), es[1..]);
    }
  }

  lemma {:induction false} RunAppend(cfg: SelfHeal, r: Record, a: seq<Event>, b: seq<Event>)
    ensures Run(cfg, r, a + b) == Run(cfg, Run(cfg, r, a), b)
    decreases |a|
  {
    hide Step;
    if a == [] {
      assert a + b == b;
    } else {
      assert (a + b)[0] == a[0] && (a + b)[1..] == a[1..] + b;
      RunAppend(cfg, Step(cfg, r, a[0]), a[1..], b);
    }
  }

  /** The streak never exceeds the limit or the count, and the count is the number of restarts,
      over every interleaving of heals, healthy marks and messages. */
  lemma {:induction false} StreakBounded(cfg: SelfHeal, r: Record, es: seq<Event>)
    requires r.streak <= cfg.maxRestarts && r.streak <= r.count
    ensures var out := Run(cfg, r, es);
            out.streak <= cfg.maxRestarts && out.streak <= out.count
            && out.count == r.count + |Attempts(cfg, r, es)|
    decreases |es|
  {
    if es != [] {
      hide Healed;
      StepBounded(cfg, r, es[0]);
      StreakBounded(cfg, Step(cfg, r, es[0]), es[1..]);
    }
  }

  lemma StepBounded(cfg: SelfHeal, r: Record, e: Event)
    requires r.streak <= cfg.maxRestarts && r.streak <= r.count
    ensures var out := Step(cfg, r, e);
            out.streak <= cfg.maxRestarts && out.streak <= out.count
            && out.count == r.count + if IsAttempt(cfg, r, e) then 1 else 0
  {
  }

  /** The pause after an attempt grows with the streak; no event shortens it. */
  lemma StepPause(cfg: SelfHeal, r: Record, e: Event)
    ensures !IsAttempt(cfg, r, e) ==> Step(cfg, r, e).next == r.next
    ensures !IsAttempt(cfg, r, e) && !e.Healthy? ==> Step(cfg, r, e).streak == r.streak
    ensures IsAttempt(cfg, r, e) ==>
              e.at >= r.next && Step(cfg, r, e).next == e.at + (r.streak + 1) * cfg.backoff
              && Step(cfg, r, e).streak == r.streak + 1
  {
  }

  /** Any two restarts are at least one backoff apart per restart between them, even across
      healthy marks, because a healthy mark keeps NextAttempt. So a window of length T holds
      at most T / backoff + 1 restarts. */
  lemma {:induction false} AttemptsSpaced(cfg: SelfHeal, r: Record, es: seq<Event>, i: nat, j: nat)
    requires i <= j < |Attempts(cfg, r, es)|
    ensures Attempts(cfg, r, es)[i] >= r.next
    ensures Attempts(cfg, r, es)[j] >= Attempts(cfg, r, es)[i] + (j - i) * cfg.backoff
    decreases |es|
  {
    var next, rest := Step(cfg, r, es[0]), es[1..];
    StepPause(cfg, r, es[0]);
    hide Step, Judge;
    if IsAttempt(cfg, r, es[0]) {
      Arith.Monotone(1, r.streak + 1, cfg.backoff);
      if i > 0 {
        AttemptsSpaced(cfg, next, rest, i - 1, j - 1);
      } else if j > 0 {
        AttemptsSpaced(cfg, next, rest, 0, j - 1);
        Arith.Distribute(j - 1, 1, cfg.backoff);
      } else {
        assert (j - i) * cfg.backoff == 0;
      }
    } else {
      AttemptsSpaced(cfg, next, rest, i, j);
    }
  }

  lemma WindowHoldsFew(cfg: SelfHeal, r: Record, es: seq<Event>, i: nat, j: nat, window: nat)
    requires i <= j < |Attempts(cfg, r, es)| && cfg.backoff > 0
    requires Attempts(cfg, r, es)[j] <= Attempts(cfg, r, es)[i] + window
    ensures j - i + 1 <= window / cfg.backoff + 1
  {
    AttemptsSpaced(cfg, r, es, i, j);
    Quotient(j - i, window, cfg.backoff);
  }

  lemma Quotient(m: int, n: int, b: int)
    requires b > 0 && m * b <= n
    ensures m <= n / b
  {
    if n / b + 1 <= m {
      Arith.Monotone(n / b + 1, m, b);
      Arith.Distribute(n / b, 1, b);
      assert false;
    }
  }

  /** The least number of backoffs that k restarts span from streak s on. */
  function Spread(s: nat, k: nat): nat
    decreases k
  {
    if k <= 1 then 0 else s + 1 + Spread(s + 1, k - 1)
  }

  lemma {:induction false} SpreadQuadratic(s: nat, k: nat)
    ensures 2 * Spread(s, k) >= k * (k - 1)
    decreases k
  {
    if k > 1 {
      SpreadQuadratic(s, k - 1);
      SpreadShift(s, k - 1);
      NextTriangle(k);
    } else {
      assert k * (k - 1) == 0;
    }
  }

  lemma NextTriangle(k: int)
    ensures (k - 1) * (k - 2) + 2 * (k - 1) == k * (k - 1)
  {
  }

  lemma {:induction false} SpreadShift(s: nat, k: nat)
    requires k > 0
    ensures Spread(s + 1, k) == Spread(s, k) + (k - 1)
    decreases k
  {
    if k > 1 {
      SpreadShift(s + 1, k - 1);
    }
  }

  lemma {:induction false} SpanAtLeastSpread(cfg: SelfHeal, r: Record, es: seq<Event>)
    requires Recovered !in Trail(cfg, r, es)
    ensures var a := Attempts(cfg, r, es);
            a != [] ==> a[0] >= r.next && a[|a| - 1] >= a[0] + Spread(r.streak, |a|) * cfg.backoff
    ensures r.streak <= cfg.maxRestarts ==> |Attempts(cfg, r, es)| <= cfg.maxRestarts - r.streak
    decreases |es|
  {
    if es != [] {
      var next, rest := Step(cfg, r, es[0]), es[1..];
      StepPause(cfg, r, es[0]);
      var marks := Marks(cfg, r, es[0]);
      assert Trail(cfg, r, es) == marks + Trail(cfg, next, rest);
      assert Recovered !in marks;
      SpanAtLeastSpread(cfg, next, rest);
      assert !IsAttempt(cfg, r, es[0]) ==> next.streak == r.streak;
      assert IsAttempt(cfg, r, es[0]) ==> r.streak < cfg.maxRestarts;
      hide Step, Judge;
      var a, b := Attempts(cfg, r, es), Attempts(cfg, next, rest);
      if IsAttempt(cfg, r, es[0]) && b != [] {
        assert a == [es[0].at] + b;
        Arith.Distribute(r.streak + 1, Spread(r.streak + 1, |b|), cfg.backoff);
      }
    }
  }

  /** Quadratic backoff: k restarts with no recovery between them take at least
      backoff * k * (k - 1) / 2, and there are at most MaxRestarts of them. */
  lemma QuadraticBackoff(cfg: SelfHeal, r: Record, es: seq<Event>)
    requires Recovered !in Trail(cfg, r, es) && r.streak <= cfg.maxRestarts
    ensures var a := Attempts(cfg, r, es);
            var k := |a|;
            k <= cfg.maxRestarts && (k > 0 ==> 2 * (a[k - 1] - a[0]) >= k * (k - 1) * cfg.backoff)
  {
    SpanAtLeastSpread(cfg, r, es);
    var k := |Attempts(cfg, r, es)|;
    if k > 0 {
      SpreadQuadratic(r.streak, k);
      Arith.Monotone(k * (k - 1), 2 * Spread(r.streak, k), cfg.backoff);
      Arith.Associate(2, Spread(r.streak, k), cfg.backoff);
    }
  }

  // --------------------------------------------------- any stretch of a past

  /** A history can be cut where the past has a given length. */
  lemma {:induction false} Cut(cfg: SelfHeal, r: Record, es: seq<Event>, a: nat) returns (k: nat)
    requires |r.past| <= a <= |Run(cfg, r, es).past|
    ensures k <= |es| && |Run(cfg, r, es[..k]).past| == a
    decreases |es|
  {
    k := 0;
    if a > |r.past| {
      StepPast(cfg, r, es[0]);
      hide Step, Marks;
      k := Cut(cfg, Step(cfg, r, es[0]), es[1..], a);
      assert es[..k + 1][1..] == es[1..][..k];
      k := k + 1;
    }
  }

  lemma Stretch(cfg: SelfHeal, r: Record, es: seq<Event>, a: nat, b: nat) returns (s: Record, middle: seq<Event>)
    requires r.streak <= cfg.maxRestarts && r.streak <= r.count
    requires |r.past| <= a <= b <= |Run(cfg, r, es).past|
    ensures s.streak <= cfg.maxRestarts
    ensures Trail(cfg, s, middle) == Run(cfg, r, es).past[a..b]
  {
    var k := Cut(cfg, r, es, a);
    s := Run(cfg, r, es[..k]);
    assert es[..k] + es[k..] == es;
    RunAppend(cfg, r, es[..k], es[k..]);
    StreakBounded(cfg, r, es[..k]);
    var m := Cut(cfg, s, es[k..], b);
    middle := es[k..][..m];
    var last := es[k..][m..];
    assert middle + last == es[k..];
    RunAppend(cfg, s, middle, last);
    var t := Run(cfg, s, middle);
    PastIsTrail(cfg, s, middle);
    PastIsTrail(cfg, t, last);
    assert Run(cfg, r, es).past == s.past + Trail(cfg, s, middle) + Trail(cfg, t, last);
  }

  /** Quadratic backoff over any stretch of a past that holds no recovery. */
  lemma StretchQuadratic(cfg: SelfHeal, r: Record, es: seq<Event>, a: nat, b: nat)
    requires r.streak <= cfg.maxRestarts && r.streak <= r.count
    requires |r.past| <= a <= b <= |Run(cfg, r, es).past| && Recovered !in Run(cfg, r, es).past[a..b]
    ensures var t := Times(Run(cfg, r, es).past[a..b]);
            var k := |t|;
            k <= cfg.maxRestarts && (k > 0 ==> 2 * (t[k - 1] - t[0]) >= k * (k - 1) * cfg.backoff)
  {
    var s, middle := Stretch(cfg, r, es, a, b);
    TrailTimes(cfg, s, middle);
    QuadraticBackoff(cfg, s, middle);
  }

  // ------------------------------------------ a record is what its past makes it

  /** How many restarts have followed the last recovery. */
  function SinceRecovery(past: seq<Mark>): (n: nat) {
    if past == [] || past[|past| - 1].Recovered? then 0 else SinceRecovery(past[..|past| - 1]) + 1
  }

  /** The earliest next restart: after the last one, by one backoff for each restart since the
      recovery before it. A recovery does not bring it forward. */
  function DueAfter(cfg: SelfHeal, past: seq<Mark>): (due: nat) {
    if past == [] then 0
    else
      match past[|past| - 1]
      case Recovered => DueAfter(cfg, past[..|past| - 1])
      case Restarted(at) => at + SinceRecovery(past) * cfg.backoff
  }

  function LastRestart(past: seq<Mark>): (at: nat) {
    if past == [] then 0
    else
      match past[|past| - 1]
      case Recovered => LastRestart(past[..|past| - 1])
      case Restarted(at) => at
  }

  ghost predicate Faithful(cfg: SelfHeal, r: Record) {
    && r.streak == SinceRecovery(r.past) && r.count == |Times(r.past)|
    && r.next == DueAfter(cfg, r.past) && r.last == LastRestart(r.past)
  }

  lemma StepFaithful(cfg: SelfHeal, r: Record, e: Event)
    requires Faithful(cfg, r)
    ensures Faithful(cfg, Step(cfg, r, e))
  {
    StepPast(cfg, r, e);
    var marks := Marks(cfg, r, e);
    TimesAppend(r.past, marks);
    if marks == [] {
      assert r.past + marks == r.past;
    } else {
      assert (r.past + marks)[..|r.past|] == r.past;
    }
  }

  /** Every record is, whatever happens, exactly what its past makes it: the streak is the number
      of restarts since the last recovery, the count that of all restarts, and the next attempt
      is due one backoff per restart of the streak after the last one. */
  lemma {:induction false} RunFaithful(cfg: SelfHeal, r: Record, es: seq<Event>)
    requires Faithful(cfg, r)
    ensures Faithful(cfg, Run(cfg, r, es))
    decreases |es|
  {
    hide Faithful, Step;
    if es != [] {
      StepFaithful(cfg, r, es[0]);
      RunFaithful(cfg, Step(cfg, r, es[0]), es[1..]);
    }
  }

  lemma FreshFaithful(cfg: SelfHeal)
    ensures Faithful(cfg, FRESH)
  {
  }

  /** What is decided of an unhealthy container, from its past alone: it is restarted if and only
      if self-heal is on, fewer than the limit of restarts have followed the last recovery, and
      the backoff is over; it is given up if and only if as many as the limit have. A refusal
      changes only the note. */
  lemma DecidedByPast(cfg: SelfHeal, r: Record, now: nat)
    requires Faithful(cfg, r)
    ensures var s := Healed(cfg, r, now);
            && (cfg.enabled && SinceRecovery(r.past) < cfg.maxRestarts && now >= DueAfter(cfg, r.past)
                <==> s.past == r.past + [Restarted(now)])
            && (s.past != r.past + [Restarted(now)] ==> s == r.(note := s.note))
            && s.note == if cfg.enabled && SinceRecovery(r.past) >= cfg.maxRestarts then LimitExceeded
                         else if cfg.enabled && now < DueAfter(cfg, r.past) then BackingOff else Failing
    ensures Judge(cfg, r, now) == Exhausted <==> cfg.enabled && SinceRecovery(r.past) >= cfg.maxRestarts
    ensures Judge(cfg, r, now) == Disabled <==> !cfg.enabled
  {
    assert r.past != r.past + [Restarted(now)];
  }

  /** A container seen ready has recovered: the next time it is unhealthy, it has the whole
      limit of restarts before it again. One that was never restarted needs no recovery. */
  lemma ReadyRecovers(cfg: SelfHeal, r: Record)
    requires Faithful(cfg, r)
    ensures var s := MarkedHealthy(r);
            && SinceRecovery(s.past) == 0 && Faithful(cfg, s)
            && s.past == if Times(r.past) == [] && SinceRecovery(r.past) == 0 then r.past else r.past + [Recovered]
  {
    StepFaithful(cfg, r, Event.Healthy);
    hide DueAfter, LastRestart;
  }
}
