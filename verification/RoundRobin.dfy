/** `pickEndpoint`: one 64-bit counter per runtime and service, taken modulo the number of
    endpoints. How evenly the endpoints are chosen. */
module RoundRobin {
  import Arith

  /** Where a uint64 starts over. */
  const TURN := 0x1_0000_0000_0000_0000

  type Counters = map<string, int>

  function Counter(next: Counters, name: string): int {
    if name in next then next[name] else 0
  }

  function Advance(next: Counters, name: string): Counters {
    next[name := (Counter(next, name) + 1) % TURN]
  }

  predicate Bounded(next: Counters) {
    forall name :: name in next ==> 0 <= next[name] < TURN
  }

  /** What one service is given over a run of requests to any services, its n endpoints fixed. */
  function Choices(next: Counters, requests: seq<string>, name: string, n: nat): (picks: seq<int>)
    requires n > 0
    decreases |requests|
  {
    if requests == [] then []
    else
      (if requests[0] == name then [Counter(next, name) % n] else [])
      + Choices(Advance(next, requests[0]), requests[1..], name, n)
  }

  function Pick(start: int, i: int, n: nat): int
    requires n > 0
  {
    ((start + i) % TURN) % n
  }

  /** Requests to other services do not move the counter: the picks of one service are
      consecutive. */
  lemma {:induction false} PicksConsecutive(next: Counters, requests: seq<string>, name: string, n: nat, i: nat)
    requires n > 0 && Bounded(next)
    requires i < |Choices(next, requests, name, n)|
    ensures Choices(next, requests, name, n)[i] == Pick(Counter(next, name), i, n)
    decreases |requests|
  {
    var later := Advance(next, requests[0]);
    Advanced(next, requests[0], name);
    hide Advance, Bounded, Counter, Pick;
    if requests[0] == name {
      if i > 0 {
        PicksConsecutive(later, requests[1..], name, n, i - 1);
        TurnOver(Counter(next, name), i, n);
      } else {
        FirstPick(Counter(next, name), n);
      }
    } else {
      PicksConsecutive(later, requests[1..], name, n, i);
    }
  }

  lemma Advanced(next: Counters, other: string, name: string)
    requires Bounded(next)
    ensures Bounded(Advance(next, other)) && 0 <= Counter(next, name) < TURN
    ensures Counter(Advance(next, other), name)
            == if other == name then (Counter(next, name) + 1) % TURN else Counter(next, name)
  {
  }

  lemma FirstPick(c: int, n: nat)
    requires 0 <= c < TURN && n > 0
    ensures Pick(c, 0, n) == c % n
  {
  }

  lemma TurnOver(c: int, i: int, n: nat)
    requires 0 <= c < TURN && i > 0 && n > 0
    ensures Pick((c + 1) % TURN, i - 1, n) == Pick(c, i, n)
  {
    if c + 1 == TURN {
      assert (c + i) % TURN == (i - 1) % TURN by {
        assert c + i == (i - 1) + TURN;
      }
    }
  }

  function Times(picks: seq<int>, j: int): (n: nat) {
    if picks == [] then 0
    else Times(picks[..|picks| - 1], j) + if picks[|picks| - 1] == j then 1 else 0
  }

  /** Chosen floor(w/n) or ceil(w/n) times in a window of w picks. */
  predicate Even(picks: seq<int>, n: nat, j: int)
    requires n > 0
  {
    |picks| / n <= Times(picks, j) <= (|picks| + n - 1) / n
  }

  function Window(start: int, w: nat, n: nat): (picks: seq<int>)
    requires n > 0
    ensures |picks| == w && forall i :: 0 <= i < w ==> picks[i] == Pick(start, i, n)
  {
    seq(w, i => Pick(start, i, n))
  }

  // ------------------------------------------------------------- arithmetic

  lemma Quotient(q: int, n: int, r: int)
    requires n > 0 && 0 <= r < n
    ensures (q * n + r) / n == q && (q * n + r) % n == r
  {
    var x := q * n + r;
    var d := x / n - q;
    Arith.Distribute(q, d, n);
    assert x == (q + d) * n + x % n;
    if d > 0 {
      Arith.Monotone(1, d, n);
      assert false;
    } else if d < 0 {
      Arith.Monotone(d, -1, n);
      assert false;
    }
  }

  /** Adding less than two full turns to a multiple. */
  lemma QuotientNear(q: int, n: int, r: int)
    requires n > 0 && 0 <= r < 2 * n
    ensures (q * n + r) / n == if r < n then q else q + 1
  {
    if r < n {
      Quotient(q, n, r);
    } else {
      Arith.Distribute(q, 1, n);
      Quotient(q + 1, n, r - n);
    }
  }

  /** How many numbers below x leave remainder j. */
  function Below(x: int, n: int, j: int): int
    requires n > 0
  {
    (x + (n - 1 - j)) / n
  }

  lemma BelowStep(x: int, n: int, j: int)
    requires n > 0 && 0 <= j < n && x >= 0
    ensures Below(x + 1, n, j) == Below(x, n, j) + if x % n == j then 1 else 0
  {
    var q, r := x / n, x % n;
    assert x + (n - 1 - j) == q * n + (r + n - 1 - j);
    assert x + 1 + (n - 1 - j) == q * n + (r + n - j);
    QuotientNear(q, n, r + n - 1 - j);
    QuotientNear(q, n, r + n - j);
  }

  lemma BelowSpread(k: int, w: int, n: int, j: int)
    requires n > 0 && 0 <= j < n && k >= 0 && w >= 0
    ensures w / n <= Below(k + w, n, j) - Below(k, n, j) <= (w + n - 1) / n
  {
    var a := k + (n - 1 - j);
    assert k + w + (n - 1 - j) == a + w;
    Spread(a, w, n, a / n, a % n, w / n, w % n);
  }

  lemma Spread(a: int, w: int, n: int, p: int, b: int, q: int, r: int)
    requires n > 0 && 0 <= b < n && 0 <= r < n
    requires a == p * n + b && w == q * n + r
    ensures q <= (a + w) / n - p <= (w + n - 1) / n
  {
    Arith.Distribute(p, q, n);
    QuotientNear(p + q, n, b + r);
    assert a + w == (p + q) * n + (b + r);
    QuotientNear(q, n, r + n - 1);
    assert w + n - 1 == q * n + (r + n - 1);
  }

  /** A window whose picks are start, start + 1, ... modulo n. */
  ghost predicate Cyclic(picks: seq<int>, start: int, n: nat)
    requires n > 0
  {
    forall i :: 0 <= i < |picks| ==> picks[i] == (start + i) % n
  }

  lemma {:induction false} CyclicTimes(picks: seq<int>, start: nat, n: nat, j: int)
    requires n > 0 && 0 <= j < n && Cyclic(picks, start, n)
    ensures Times(picks, j) == Below(start + |picks|, n, j) - Below(start, n, j)
  {
    if picks != [] {
      var u := picks[..|picks| - 1];
      CyclicTimes(u, start, n, j);
      BelowStep(start + |u|, n, j);
      hide Below;
    }
  }

  lemma CyclicEven(picks: seq<int>, start: nat, n: nat, j: int)
    requires n > 0 && 0 <= j < n && Cyclic(picks, start, n)
    ensures Even(picks, n, j)
  {
    CyclicTimes(picks, start, n, j);
    BelowSpread(start, |picks|, n, j);
    hide Below;
  }

  // ----------------------------------------------------------------- fairness

  lemma NoWrap(start: int, i: int, n: nat)
    requires 0 <= start + i < TURN && n > 0
    ensures Pick(start, i, n) == (start + i) % n
  {
  }

  /** Round-robin fairness: in every run of requests, over which the counter does not wrap,
      each endpoint of a service is chosen floor(w/n) or ceil(w/n) times, from any start. */
  lemma FairRun(next: Counters, requests: seq<string>, name: string, n: nat, j: int)
    requires n > 0 && Bounded(next) && 0 <= j < n
    requires Counter(next, name) + |Choices(next, requests, name, n)| <= TURN
    ensures Even(Choices(next, requests, name, n), n, j)
  {
    var picks, start := Choices(next, requests, name, n), Counter(next, name);
    assert start >= 0;
    hide Pick, Choices, Even, Counter, Bounded;
    forall i | 0 <= i < |picks|
      ensures picks[i] == (start + i) % n
    {
      PicksConsecutive(next, requests, name, n, i);
      NoWrap(start, i, n);
    }
    CyclicEven(picks, start, n, j);
  }

  lemma WrapHarmless(x: nat, n: nat)
    requires n > 0 && TURN % n == 0
    ensures (x % TURN) % n == x % n
  {
    var t := x / TURN;
    var q := TURN / n;
    assert x == t * TURN + x % TURN;
    assert TURN == q * n;
    Arith.Associate(t, q, n);
    var rest := x % TURN;
    var a, b := rest / n, rest % n;
    assert rest == a * n + b;
    Arith.Distribute(t * q, a, n);
    assert x == (t * q + a) * n + b;
    Quotient(t * q + a, n, b);
  }

  /** When the counter wraps, fairness holds for every window exactly if the number of
      endpoints divides 2^64, which for more than one endpoint means a power of two. */
  lemma FairAcrossWrap(n: nat)
    requires 0 < n < TURN
    ensures (forall start: int, w: nat, j: int :: 0 <= start < TURN && 0 <= j < n ==> Even(Window(start, w, n), n, j))
            <==> TURN % n == 0
  {
    if TURN % n == 0 {
      forall start: int, w: nat, j: int | 0 <= start < TURN && 0 <= j < n
        ensures Even(Window(start, w, n), n, j)
      {
        forall i | 0 <= i < w
          ensures Window(start, w, n)[i] == (start + i) % n
        {
          WrapHarmless(start + i, n);
        }
        hide Even;
        CyclicEven(Window(start, w, n), start, n, j);
      }
    } else {
      UnfairWindow(n);
    }
  }

  /** The first endpoint twice within a window no longer than the list. */
  lemma UnfairWindow(n: nat)
    requires 0 < n < TURN && TURN % n != 0
    ensures var r := TURN % n; !Even(Window(TURN - r, r + 1, n), n, 0)
  {
    var r := TURN % n;
    var picks := Window(TURN - r, r + 1, n);
    LastMultiple(n, TURN / n, r);
    hide Pick, Even;
    FirstCounts(picks[..r]);
    OneRound(n, r);
    TooOften(picks, n);
  }

  lemma LastMultiple(n: nat, q: int, r: int)
    requires 0 < n < TURN && 0 < r < n && TURN == q * n + r
    ensures Pick(TURN - r, 0, n) == 0 && Pick(TURN - r, r, n) == 0
  {
    Quotient(q, n, 0);
  }

  lemma OneRound(n: int, r: int)
    requires 0 <= r < n
    ensures (r + 1 + n - 1) / n == 1
  {
    QuotientNear(0, n, r + n);
  }

  lemma TooOften(picks: seq<int>, n: nat)
    requires n > 0 && |picks| > 0 && (|picks| + n - 1) / n == 1 && Times(picks, 0) >= 2
    ensures !Even(picks, n, 0)
  {
  }

  lemma {:induction false} FirstCounts(picks: seq<int>)
    requires picks != [] && picks[0] == 0
    ensures Times(picks, 0) >= 1
  {
    if |picks| > 1 {
      FirstCounts(picks[..|picks| - 1]);
    }
  }
}
