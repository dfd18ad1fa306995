/** The audit log and its rotation. File 0 is the current log, file k its k-th backup; the
    higher the number, the older the events. Every file operation may fail. */
module AuditLog {
  import opened Sorting
  import Quantities

  type Option<+T> = Quantities.Option<T>

  /** `length` is the size of the event's line in bytes. */
  datatype AuditEvent = AuditEvent(
    namespace: string,
    name: string,
    actor: string,
    operation: string,
    result: string,
    details: string,
    length: nat)

  type Files = map<int, seq<AuditEvent>>

  function Get(f: Files, k: int): seq<AuditEvent> {
    if k in f then f[k] else []
  }

  /** The events of the files from the oldest down to k + 1, oldest first. */
  function Older(f: Files, max: int, k: int): (events: seq<AuditEvent>)
    requires k <= max
    decreases max - k
  {
    if k == max then [] else Older(f, max, k + 1) + Get(f, k + 1)
  }

  /** All events on file, oldest first. */
  function Concat(f: Files, max: int): (events: seq<AuditEvent>)
    requires max >= 0
  {
    Older(f, max, -1)
  }

  function Size(events: seq<AuditEvent>): nat {
    if events == [] then 0 else Size(events[..|events| - 1]) + events[|events| - 1].length
  }

  ghost predicate IsSuffix<T(!new)>(a: seq<T>, b: seq<T>) {
    |a| <= |b| && a == b[|b| - |a|..]
  }

  // ------------------------------------------------------------ rotation

  /** Where the content of file k was before. */
  function Source(k: int, j: int): int {
    if k <= j then k else k - 1
  }

  /** A rotation that has come down to file j: files above j have moved up by one, the oldest
      is gone, and the place above j is free. Minus one is a complete rotation. */
  function Shifted(f: Files, max: int, j: int): (g: Files) {
    map k | 0 <= k <= max && k != j + 1 && Source(k, j) in f :: f[Source(k, j)]
  }

  function Moved(f: Files, source: int, target: int): Files {
    if source in f then (f - {source})[target := f[source]] else f
  }

  ghost predicate InPlace(f: Files, max: int) {
    forall k :: k in f ==> 0 <= k <= max
  }

  lemma ShiftStarts(f: Files, max: int)
    requires InPlace(f, max) && max >= 1
    ensures f - {max} == Shifted(f, max, max - 1)
  {
  }

  lemma ShiftStep(f: Files, max: int, j: int)
    requires InPlace(f, max) && 0 <= j < max
    ensures Moved(Shifted(f, max, j), j, j + 1) == Shifted(f, max, j - 1)
    ensures j + 1 !in Shifted(f, max, j) && InPlace(Shifted(f, max, j), max)
  {
    var a, b := Moved(Shifted(f, max, j), j, j + 1), Shifted(f, max, j - 1);
    assert forall k :: k in a <==> k in b;
  }

  lemma {:induction false} OldestFirst(f: Files, max: int, k: int)
    requires k < max
    ensures Older(f, max, k) == Get(f, max) + Older(f, max - 1, k)
    decreases max - k
  {
    if k < max - 1 {
      OldestFirst(f, max, k + 1);
    }
  }

  lemma ShiftedAt(f: Files, max: int, j: int, k: int)
    requires -1 <= j < max && 0 <= k <= max
    ensures Get(Shifted(f, max, j), k) == if k == j + 1 then [] else if k <= j then Get(f, k) else Get(f, k - 1)
  {
  }

  lemma {:induction false} ShiftOlder(f: Files, max: int, j: int, k: int)
    requires -1 <= j < max && -1 <= k <= max
    ensures Older(Shifted(f, max, j), max, k) == Older(f, max - 1, if k > j then k - 1 else k)
    decreases max - k
  {
    hide Shifted, Get;
    if k < max {
      ShiftOlder(f, max, j, k + 1);
      ShiftedAt(f, max, j, k + 1);
    }
  }

  /** A rotation, complete or broken off anywhere, loses exactly the oldest backup. */
  lemma ShiftLosesOldest(f: Files, max: int, j: int)
    requires max >= 1 && -1 <= j < max
    ensures Concat(f, max) == Get(f, max) + Concat(Shifted(f, max, j), max)
  {
    OldestFirst(f, max, -1);
    ShiftOlder(f, max, j, -1);
  }

  // ---------------------------------------------------------- one append

  function Oldest(max: int): int {
    if max < 0 then 0 else max
  }

  function Appended(f: Files, e: AuditEvent): Files {
    f[0 := Get(f, 0) + [e]]
  }

  predicate Full(f: Files, limit: int) {
    0 in f && Size(f[0]) >= limit
  }

  /** The files once a full log has been rotated away; without backups it is emptied. */
  function Rotated(f: Files, max: int, limit: int): Files {
    if !Full(f, limit) then f
    else if max <= 0 then f[0 := []]
    else Shifted(f, max, -1)
  }

  /** What an append that fails leaves: a rotation broken off somewhere, and no new event. */
  ghost predicate BrokenOff(f: Files, g: Files, max: int, limit: int) {
    || g == f
    || g == Rotated(f, max, limit)
    || (Full(f, limit) && max >= 1 && exists j :: -1 <= j < max && g == Shifted(f, max, j))
  }

  /** Everything one call of `Append` can do. */
  ghost predicate AppendStep(f: Files, g: Files, e: AuditEvent, ok: bool, max: int, limit: int) {
    if ok then g == Appended(Rotated(f, max, limit), e) else BrokenOff(f, g, max, limit)
  }

  // The same, call by call: `fails` says which file operations fail.

  datatype Tried = Tried(files: Files, tick: nat, ok: bool)

  /** `removeIfExists` */
  function Removed(f: Files, k: int, fails: nat -> bool, tick: nat): Tried {
    Tried(if fails(tick) then f else f - {k}, tick + 1, !fails(tick))
  }

  /** `renameIfExists`, which removes the target first */
  function Renamed(f: Files, source: int, target: int, fails: nat -> bool, tick: nat): Tried {
    if fails(tick) || source !in f then Tried(f, tick + 1, !fails(tick))
    else
      var free := Removed(f, target, fails, tick + 1);
      if !free.ok || fails(tick + 2) then Tried(free.files, if free.ok then tick + 3 else tick + 2, false)
      else Tried((free.files - {source})[target := f[source]], tick + 3, true)
  }

  /** One turn of the rotation: the oldest backup goes, any other file moves up by one. */
  function MovedUp(f: Files, max: int, i: int, fails: nat -> bool, tick: nat): Tried {
    if i == max then Removed(f, i, fails, tick) else Renamed(f, i, i + 1, fails, tick)
  }

  /** The turns from file i down to the current log, up to the first that fails. */
  function Climbed(f: Files, max: int, i: int, fails: nat -> bool, tick: nat): Tried
    decreases i + 1
  {
    if i < 0 then Tried(f, tick, true)
    else
      var moved := MovedUp(f, max, i, fails, tick);
      if !moved.ok then moved else Climbed(moved.files, max, i - 1, fails, moved.tick)
  }

  /** `rotateIfNeeded` */
  function RotationTried(f: Files, max: int, limit: int, fails: nat -> bool, tick: nat): Tried {
    if fails(tick) || !Full(f, limit) then Tried(f, tick + 1, !fails(tick))
    else if max <= 0 then Tried(if fails(tick + 1) then f else f[0 := []], tick + 2, !fails(tick + 1))
    else Climbed(f, max, max, fails, tick + 1)
  }

  /** `Append`: the directory, the rotation, the line. */
  function AppendTried(f: Files, e: AuditEvent, max: int, limit: int, fails: nat -> bool, tick: nat): Tried {
    if fails(tick) then Tried(f, tick + 1, false)
    else
      var rotated := RotationTried(f, max, limit, fails, tick + 1);
      if !rotated.ok then rotated
      else if fails(rotated.tick) then Tried(rotated.files, rotated.tick + 1, false)
      else Tried(Appended(rotated.files, e), rotated.tick + 1, true)
  }

  lemma MovedUpShifts(was: Files, f: Files, max: int, i: int, fails: nat -> bool, tick: nat)
    requires 0 <= i <= max && max >= 1 && InPlace(was, max)
    requires f == if i == max then was else Shifted(was, max, i)
    ensures var moved := MovedUp(f, max, i, fails, tick);
            moved.files == if moved.ok then Shifted(was, max, i - 1) else f
  {
    hide Shifted;
    if i == max {
      ShiftStarts(was, max);
    } else {
      ShiftStep(was, max, i);
      assert f - {i + 1} == f;
    }
  }

  lemma {:induction false} ClimbedBreaksOff(was: Files, f: Files, max: int, i: int, fails: nat -> bool, tick: nat)
    requires -1 <= i <= max && max >= 1 && InPlace(was, max)
    requires f == if i == max then was else Shifted(was, max, i)
    ensures var c := Climbed(f, max, i, fails, tick);
            if c.ok then c.files == Shifted(was, max, -1)
            else c.files == was || exists j :: -1 <= j < max && c.files == Shifted(was, max, j)
    decreases i + 1
  {
    hide Shifted, MovedUp;
    if i >= 0 {
      MovedUpShifts(was, f, max, i, fails, tick);
      var moved := MovedUp(f, max, i, fails, tick);
      if moved.ok {
        ClimbedBreaksOff(was, moved.files, max, i - 1, fails, moved.tick);
      }
    }
  }

  /** Whatever fails, an append does one of the things an append can do. */
  lemma AttemptIsStep(f: Files, e: AuditEvent, max: int, limit: int, fails: nat -> bool, tick: nat)
    requires InPlace(f, Oldest(max))
    ensures var a := AppendTried(f, e, max, limit, fails, tick); AppendStep(f, a.files, e, a.ok, max, limit)
  {
    hide Shifted, Climbed;
    if max >= 1 {
      ClimbedBreaksOff(f, f, max, max, fails, tick + 2);
    }
  }

  lemma BrokenInPlace(f: Files, max: int, limit: int)
    requires InPlace(f, Oldest(max))
    ensures forall g :: BrokenOff(f, g, max, limit) ==> InPlace(g, Oldest(max))
    ensures InPlace(Rotated(f, max, limit), Oldest(max))
  {
  }

  lemma RotatedSuffix(f: Files, g: Files, max: int, limit: int)
    requires BrokenOff(f, g, max, limit)
    ensures IsSuffix(Concat(g, Oldest(max)), Concat(f, Oldest(max)))
  {
    if max <= 0 {
      assert Concat(g, 0) == Get(g, 0) && Concat(f, 0) == Get(f, 0);
    } else if g != f {
      var j :| -1 <= j < max && g == Shifted(f, max, j);
      ShiftLosesOldest(f, max, j);
    }
  }

  lemma {:induction false} AppendedOlder(f: Files, e: AuditEvent, max: int, k: int)
    requires 0 <= k <= max
    ensures Older(Appended(f, e), max, k) == Older(f, max, k)
    decreases max - k
  {
    if k < max {
      AppendedOlder(f, e, max, k + 1);
    }
  }

  lemma AppendedConcat(f: Files, e: AuditEvent, max: int)
    requires max >= 0
    ensures Concat(Appended(f, e), max) == Concat(f, max) + [e]
  {
    AppendedOlder(f, e, max, 0);
  }

  lemma SuffixItself<T(!new)>(a: seq<T>)
    ensures IsSuffix(a, a)
  {
  }

  lemma SuffixTransitive<T(!new)>(a: seq<T>, b: seq<T>, c: seq<T>)
    requires IsSuffix(a, b) && IsSuffix(b, c)
    ensures IsSuffix(a, c)
  {
    assert a == b[|b| - |a|..] == c[|c| - |b|..][|b| - |a|..] == c[|c| - |a|..];
  }

  lemma SuffixSnoc<T(!new)>(a: seq<T>, b: seq<T>, x: T)
    requires IsSuffix(a, b)
    ensures IsSuffix(a + [x], b + [x])
  {
  }

  /** The files hold a suffix of the history before and after every append, failed or not. */
  lemma StepKeepsSuffix(f: Files, g: Files, e: AuditEvent, ok: bool, max: int, limit: int, history: seq<AuditEvent>)
    requires AppendStep(f, g, e, ok, max, limit)
    requires IsSuffix(Concat(f, Oldest(max)), history)
    ensures IsSuffix(Concat(g, Oldest(max)), if ok then history + [e] else history)
  {
    hide Rotated, IsSuffix, Shifted, Concat, Appended;
    var h := if ok then Rotated(f, max, limit) else g;
    RotatedSuffix(f, h, max, limit);
    SuffixTransitive(Concat(h, Oldest(max)), Concat(f, Oldest(max)), history);
    if ok {
      AppendedConcat(h, e, Oldest(max));
      SuffixSnoc(Concat(h, Oldest(max)), history, e);
    }
  }

  /** One call in a history of calls. */
  datatype Call = Call(event: AuditEvent, ok: bool)

  ghost predicate Linked(states: seq<Files>, calls: seq<Call>, max: int, limit: int) {
    && |states| == |calls| + 1
    && forall i :: 0 <= i < |calls| ==> AppendStep(states[i], states[i + 1], calls[i].event, calls[i].ok, max, limit)
  }

  function Accepted(calls: seq<Call>): (events: seq<AuditEvent>) {
    if calls == [] then []
    else Accepted(calls[..|calls| - 1]) + if calls[|calls| - 1].ok then [calls[|calls| - 1].event] else []
  }

  /** Audit history: after any sequence of appends, whatever fails, the files read from the
      oldest backup to the current log are a suffix of what they held at the start followed
      by the events whose append succeeded. */
  lemma {:induction false} RunKeepsSuffix(states: seq<Files>, calls: seq<Call>, max: int, limit: int)
    requires Linked(states, calls, max, limit)
    ensures IsSuffix(Concat(states[|calls|], Oldest(max)), Concat(states[0], Oldest(max)) + Accepted(calls))
  {
    hide AppendStep, IsSuffix, Concat;
    var n := |calls|;
    var before := Concat(states[0], Oldest(max));
    if n == 0 {
      SuffixItself(before);
      assert before + Accepted(calls) == before;
    } else {
      RunKeepsSuffix(states[..n], calls[..n - 1], max, limit);
      var last := calls[n - 1];
      StepKeepsSuffix(states[n - 1], states[n], last.event, last.ok, max, limit, before + Accepted(calls[..n - 1]));
      if last.ok {
        assert before + Accepted(calls) == before + Accepted(calls[..n - 1]) + [last.event];
      } else {
        assert Accepted(calls) == Accepted(calls[..n - 1]);
      }
    }
  }

  /** The bytes of a list of lines. */
  lemma SizeExactly(s: seq<AuditEvent>, e: AuditEvent)
    ensures Size([]) == 0 && Size(s + [e]) == Size(s) + e.length
  {
    assert (s + [e])[..|s|] == s;
  }

  /** Where the new line goes: an append that succeeds starts the log afresh if it was there and
      had reached the limit, and otherwise goes on with it. */
  lemma AppendedLog(f: Files, g: Files, e: AuditEvent, max: int, limit: int)
    requires AppendStep(f, g, e, true, max, limit)
    ensures 0 in g && g[0] == (if 0 in f && Size(f[0]) >= limit then [] else Get(f, 0)) + [e]
    ensures 0 in f && Size(f[0]) >= limit && max >= 1 ==> 1 in g && g[1] == f[0]
    ensures !(0 in f && Size(f[0]) >= limit) ==> forall k :: k != 0 ==> (k in g <==> k in f) && (k in g ==> g[k] == f[k])
  {
  }

  /** Some append can fail and take events off the files. */
  ghost predicate Lossy(f: Files, max: int, limit: int) {
    exists fails: nat -> bool, tick: nat, e ::
      var a := AppendTried(f, e, max, limit, fails, tick);
      !a.ok && Concat(a.files, Oldest(max)) != Concat(f, Oldest(max))
  }

  /** When an append that fails can lose events, exactly: when the log is full and the file that
      a rotation gives up holds any. That file is the oldest backup, or, if no backups are
      kept, the log itself, which is then emptied. */
  lemma FailureLosesExactly(f: Files, max: int, limit: int)
    requires InPlace(f, Oldest(max))
    ensures Lossy(f, max, limit) <==> Full(f, limit) && Get(f, Oldest(max)) != []
  {
    var oldest := Oldest(max);
    if Full(f, limit) && Get(f, oldest) != [] {
      FourthFailureLoses(f, max, limit);
    }
    if Lossy(f, max, limit) {
      var fails: nat -> bool, tick: nat, e :|
        var a := AppendTried(f, e, max, limit, fails, tick); !a.ok && Concat(a.files, oldest) != Concat(f, oldest);
      hide Concat, Shifted, Get, AppendTried;
      AttemptIsStep(f, e, max, limit, fails, tick);
      BrokenOffLoses(f, AppendTried(f, e, max, limit, fails, tick).files, max, limit);
    }
  }

  /** The directory is there, the log is looked at, the oldest file is given up; then the next
      operation fails. */
  lemma FourthFailureLoses(f: Files, max: int, limit: int)
    requires InPlace(f, Oldest(max)) && Full(f, limit) && Get(f, Oldest(max)) != []
    ensures Lossy(f, max, limit)
  {
    var fails, e := (t: nat) => t == 3, AuditEvent("", "", "", "", "", "", 0);
    var a := AppendTried(f, e, max, limit, fails, 0);
    if max <= 0 {
      assert !a.ok && a.files == f[0 := []] == Rotated(f, max, limit);
      RotationLoses(f, max, limit);
    } else {
      assert Climbed(f, max, max, fails, 2) == MovedUp(f - {max}, max, max - 1, fails, 3);
      assert !a.ok && a.files == f - {max};
      ShiftStarts(f, max);
      ShiftLosesOldest(f, max, max - 1);
    }
    assert !a.ok && Concat(a.files, Oldest(max)) != Concat(f, Oldest(max));
  }

  lemma RotationLoses(f: Files, max: int, limit: int)
    requires Full(f, limit)
    ensures Concat(f, Oldest(max)) == Get(f, Oldest(max)) + Concat(Rotated(f, max, limit), Oldest(max))
  {
    if max >= 1 {
      ShiftLosesOldest(f, max, -1);
    } else {
      assert Concat(f, 0) == Get(f, 0) && Concat(f[0 := []], 0) == [];
    }
  }

  lemma BrokenOffLoses(f: Files, g: Files, max: int, limit: int)
    requires BrokenOff(f, g, max, limit) && Concat(g, Oldest(max)) != Concat(f, Oldest(max))
    ensures Full(f, limit) && Get(f, Oldest(max)) != []
  {
    if Full(f, limit) {
      RotationLoses(f, max, limit);
      if j :| -1 <= j < max && g == Shifted(f, max, j) {
        if max >= 1 {
          ShiftLosesOldest(f, max, j);
        }
      }
      hide Concat, Shifted;
      var oldest := Oldest(max);
      assert [] + Concat(g, oldest) == Concat(g, oldest);
      assert [] + Concat(Rotated(f, max, limit), oldest) == Concat(Rotated(f, max, limit), oldest);
    }
  }

  /** n rotations in a row, each broken off just before the current log is moved. */
  function Drained(f: Files, max: int, n: nat): Files {
    if n == 0 then f else Shifted(Drained(f, max, n - 1), max, 0)
  }

  /** When the current log would be moved, if nothing failed. */
  function LastTurn(f: Files, max: int, i: int, tick: nat): nat
    decreases i
  {
    if i <= 0 then tick
    else
      var moved := MovedUp(f, max, i, (t: nat) => false, tick);
      LastTurn(moved.files, max, i - 1, moved.tick)
  }

  lemma {:induction false} LastTurnLater(f: Files, max: int, i: int, tick: nat)
    ensures LastTurn(f, max, i, tick) >= tick
    decreases i
  {
    if i > 0 {
      var moved := MovedUp(f, max, i, (t: nat) => false, tick);
      LastTurnLater(moved.files, max, i - 1, moved.tick);
    }
  }

  lemma {:induction false} LastTurnFails(was: Files, f: Files, max: int, i: int, fails: nat -> bool, tick: nat)
    requires 0 <= i <= max && max >= 1 && InPlace(was, max)
    requires f == if i == max then was else Shifted(was, max, i)
    requires forall t :: fails(t) <==> t == LastTurn(f, max, i, tick)
    ensures var c := Climbed(f, max, i, fails, tick); !c.ok && c.files == Shifted(was, max, 0)
    decreases i
  {
    hide Shifted;
    if i > 0 {
      var moved := MovedUp(f, max, i, (t: nat) => false, tick);
      LastTurnLater(moved.files, max, i - 1, moved.tick);
      assert moved == MovedUp(f, max, i, fails, tick);
      MovedUpShifts(was, f, max, i, fails, tick);
      LastTurnFails(was, moved.files, max, i - 1, fails, moved.tick);
    }
  }

  /** Some append can fail and leave g. */
  ghost predicate CanLeave(f: Files, g: Files, max: int, limit: int) {
    exists fails: nat -> bool, tick: nat, e ::
      var a := AppendTried(f, e, max, limit, fails, tick); !a.ok && a.files == g
  }

  lemma LeavesShifted(f: Files, max: int, limit: int)
    requires InPlace(f, max) && Full(f, limit) && max >= 1
    ensures CanLeave(f, Shifted(f, max, 0), max, limit)
  {
    hide Shifted, Climbed;
    var last := LastTurn(f, max, max, 2);
    LastTurnLater(f, max, max, 2);
    var fails, e := (t: nat) => t == last, AuditEvent("", "", "", "", "", "", 0);
    LastTurnFails(f, f, max, max, fails, 2);
    assert AppendTried(f, e, max, limit, fails, 0) == Climbed(f, max, max, fails, 2);
  }

  /** Each is an append that fails, and each gives up one more backup: after as many as there
      are backups, only the current log is left, although nothing was appended. */
  lemma {:induction false} FailedAppendsDrain(f: Files, max: int, limit: int, n: nat)
    requires InPlace(f, max) && Full(f, limit) && n <= max
    ensures InPlace(Drained(f, max, n), max)
    ensures Full(Drained(f, max, n), limit) && Get(Drained(f, max, n), 0) == Get(f, 0)
    ensures forall k :: 1 <= k <= n ==> k !in Drained(f, max, n)
    ensures n < max ==> CanLeave(Drained(f, max, n), Drained(f, max, n + 1), max, limit)
    ensures n == max ==> Concat(Drained(f, max, n), max) == Get(f, 0)
  {
    if n > 0 {
      FailedAppendsDrain(f, max, limit, n - 1);
    }
    if n == max {
      NoneOlder(Drained(f, max, n), max, 0);
    } else {
      LeavesShifted(Drained(f, max, n), max, limit);
    }
  }

  lemma {:induction false} NoneOlder(f: Files, max: int, k: int)
    requires 0 <= k <= max && forall i :: 1 <= i <= max ==> i !in f
    ensures Older(f, max, k) == []
    decreases max - k
  {
    if k < max {
      NoneOlder(f, max, k + 1);
    }
  }

  // --------------------------------------------------------------- queries

  datatype AuditQuery = AuditQuery(tail: int, namespace: string, name: string, actor: string, operation: string, result: string)

  /** `auditEventMatches` */
  predicate EventMatches(e: AuditEvent, q: AuditQuery) {
    && (q.namespace == "" || e.namespace == q.namespace)
    && (q.name == "" || e.name == q.name)
    && (q.actor == "" || e.actor == q.actor)
    && (q.operation == "" || e.operation == q.operation)
    && (q.result == "" || e.result == q.result)
  }

  function Wanted(q: AuditQuery): AuditEvent -> bool {
    (e: AuditEvent) => EventMatches(e, q)
  }

  /** At most the last n; a limit of zero or less is none. */
  function Last<T>(s: seq<T>, n: int): seq<T> {
    if n > 0 && |s| > n then s[|s| - n..] else s
  }

  /** What is kept of a list: as many as asked for, if there are, counted from its end. */
  lemma LastExactly<T>(s: seq<T>, n: int)
    ensures var kept := Last(s, n);
            && |kept| == (if 0 < n < |s| then n else |s|)
            && forall k :: 0 <= k < |kept| ==> kept[k] == s[|s| - |kept| + k]
  {
  }

  /** An event matches unless one of the filters that are set differs from its field. */
  lemma MatchesExactly(e: AuditEvent, q: AuditQuery)
    ensures var filters := [q.namespace, q.name, q.actor, q.operation, q.result];
            var fields := [e.namespace, e.name, e.actor, e.operation, e.result];
            EventMatches(e, q) <==> forall i :: 0 <= i < 5 && filters[i] != "" ==> filters[i] == fields[i]
  {
    var filters := [q.namespace, q.name, q.actor, q.operation, q.result];
    var fields := [e.namespace, e.name, e.actor, e.operation, e.result];
    if forall i :: 0 <= i < 5 && filters[i] != "" ==> filters[i] == fields[i] {
      assert filters[0] != "" ==> filters[0] == fields[0];
      assert filters[1] != "" ==> filters[1] == fields[1];
      assert filters[2] != "" ==> filters[2] == fields[2];
      assert filters[3] != "" ==> filters[3] == fields[3];
      assert filters[4] != "" ==> filters[4] == fields[4];
    }
  }

  lemma LastOfLast<T>(a: seq<T>, b: seq<T>, n: int)
    ensures Last(Last(a, n) + b, n) == Last(a + b, n)
  {
  }

  lemma NothingWanted(q: AuditQuery)
    ensures Last(Filter([], Wanted(q)), q.tail) == []
  {
  }

  class AuditLogger {
    const maxFileSize: int
    const maxBackups: int
    /** Whether the n-th file operation fails. */
    const fails: nat -> bool
    var files: Files
    var tick: nat
    /** The events on file at the start and those whose append succeeded. */
    ghost var history: seq<AuditEvent>

    ghost predicate Valid()
      reads this
    {
      && InPlace(files, Oldest(maxBackups))
      && IsSuffix(Concat(files, Oldest(maxBackups)), history)
    }

    constructor (files: Files, maxFileSize: int, maxBackups: int, fails: nat -> bool)
      requires InPlace(files, Oldest(maxBackups))
      ensures Valid() && history == Concat(files, Oldest(maxBackups)) && this.files == files
      ensures this.maxFileSize == maxFileSize && this.maxBackups == maxBackups && this.fails == fails
    {
      this.files, this.maxFileSize, this.maxBackups, this.fails := files, maxFileSize, maxBackups, fails;
      tick := 0;
      history := Concat(files, Oldest(maxBackups));
    }

    method FileCall() returns (ok: bool)
      modifies this`tick
      ensures (ok <==> !fails(old(tick))) && tick == old(tick) + 1
    {
      ok := !fails(tick);
      tick := tick + 1;
    }

    method RemoveIfExists(k: int) returns (ok: bool)
      modifies this`tick, this`files
      ensures Tried(files, tick, ok) == Removed(old(files), k, fails, old(tick))
    {
      ok := FileCall();
      if ok {
        files := files - {k};
      }
    }

    method RenameIfExists(source: int, target: int) returns (ok: bool)
      modifies this`tick, this`files
      requires source != target
      ensures Tried(files, tick, ok) == Renamed(old(files), source, target, fails, old(tick))
    {
      ok := FileCall();
      if !ok || source !in files {
        return;
      }
      ok := RemoveIfExists(target);
      if !ok {
        return;
      }
      ok := FileCall();
      if ok {
        files := (files - {source})[target := files[source]];
      }
    }

    method RotateIfNeeded() returns (ok: bool)
      modifies this`tick, this`files
      ensures Tried(files, tick, ok) == RotationTried(old(files), maxBackups, maxFileSize, fails, old(tick))
    {
      ok := FileCall();
      if !ok || 0 !in files || Size(files[0]) < maxFileSize {
        return;
      }
      if maxBackups <= 0 {
        ok := FileCall();
        if ok {
          files := files[0 := []];
        }
        return;
      }
      hide Size;
      ghost var start := tick;
      var i := maxBackups;
      while i >= 1
        invariant 0 <= i <= maxBackups
        invariant Climbed(files, maxBackups, i, fails, tick) == Climbed(old(files), maxBackups, maxBackups, fails, start)
      {
        if i == maxBackups {
          ok := RemoveIfExists(i);
        } else {
          ok := RenameIfExists(i, i + 1);
        }
        if !ok {
          return;
        }
        i := i - 1;
      }
      ok := RenameIfExists(0, 1);
    }

    /** Does what `AppendTried` says, call by call. So, whatever fails, the files keep a suffix
        of the history, to which the event is added exactly when the call succeeds; then it is
        the newest event on file. */
    method Append(e: AuditEvent) returns (ok: bool)
      requires Valid()
      modifies this
      ensures Valid()
      ensures Tried(files, tick, ok) == AppendTried(old(files), e, maxBackups, maxFileSize, fails, old(tick))
      ensures AppendStep(old(files), files, e, ok, maxBackups, maxFileSize)
      ensures history == if ok then old(history) + [e] else old(history)
    {
      AttemptIsStep(files, e, maxBackups, maxFileSize, fails, tick);
      hide Size, Climbed, Concat, IsSuffix;
      ok := FileCall();
      if ok {
        ok := RotateIfNeeded();
        if ok {
          ok := FileCall();
          if ok {
            files := Appended(files, e);
            history := history + [e];
          }
        }
      }
      StepKeepsSuffix(old(files), files, e, ok, maxBackups, maxFileSize, old(history));
      BrokenInPlace(old(files), maxBackups, maxFileSize);
    }

    /** The last matching events on file, although each file is trimmed on its own. */
    method Read(q: AuditQuery) returns (events: Option<seq<AuditEvent>>)
      modifies this`tick
      ensures events.Some? ==>
                events.value == Last(Filter(Concat(files, Oldest(maxBackups)), Wanted(q)), q.tail)
      ensures (forall t :: !fails(t)) ==> events.Some?
    {
      hide Filter, Last, EventMatches;
      NothingWanted(q);
      var found: seq<AuditEvent> := [];
      ghost var max := Oldest(maxBackups);
      var i := Oldest(maxBackups);
      while i >= 0
        invariant -1 <= i <= max
        invariant found == Last(Filter(Older(files, max, i), Wanted(q)), q.tail)
      {
        var ok := FileCall();
        if !ok {
          return Quantities.None;
        }
        ghost var seen := Filter(Older(files, max, i), Wanted(q));
        var here := Filter(Get(files, i), Wanted(q));
        FilterConcat(Older(files, max, i), Get(files, i), Wanted(q));
        LastOfLast(seen, here, q.tail);
        found := Last(found + here, q.tail);
        i := i - 1;
      }
      return Quantities.Some(found);
    }
  }
}
