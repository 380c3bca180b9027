/** How many guesses the lockout of `AbuseGuard` lets through, how often it can
    lock, and that no better bounds hold. Every run is one of failures alone: a
    success or an administrator starts afresh. */
module LockoutBounds {
  import opened Arithmetic
  import opened Options
  import opened AbuseGuard

  /** How often a count was dropped because its window had run out. */
  function Resets(row: Option<Row>, times: seq<int>, p: Policy): nat
    decreases |times|
  {
    if times == [] then 0
    else
      (if row.Some? && !Held(row, times[0]) && WindowElapsed(row.value, times[0], p) then 1 else 0) +
      Resets(Some(Fail(row, times[0], p)), times[1..], p)
  }

  /** What every reachable row satisfies at time `now`. */
  predicate Sane(row: Option<Row>, now: int, p: Policy)
  {
    row.Some? ==> row.value.firstFailedAt <= now && (p.maxFailures >= 2 ==> row.value.failedCount < p.maxFailures)
  }

  lemma {:induction false} ReachableIsSane(row: Option<Row>, times: seq<int>, now: int, p: Policy)
    requires Ordered(times + [now])
    requires Sane(row, (times + [now])[0], p)
    ensures Sane(Run(row, times, p), now, p)
    decreases |times|
  {
    if times != [] {
      var rest := times[1..] + [now];
      assert forall k :: 0 <= k < |rest| ==> rest[k] == (times + [now])[k + 1];
      ReachableIsSane(Some(Fail(row, times[0], p)), times[1..], now, p);
    }
  }

  // ----- counted failures, locks and windows

  /** A lock uses up at most `maxFailures` counted failures, a dropped count one less. */
  lemma {:induction false} CountedByLocks(row: Option<Row>, times: seq<int>, p: Policy)
    requires p.maxFailures >= 2 && (row.Some? ==> row.value.failedCount < p.maxFailures)
    ensures (if row.Some? then row.value.failedCount else 0) + Counted(row, times, p) <=
            p.maxFailures * Locks(row, times, p) + (p.maxFailures - 1) * (Resets(row, times, p) + 1)
    decreases |times|
  {
    if times != [] {
      var next := Fail(row, times[0], p);
      CountedByLocks(Some(next), times[1..], p);
      var l, r, m := Locks(Some(next), times[1..], p), Resets(Some(next), times[1..], p), p.maxFailures;
      OneMore(m, l);
      OneMore(m - 1, r + 1);
    }
  }

  /** Every dropped count opens its window more than `windowMs` after the last. */
  lemma {:induction false} ResetsTakeTime(row: Row, times: seq<int>, last: int, p: Policy)
    requires Ordered(times + [last]) && row.firstFailedAt <= (times + [last])[0]
    ensures row.firstFailedAt + Resets(Some(row), times, p) * (p.windowMs + 1) <= last
    decreases |times|
  {
    if times == [] {
      assert Resets(Some(row), times, p) == 0;
    } else {
      var rest := times[1..] + [last];
      assert forall k :: 0 <= k < |rest| ==> rest[k] == (times + [last])[k + 1];
      var next := Fail(Some(row), times[0], p);
      ResetsTakeTime(next, times[1..], last, p);
      var r, w := Resets(Some(next), times[1..], p), p.windowMs + 1;
      assert (r + 1) * w == r * w + w;
    }
  }

  lemma FirstFailureOpens(times: seq<int>, p: Policy)
    requires times != []
    ensures Fail(None, times[0], p) == Row(1, 0, times[0], times[0], None)
    ensures Run(None, times, p) == Run(Some(Fail(None, times[0], p)), times[1..], p)
    ensures Counted(None, times, p) == 1 + Counted(Some(Fail(None, times[0], p)), times[1..], p)
    ensures Locks(None, times, p) == Locks(Some(Fail(None, times[0], p)), times[1..], p)
    ensures Resets(None, times, p) == Resets(Some(Fail(None, times[0], p)), times[1..], p)
  {
  }

  function Span(times: seq<int>): int
    requires times != []
  {
    times[|times| - 1] - times[0]
  }

  lemma OrderedRest(times: seq<int>)
    requires times != [] && Ordered(times)
    ensures Ordered(times[1..] + [times[|times| - 1]]) && times[0] <= (times[1..] + [times[|times| - 1]])[0]
    ensures Span(times) >= 0
  {
    var rest := times[1..] + [times[|times| - 1]];
    assert forall k :: 0 <= k < |times| - 1 ==> rest[k] == times[k + 1];
  }

  /** A run of length T counts at most `maxFailures` guesses a lock and
      `maxFailures - 1` for each of the windows that fit into T. */
  lemma GuessBound(times: seq<int>, p: Policy)
    requires p.maxFailures >= 2 && times != [] && Ordered(times)
    ensures Counted(None, times, p) <=
            p.maxFailures * Locks(None, times, p) + (p.maxFailures - 1) * (Span(times) / (p.windowMs + 1) + 1)
  {
    hide Run, Counted, Locks, Resets, Fail;
    var row := Fail(None, times[0], p);
    OrderedRest(times);
    FirstFailureOpens(times, p);
    CountedByLocks(None, times, p);
    ResetsTakeTime(row, times[1..], times[|times| - 1], p);
    var r := Resets(None, times, p);
    DivideBy(Span(times), r, p.windowMs + 1);
    Scale(p.maxFailures - 1, r + 1, Span(times) / (p.windowMs + 1) + 1);
  }

  // ----- backoff

  /** The first `k` lock lengths together. */
  function SumMs(k: nat, p: Policy): nat
  {
    if k == 0 then 0 else SumMs(k - 1, p) + LockMs(k - 1, p)
  }

  /** No lock is applied while one is in force. `from` is when the next one can be. */
  lemma {:induction false} LocksTakeTime(row: Row, times: seq<int>, from: int, last: int, p: Policy)
    requires Ordered(times + [last])
    requires row.lockedUntil == Some(from) || (row.lockedUntil.None? && from <= (times + [last])[0])
    ensures var k := Locks(Some(row), times, p);
            k > 0 ==> from + SumMs(row.lockoutCount + k - 1, p) - SumMs(row.lockoutCount, p) <= last
    decreases |times|
  {
    hide Pow2, LockMs;
    if times != [] {
      var rest := times[1..] + [last];
      assert forall k :: 0 <= k < |rest| ==> rest[k] == (times + [last])[k + 1];
      var all, now := times + [last], times[0];
      assert all[0] == now && all[0] <= all[1] == rest[0] && all[0] <= all[|times|] == last;
      var next := Fail(Some(row), now, p);
      var from' := if Trips(Some(row), now, p) then now + LockMs(row.lockoutCount, p) else from;
      LocksTakeTime(next, times[1..], from', last, p);
    }
  }

  lemma BackoffBound(times: seq<int>, p: Policy)
    requires times != [] && Ordered(times) && Locks(None, times, p) > 0
    ensures SumMs(Locks(None, times, p) - 1, p) <= Span(times)
  {
    hide Locks;
    OrderedRest(times);
    FirstFailureOpens(times, p);
    LocksTakeTime(Fail(None, times[0], p), times[1..], times[0], times[|times| - 1], p);
  }

  // ----- the documented bound, and when it holds

  lemma {:induction false} EveryFailureLocks(row: Row, times: seq<int>, p: Policy)
    requires p.maxFailures <= 1
    ensures Counted(Some(row), times, p) == Locks(Some(row), times, p)
    decreases |times|
  {
    if times != [] { EveryFailureLocks(Fail(Some(row), times[0], p), times[1..], p); }
  }

  lemma WiderWindow(x: nat, w: nat)
    requires w >= 1
    ensures x / (w + 1) <= x / w
  {
    var q := x / (w + 1);
    assert q * (w + 1) <= x;
    assert q * w <= x by { assert q * (w + 1) == q * w + q; }
    DivideBy(x, q, w);
  }

  /** The bound an operator would expect of `maxFailures` per window and lock. */
  predicate WithinBudget(times: seq<int>, p: Policy)
    requires times != [] && p.windowMs >= 1
  {
    Counted(None, times, p) <= p.maxFailures * (Locks(None, times, p) + Span(times) / p.windowMs + 1)
  }

  /** It holds of every run exactly if at least one failure is allowed. */
  lemma BudgetIffSomeFailureAllowed(p: Policy)
    requires p.windowMs >= 1
    ensures (forall times :: times != [] && Ordered(times) ==> WithinBudget(times, p)) <==> p.maxFailures >= 1
  {
    if p.maxFailures >= 1 {
      forall times | times != [] && Ordered(times)
        ensures WithinBudget(times, p)
      {
        InBudget(times, p);
      }
    } else {
      var once := [0];
      FirstFailureOpens(once, p);
      assert once[1..] == [] && Ordered(once) && !WithinBudget(once, p);
    }
  }

  lemma Budget(m: nat, l: nat, v: nat, w: nat)
    requires m >= 1 && v <= w
    ensures m * l + (m - 1) * v <= m * (l + w)
  {
    Scale(m - 1, v, w);
    assert m * (l + w) == m * l + m * w && m * w == (m - 1) * w + w;
  }

  lemma InBudget(times: seq<int>, p: Policy)
    requires p.maxFailures >= 1 && p.windowMs >= 1 && times != [] && Ordered(times)
    ensures WithinBudget(times, p)
  {
    hide Counted, Locks, Fail;
    OrderedRest(times);
    var m, l, w := p.maxFailures, Locks(None, times, p), Span(times) / p.windowMs;
    if m == 1 {
      FirstFailureOpens(times, p);
      EveryFailureLocks(Fail(None, times[0], p), times[1..], p);
    } else {
      GuessBound(times, p);
      WiderWindow(Span(times), p.windowMs);
      Budget(m, l, Span(times) / (p.windowMs + 1) + 1, w + 1);
    }
  }

  // ----- bursts of failures at one moment

  function Repeat(t: int, k: nat): (r: seq<int>)
    ensures |r| == k && forall i :: 0 <= i < k ==> r[i] == t
  {
    if k == 0 then [] else [t] + Repeat(t, k - 1)
  }

  /** Failures that fill an open window without reaching the limit. */
  lemma {:induction false} Fills(row: Row, t: int, k: nat, p: Policy)
    requires !Held(Some(row), t) && !WindowElapsed(row, t, p) && row.failedCount + k < p.maxFailures
    ensures Run(Some(row), Repeat(t, k), p) ==
            Some(if k == 0 then row else Row(row.failedCount + k, row.lockoutCount, row.firstFailedAt, t, None))
    ensures Counted(Some(row), Repeat(t, k), p) == k && Locks(Some(row), Repeat(t, k), p) == 0
    decreases k
  {
    if k > 0 {
      assert Repeat(t, k)[1..] == Repeat(t, k - 1);
      Fills(Fail(Some(row), t, p), t, k - 1, p);
    }
  }

  /** Failures that open a window without reaching the limit. */
  lemma Opens(row: Option<Row>, t: int, k: nat, p: Policy)
    requires 1 <= k < p.maxFailures
    requires row.None? || (!Held(row, t) && WindowElapsed(row.value, t, p))
    ensures var n := if row.Some? then row.value.lockoutCount else 0;
            Run(row, Repeat(t, k), p) == Some(Row(k, n, t, t, None))
    ensures Counted(row, Repeat(t, k), p) == k && Locks(row, Repeat(t, k), p) == 0
  {
    assert Repeat(t, k)[1..] == Repeat(t, k - 1);
    Fills(Fail(row, t, p), t, k - 1, p);
  }

  // ----- the guess bound is attained

  /** One failure fewer than the limit, just after each window has run out. */
  function Paced(n: nat, p: Policy): seq<int>
    requires p.maxFailures >= 2
  {
    (if n == 0 then [] else Paced(n - 1, p)) + Repeat(n * (p.windowMs + 1), p.maxFailures - 1)
  }

  lemma {:induction false} PacedRun(n: nat, p: Policy)
    requires p.maxFailures >= 2
    ensures var t, m := n * (p.windowMs + 1), p.maxFailures - 1;
            && Run(None, Paced(n, p), p) == Some(Row(m, 0, t, t, None))
            && Counted(None, Paced(n, p), p) == m * (n + 1)
            && Locks(None, Paced(n, p), p) == 0
  {
    hide Counted, Locks, Run;
    var t, m := n * (p.windowMs + 1), p.maxFailures - 1;
    if n == 0 {
      assert [] + Repeat(0, m) == Repeat(0, m);
      Opens(None, 0, m, p);
    } else {
      PacedRun(n - 1, p);
      assert t - (n - 1) * (p.windowMs + 1) == p.windowMs + 1;
      RunJoin(None, Paced(n - 1, p), Repeat(t, m), p);
      Opens(Run(None, Paced(n - 1, p), p), t, m, p);
      assert m * (n + 1) == m * n + m;
    }
  }

  lemma {:induction false} PacedOrdered(n: nat, p: Policy)
    requires p.maxFailures >= 2
    ensures var a := Paced(n, p);
            a != [] && Ordered(a) && a[0] == 0 && a[|a| - 1] == n * (p.windowMs + 1)
  {
    if n > 0 {
      PacedOrdered(n - 1, p);
      assert n * (p.windowMs + 1) == (n - 1) * (p.windowMs + 1) + (p.windowMs + 1);
    }
  }

  /** `GuessBound` is exact: for every number of windows a run attains it, and is
      never locked. */
  lemma PacedGuessesAttainTheBound(n: nat, p: Policy)
    requires p.maxFailures >= 2
    ensures var times := Paced(n, p);
            && times != [] && Ordered(times) && Locks(None, times, p) == 0
            && Span(times) / (p.windowMs + 1) == n
            && Counted(None, times, p) == (p.maxFailures - 1) * (Span(times) / (p.windowMs + 1) + 1)
  {
    hide Counted, Locks, Run, Paced;
    PacedRun(n, p);
    PacedOrdered(n, p);
    OneMore(p.windowMs + 1, n);
    Quotient(n * (p.windowMs + 1), n, p.windowMs + 1);
  }

  // ----- the backoff bound is attained

  /** As many failures as a lock takes after a count of zero. */
  function Burst(p: Policy): nat
  {
    if p.maxFailures == 0 then 1 else p.maxFailures
  }

  lemma OneLocks(row: Row, t: int, p: Policy)
    requires !Held(Some(row), t) && Attempts(row, t, p) >= p.maxFailures
    ensures Run(Some(row), [t], p) == Some(Row(0, row.lockoutCount + 1, t, t, Some(t + LockMs(row.lockoutCount, p))))
    ensures Counted(Some(row), [t], p) == 1 && Locks(Some(row), [t], p) == 1
  {
    hide LockMs;
    assert [t][1..] == [];
  }

  lemma RepeatOneMore(t: int, k: nat)
    ensures Repeat(t, k + 1) == Repeat(t, k) + [t]
  {
  }

  /** Failures up to the limit at one moment, after a count of zero. */
  lemma BurstLocks(row: Row, t: int, p: Policy)
    requires row.failedCount == 0 && !Held(Some(row), t) && row.firstFailedAt <= t
    ensures Run(Some(row), Repeat(t, Burst(p)), p) ==
            Some(Row(0, row.lockoutCount + 1, t, t, Some(t + LockMs(row.lockoutCount, p))))
    ensures Counted(Some(row), Repeat(t, Burst(p)), p) == Burst(p) && Locks(Some(row), Repeat(t, Burst(p)), p) == 1
  {
    hide Counted, Locks, Run, LockMs;
    var m := Burst(p);
    RepeatOneMore(t, m - 1);
    if m == 1 {
      assert [] + [t] == [t] && Repeat(t, 0) == [];
      OneLocks(row, t, p);
    } else {
      if WindowElapsed(row, t, p) { Opens(Some(row), t, m - 1, p); } else { Fills(row, t, m - 1, p); }
      var full := Run(Some(row), Repeat(t, m - 1), p).value;
      RunJoin(Some(row), Repeat(t, m - 1), [t], p);
      OneLocks(full, t, p);
    }
  }

  /** The first lock takes two failures at least: the first only creates the row. */
  function FirstBurst(p: Policy): nat
  {
    if p.maxFailures <= 1 then 2 else p.maxFailures
  }

  lemma FirstBurstLocks(p: Policy)
    ensures Run(None, Repeat(0, FirstBurst(p)), p) == Some(Row(0, 1, 0, 0, Some(LockMs(0, p))))
    ensures Counted(None, Repeat(0, FirstBurst(p)), p) == FirstBurst(p) && Locks(None, Repeat(0, FirstBurst(p)), p) == 1
  {
    hide LockMs;
    var m := FirstBurst(p);
    var row := Fail(None, 0, p);
    assert Repeat(0, m)[1..] == Repeat(0, m - 1);
    RepeatOneMore(0, m - 2);
    if m == 2 {
      assert Repeat(0, 1) == [0];
      OneLocks(row, 0, p);
    } else {
      Fills(row, 0, m - 2, p);
      RunJoin(Some(row), Repeat(0, m - 2), [0], p);
      OneLocks(Run(Some(row), Repeat(0, m - 2), p).value, 0, p);
    }
  }

  /** A burst at the start and one whenever a lock ends, for `k + 1` locks. */
  function Hammer(k: nat, p: Policy): seq<int>
  {
    if k == 0 then Repeat(0, FirstBurst(p)) else Hammer(k - 1, p) + Repeat(SumMs(k, p), Burst(p))
  }

  lemma {:induction false} HammerRun(k: nat, p: Policy)
    ensures Run(None, Hammer(k, p), p) == Some(Row(0, k + 1, SumMs(k, p), SumMs(k, p), Some(SumMs(k + 1, p))))
    ensures Locks(None, Hammer(k, p), p) == k + 1
    ensures p.maxFailures >= 2 ==> Counted(None, Hammer(k, p), p) == p.maxFailures * (k + 1)
  {
    hide Counted, Locks, Run, LockMs;
    if k == 0 {
      FirstBurstLocks(p);
    } else {
      HammerRun(k - 1, p);
      RunJoin(None, Hammer(k - 1, p), Repeat(SumMs(k, p), Burst(p)), p);
      BurstLocks(Run(None, Hammer(k - 1, p), p).value, SumMs(k, p), p);
      assert p.maxFailures * (k + 1) == p.maxFailures * k + p.maxFailures;
    }
  }

  lemma {:induction false} HammerOrdered(k: nat, p: Policy)
    ensures var a := Hammer(k, p); a != [] && Ordered(a) && a[0] == 0 && a[|a| - 1] == SumMs(k, p)
  {
    hide LockMs;
    if k > 0 { HammerOrdered(k - 1, p); }
  }

  /** A run can hold `k` locks within T exactly if the first k - 1 lock lengths fit
      into T. */
  lemma LocksIffTimeAllows(k: nat, span: nat, p: Policy)
    ensures (exists times :: times != [] && Ordered(times) && Span(times) <= span && Locks(None, times, p) == k)
            <==> (k > 0 ==> SumMs(k - 1, p) <= span)
  {
    hide Locks;
    if k > 0 && SumMs(k - 1, p) <= span {
      HammerRun(k - 1, p);
      HammerOrdered(k - 1, p);
      assert Span(Hammer(k - 1, p)) <= span;
    } else if k == 0 {
      FirstFailureOpens([0], p);
      assert [0][1..] == [] && Ordered([0]) && Span([0]) <= span;
      NoLock(Some(Fail(None, 0, p)), p);
    }
    forall times | times != [] && Ordered(times) && Span(times) <= span && Locks(None, times, p) == k
      ensures k > 0 ==> SumMs(k - 1, p) <= span
    {
      if k > 0 { BackoffBound(times, p); }
    }
  }

  lemma NoLock(row: Option<Row>, p: Policy)
    ensures Locks(row, [], p) == 0
  {
  }

  // ----- a forced lock

  lemma {:induction false} AtMostOneReset(row: Row, times: seq<int>, p: Policy)
    requires times != [] && Ordered(times) && row.firstFailedAt <= times[0] && Span(times) <= p.windowMs
    ensures Resets(Some(row), times, p) <= 1
    decreases |times|
  {
    var next := Fail(Some(row), times[0], p);
    OrderedRest(times);
    if next.firstFailedAt == times[0] {
      ResetsTakeTime(next, times[1..], times[|times| - 1], p);
      Cancel(Resets(Some(next), times[1..], p), 1, p.windowMs + 1);
    } else if |times| > 1 {
      AtMostOneReset(next, times[1..], p);
    }
  }

  /** Without a lock, at most `2 * maxFailures - 2` failures are counted in a window. */
  lemma UnlockedWindow(row: Option<Row>, times: seq<int>, p: Policy)
    requires p.maxFailures >= 2 && times != [] && Ordered(times) && Sane(row, times[0], p)
    requires Span(times) <= p.windowMs && Locks(row, times, p) == 0
    ensures Counted(row, times, p) <= 2 * p.maxFailures - 2
    ensures row.None? ==> Counted(row, times, p) <= p.maxFailures - 1
  {
    hide Counted, Locks, Resets, Fail;
    CountedByLocks(row, times, p);
    if row.Some? {
      AtMostOneReset(row.value, times, p);
    } else {
      FirstFailureOpens(times, p);
      OrderedRest(times);
      ResetsTakeTime(Fail(None, times[0], p), times[1..], times[|times| - 1], p);
      Cancel(Resets(None, times, p), 1, p.windowMs + 1);
    }
    Scale(p.maxFailures - 1, Resets(row, times, p) + 1, if row.Some? then 2 else 1);
  }

  /** After any earlier run, `n` counted failures within `windowMs` include a lock. */
  ghost predicate Forced(n: nat, p: Policy)
  {
    forall before, times :: times != [] && Ordered(before + times) && Span(times) <= p.windowMs &&
                            Counted(Run(None, before, p), times, p) >= n
                            ==> Locks(Run(None, before, p), times, p) > 0
  }

  lemma OrderedParts(a: seq<int>, b: seq<int>)
    requires Ordered(a + b) && b != []
    ensures Ordered(b) && Ordered(a + [b[0]])
  {
    var all := a + b;
    assert forall k :: 0 <= k < |b| ==> all[|a| + k] == b[k];
    assert forall k :: 0 <= k <= |a| ==> (a + [b[0]])[k] == all[k];
  }

  /** The least number of counted failures in a window that cannot come without a lock. */
  function LeastForcing(p: Policy): nat
  {
    var m := p.maxFailures;
    if m <= 1 then 2
    else if p.windowMs == 0 then m
    else if LockMs(0, p) <= p.windowMs then 2 * m - 1
    else 2 * m - 2
  }

  lemma LaterLocksAreLonger(n: nat, p: Policy)
    ensures LockMs(n, p) >= LockMs(0, p)
  {
    Scale(p.lockBaseMs, 1, Pow2(n));
  }

  /** A count of zero stands for a lock that outlasts the window. */
  predicate LockedPastWindow(row: Option<Row>, p: Policy)
  {
    row.Some? && row.value.failedCount == 0 ==>
      row.value.lockedUntil.Some? && row.value.lockedUntil.value > row.value.firstFailedAt + p.windowMs
  }

  lemma {:induction false} ReachableIsLockedPastWindow(row: Option<Row>, times: seq<int>, p: Policy)
    requires p.maxFailures >= 2 && LockMs(0, p) > p.windowMs && LockedPastWindow(row, p)
    ensures LockedPastWindow(Run(row, times, p), p)
    decreases |times|
  {
    hide LockMs, Pow2;
    if times != [] {
      if row.Some? { LaterLocksAreLonger(row.value.lockoutCount, p); }
      ReachableIsLockedPastWindow(Some(Fail(row, times[0], p)), times[1..], p);
    }
  }

  /** Once the window has run out, the next counted failure starts a new count. */
  lemma {:induction false} CountAfterWindow(row: Row, times: seq<int>, p: Policy)
    requires p.maxFailures >= 2 && times != [] && Ordered(times) && Span(times) <= p.windowMs
    requires WindowElapsed(row, times[0], p) && Locks(Some(row), times, p) == 0
    ensures Counted(Some(row), times, p) <= p.maxFailures - 1
    decreases |times|
  {
    hide LockMs, Pow2;
    var next, last := Fail(Some(row), times[0], p), times[|times| - 1];
    OrderedRest(times);
    if Held(Some(row), times[0]) {
      if |times| > 1 { CountAfterWindow(next, times[1..], p); }
    } else {
      CountedByLocks(Some(next), times[1..], p);
      ResetsTakeTime(next, times[1..], last, p);
      Cancel(Resets(Some(next), times[1..], p), 1, p.windowMs + 1);
      OneMore(p.maxFailures - 1, Resets(Some(next), times[1..], p));
    }
  }

  lemma {:induction false} CountAfterLock(row: Row, times: seq<int>, p: Policy)
    requires p.maxFailures >= 2 && times != [] && Ordered(times) && Span(times) <= p.windowMs
    requires row.failedCount == 0 && LockedPastWindow(Some(row), p) && Locks(Some(row), times, p) == 0
    ensures Counted(Some(row), times, p) <= p.maxFailures - 1
    decreases |times|
  {
    if !Held(Some(row), times[0]) {
      CountAfterWindow(row, times, p);
    } else if |times| > 1 {
      CountAfterLock(Fail(Some(row), times[0], p), times[1..], p);
    }
  }

  /** Without a lock a window counts fewer failures than `LeastForcing`. */
  lemma UnlockedCount(row: Option<Row>, times: seq<int>, p: Policy)
    requires times != [] && Ordered(times) && Sane(row, times[0], p)
    requires p.maxFailures >= 2 && LockMs(0, p) > p.windowMs ==> LockedPastWindow(row, p)
    requires Span(times) <= p.windowMs && Locks(row, times, p) == 0
    ensures Counted(row, times, p) < LeastForcing(p)
  {
    hide Counted, Locks, Resets, Fail, LockMs, Run;
    var m := p.maxFailures;
    if m <= 1 {
      if row.Some? {
        EveryFailureLocks(row.value, times, p);
      } else {
        FirstFailureOpens(times, p);
        EveryFailureLocks(Fail(None, times[0], p), times[1..], p);
      }
    } else {
      UnlockedWindow(row, times, p);
      if row.Some? {
        CountedByLocks(row, times, p);
        if p.windowMs == 0 {
          CountAtOnce(row.value, times, p);
        } else if LockMs(0, p) > p.windowMs {
          if row.value.failedCount == 0 { CountAfterLock(row.value, times, p); }
          AtMostOneReset(row.value, times, p);
          Scale(m - 1, Resets(row, times, p) + 1, 2);
        }
      }
    }
  }

  lemma CountAtOnce(row: Row, times: seq<int>, p: Policy)
    requires p.maxFailures >= 2 && p.windowMs == 0 && times != [] && Ordered(times) && Sane(Some(row), times[0], p)
    requires Span(times) <= 0 && Locks(Some(row), times, p) == 0
    ensures Counted(Some(row), times, p) <= p.maxFailures - 1
  {
    hide Counted, Locks, Resets, Fail, LockMs;
    if WindowElapsed(row, times[0], p) {
      CountAfterWindow(row, times, p);
    } else {
      var last := times[|times| - 1];
      assert Ordered(times + [last]);
      ResetsTakeTime(row, times, last, p);
      CountedByLocks(Some(row), times, p);
    }
  }

  lemma EnoughForcesALock(n: nat, p: Policy)
    requires n >= LeastForcing(p)
    ensures Forced(n, p)
  {
    hide Counted, Locks, Run, LeastForcing;
    forall before, times | times != [] && Ordered(before + times) && Span(times) <= p.windowMs &&
                           Counted(Run(None, before, p), times, p) >= n
      ensures Locks(Run(None, before, p), times, p) > 0
    {
      OrderedParts(before, times);
      ReachableIsSane(None, before, times[0], p);
      if p.maxFailures >= 2 && LockMs(0, p) > p.windowMs { ReachableIsLockedPastWindow(None, before, p); }
      if Locks(Run(None, before, p), times, p) == 0 { UnlockedCount(Run(None, before, p), times, p); }
    }
  }

  /** A run and a window after it with one counted failure fewer and no lock. */
  lemma OneFewer(p: Policy) returns (before: seq<int>, times: seq<int>)
    ensures times != [] && Ordered(before + times) && Span(times) <= p.windowMs
    ensures Counted(Run(None, before, p), times, p) == LeastForcing(p) - 1
    ensures Locks(Run(None, before, p), times, p) == 0
  {
    hide Counted, Locks, Run, LockMs;
    var w, m := p.windowMs, p.maxFailures - 1;
    NoLock(Some(Fail(None, 0, p)), p);
    if m <= 0 {
      before, times := [], [0];
      NoFailures(None, p);
      FirstFailureOpens(times, p);
      NoFailures(Some(Fail(None, 0, p)), p);
      assert times[1..] == [];
    } else if w == 0 {
      before, times := [], Repeat(0, m);
      NoFailures(None, p);
      Opens(None, 0, m, p);
      assert before + times == times;
    } else if LockMs(0, p) <= w {
      before, times := Repeat(0, FirstBurst(p)), Repeat(w, m) + Repeat(w + 1, m);
      FirstBurstLocks(p);
      TwoBursts(Run(None, before, p).value, w, m, p);
    } else {
      before, times := [0], Repeat(w, m - 1) + Repeat(w + 1, m);
      FirstFailureOpens(before, p);
      NoFailures(Some(Fail(None, 0, p)), p);
      assert before[1..] == [];
      TwoBursts(Run(None, before, p).value, w, m - 1, p);
    }
  }

  lemma NoFailures(row: Option<Row>, p: Policy)
    ensures Run(row, [], p) == row && Counted(row, [], p) == 0 && Locks(row, [], p) == 0
  {
  }

  /** The end of one window and the beginning of the next. */
  lemma TwoBursts(row: Row, w: nat, k: nat, p: Policy)
    requires p.maxFailures >= 2 && w == p.windowMs >= 1 && row.firstFailedAt == 0
    requires row.failedCount + k == p.maxFailures - 1 && (row.lockedUntil.None? || row.lockedUntil.value <= w)
    ensures var times := Repeat(w, k) + Repeat(w + 1, p.maxFailures - 1);
            && Counted(Some(row), times, p) == k + p.maxFailures - 1 && Locks(Some(row), times, p) == 0
            && Ordered(times) && times[0] >= w && Span(times) <= w
  {
    hide Counted, Locks, Run;
    var m := p.maxFailures - 1;
    RunJoin(Some(row), Repeat(w, k), Repeat(w + 1, m), p);
    Fills(row, w, k, p);
    Opens(Run(Some(row), Repeat(w, k), p), w + 1, m, p);
  }

  /** Forced lock, for every policy and after any earlier run: `n` counted failures
      within `windowMs` include a lock exactly from `LeastForcing` on. */
  lemma ForcedIff(n: nat, p: Policy)
    ensures Forced(n, p) <==> n >= LeastForcing(p)
  {
    hide Counted, Locks, Run, LeastForcing;
    if n >= LeastForcing(p) {
      EnoughForcesALock(n, p);
    } else {
      var before, times := OneFewer(p);
      assert Counted(Run(None, before, p), times, p) >= n && Locks(Run(None, before, p), times, p) == 0;
    }
  }

  /** Corollary: `maxFailures` failures within a window always lock, as a sliding window
      would have it, exactly for these policies. */
  lemma WindowSlidesIff(p: Policy)
    ensures Forced(p.maxFailures, p) <==>
            p.maxFailures >= 2 && (p.windowMs == 0 || (p.maxFailures == 2 && LockMs(0, p) > p.windowMs))
  {
    hide Forced;
    ForcedIff(p.maxFailures, p);
  }

  /** Corollary: twice the limit less one is always enough. */
  lemma TwiceTheLimitForcesALock(n: nat, p: Policy)
    requires p.maxFailures >= 2 && n >= 2 * p.maxFailures - 1
    ensures Forced(n, p)
  {
    hide Forced;
    ForcedIff(n, p);
  }

  lemma {:induction false} AllCounted(row: Row, times: seq<int>, p: Policy)
    requires row.lockedUntil.None? && Locks(Some(row), times, p) == 0
    ensures Counted(Some(row), times, p) == |times|
    decreases |times|
  {
    if times != [] { AllCounted(Fail(Some(row), times[0], p), times[1..], p); }
  }

  /** The promise of the configuration, that `maxFailures` failures within the window
      lock an account without earlier failures, is kept exactly from two on. */
  lemma LimitLocksFreshAccountIff(p: Policy)
    requires p.maxFailures >= 1
    ensures (forall times :: |times| == p.maxFailures && Ordered(times) && Span(times) <= p.windowMs
                             ==> Locks(None, times, p) > 0)
            <==> p.maxFailures >= 2
  {
    hide Counted, Locks, Run;
    if p.maxFailures >= 2 {
      forall times | |times| == p.maxFailures && Ordered(times) && Span(times) <= p.windowMs
        ensures Locks(None, times, p) > 0
      {
        if Locks(None, times, p) == 0 {
          FirstFailureOpens(times, p);
          AllCounted(Fail(None, times[0], p), times[1..], p);
          UnlockedWindow(None, times, p);
        }
      }
    } else {
      var once := [0];
      FirstFailureOpens(once, p);
      NoLock(Some(Fail(None, 0, p)), p);
      assert once[1..] == [] && Ordered(once) && Span(once) == 0;
    }
  }
}
