/** Brute-force lockout (`src/auth/abuseGuard.ts`): one row per identifier, changed
    by failures, deleted by a success or an administrator. Times are milliseconds. */
module AbuseGuard {
  import opened Arithmetic
  import opened Options

  datatype Policy = Policy(maxFailures: nat, windowMs: nat, lockBaseMs: nat, lockMaxMs: nat)

  datatype Row = Row(failedCount: nat, lockoutCount: nat, firstFailedAt: int, lastFailedAt: int,
                     lockedUntil: Option<int>)

  datatype Status = Status(locked: bool, retryAfterMs: int)

  const UNLOCKED := Status(false, 0)

  /** The payload of an `auth.account_locked` event. */
  datatype LockEvent = LockEvent(identifier: string, lockoutCount: nat, lockedUntilMs: int)

  function Pow2(n: nat): (r: nat)
    ensures r >= 1
  {
    if n == 0 then 1 else 2 * Pow2(n - 1)
  }

  /** The length of the lock that follows `n` earlier ones. */
  function LockMs(n: nat, p: Policy): nat
  {
    Min(p.lockBaseMs * Pow2(n), p.lockMaxMs)
  }

  /** The first lock is the base, each further one twice as long as the last, none longer
      than the maximum. */
  lemma LocksDouble(n: nat, p: Policy)
    ensures LockMs(0, p) == Min(p.lockBaseMs, p.lockMaxMs)
    ensures LockMs(n + 1, p) == Min(2 * LockMs(n, p), p.lockMaxMs)
  {
    assert p.lockBaseMs * Pow2(n + 1) == 2 * (p.lockBaseMs * Pow2(n));
  }

  // ----- one failure

  /** A lock is in force; a failure now is not counted. */
  predicate Held(row: Option<Row>, now: int)
  {
    row.Some? && row.value.lockedUntil.Some? && row.value.lockedUntil.value > now
  }

  /** The window that the first failure of a count opens has run out. */
  predicate WindowElapsed(row: Row, now: int, p: Policy)
  {
    now - row.firstFailedAt > p.windowMs
  }

  function Attempts(row: Row, now: int, p: Policy): nat
  {
    if WindowElapsed(row, now, p) then 1 else row.failedCount + 1
  }

  /** This failure applies a lock. */
  predicate Trips(row: Option<Row>, now: int, p: Policy)
  {
    row.Some? && !Held(row, now) && Attempts(row.value, now, p) >= p.maxFailures
  }

  /** The row after a failure. */
  function Fail(row: Option<Row>, now: int, p: Policy): Row
  {
    match row
    case None => Row(1, 0, now, now, None)
    case Some(r) =>
      if Held(row, now) then r.(lastFailedAt := now)
      else if Trips(row, now, p) then
        Row(0, r.lockoutCount + 1, now, now, Some(now + LockMs(r.lockoutCount, p)))
      else
        Row(Attempts(r, now, p), r.lockoutCount, if WindowElapsed(r, now, p) then now else r.firstFailedAt, now, None)
  }

  /** What the gate in front of a login reports. */
  function StatusOf(row: Option<Row>, now: int): Status
  {
    if Held(row, now) then Status(true, row.value.lockedUntil.value - now) else UNLOCKED
  }

  // ----- the table

  class Guard {
    const normalize: string -> string
    var table: map<string, Row>
    var log: seq<LockEvent>

    constructor (normalize: string -> string)
      ensures table == map[] && log == [] && this.normalize == normalize
    {
      this.normalize := normalize;
      table, log := map[], [];
    }

    function RowOf(identifierRaw: string): Option<Row>
      reads this
    {
      var id := normalize(identifierRaw);
      if id in table then Some(table[id]) else None
    }

    method CheckLockout(identifierRaw: string, now: int) returns (status: Status)
      ensures status == StatusOf(RowOf(identifierRaw), now)
    {
      var identifier := normalize(identifierRaw);
      if identifier !in table || table[identifier].lockedUntil.None? { return UNLOCKED; }
      var remaining := table[identifier].lockedUntil.value - now;
      return if remaining > 0 then Status(true, remaining) else UNLOCKED;
    }

    /** Counts a failure for one identifier and no other, logs exactly the locks it
        applies, and reports what the gate reports afterwards, except that it also
        says `locked` of a new lock of length zero. */
    method RecordFailure(identifierRaw: string, policy: Policy, now: int) returns (status: Status)
      modifies this`table, this`log
      ensures table == old(table)[normalize(identifierRaw) := Fail(old(RowOf(identifierRaw)), now, policy)]
      ensures status.retryAfterMs == StatusOf(RowOf(identifierRaw), now).retryAfterMs
      ensures status.locked == (Held(RowOf(identifierRaw), now) || Trips(old(RowOf(identifierRaw)), now, policy))
      ensures log == old(log) +
                     if Trips(old(RowOf(identifierRaw)), now, policy) then
                       [LockEvent(normalize(identifierRaw), old(RowOf(identifierRaw)).value.lockoutCount + 1,
                                  now + LockMs(old(RowOf(identifierRaw)).value.lockoutCount, policy))]
                     else []
    {
      var identifier := normalize(identifierRaw);
      if identifier !in table {
        table := table[identifier := Row(1, 0, now, now, None)];
        return UNLOCKED;
      }
      var existing := table[identifier];
      if existing.lockedUntil.Some? && existing.lockedUntil.value > now {
        table := table[identifier := existing.(lastFailedAt := now)];
        return Status(true, existing.lockedUntil.value - now);
      }
      var windowElapsed := now - existing.firstFailedAt > policy.windowMs;
      var failedCount := if windowElapsed then 1 else existing.failedCount + 1;
      var firstFailedAt := if windowElapsed then now else existing.firstFailedAt;
      var lockoutCount := existing.lockoutCount;
      var lockedUntil: Option<int> := None;
      if failedCount >= policy.maxFailures {
        var lockMs := Min(policy.lockBaseMs * Pow2(lockoutCount), policy.lockMaxMs);
        lockedUntil := Some(now + lockMs);
        lockoutCount := lockoutCount + 1;
        failedCount := 0;
        firstFailedAt := now;
      }
      table := table[identifier := Row(failedCount, lockoutCount, firstFailedAt, now, lockedUntil)];
      if lockedUntil.Some? {
        log := log + [LockEvent(identifier, lockoutCount, lockedUntil.value)];
        return Status(true, lockedUntil.value - now);
      }
      return UNLOCKED;
    }

    method RecordSuccess(identifierRaw: string)
      modifies this`table
      ensures table == old(table) - {normalize(identifierRaw)}
    {
      table := table - {normalize(identifierRaw)};
    }

    method ClearLockout(identifierRaw: string) returns (cleared: bool)
      modifies this`table
      ensures table == old(table) - {normalize(identifierRaw)}
      ensures cleared == old(RowOf(identifierRaw)).Some?
    {
      var identifier := normalize(identifierRaw);
      cleared := identifier in table;
      table := table - {identifier};
    }
  }

  // ----- runs of failures of one identifier

  predicate Ordered(times: seq<int>)
  {
    forall i, j :: 0 <= i <= j < |times| ==> times[i] <= times[j]
  }

  /** The row after failures at these times. */
  function Run(row: Option<Row>, times: seq<int>, p: Policy): Option<Row>
    decreases |times|
  {
    if times == [] then row else Run(Some(Fail(row, times[0], p)), times[1..], p)
  }

  /** How many of them were counted: guesses that the gate would have let in. */
  function Counted(row: Option<Row>, times: seq<int>, p: Policy): nat
    decreases |times|
  {
    if times == [] then 0
    else (if Held(row, times[0]) then 0 else 1) + Counted(Some(Fail(row, times[0], p)), times[1..], p)
  }

  function Locks(row: Option<Row>, times: seq<int>, p: Policy): nat
    decreases |times|
  {
    if times == [] then 0
    else (if Trips(row, times[0], p) then 1 else 0) + Locks(Some(Fail(row, times[0], p)), times[1..], p)
  }

  lemma {:induction false} RunJoin(row: Option<Row>, a: seq<int>, b: seq<int>, p: Policy)
    ensures Run(row, a + b, p) == Run(Run(row, a, p), b, p)
    ensures Counted(row, a + b, p) == Counted(row, a, p) + Counted(Run(row, a, p), b, p)
    ensures Locks(row, a + b, p) == Locks(row, a, p) + Locks(Run(row, a, p), b, p)
    decreases |a|
  {
    hide Fail, Held, Trips;
    if a == [] {
      assert a + b == b;
    } else {
      assert (a + b)[1..] == a[1..] + b;
      RunJoin(Some(Fail(row, a[0], p)), a[1..], b, p);
    }
  }

  // ----- the gate

  /** Gate agreement: a lock applied at `t` is what the gate reports, with the exact
      remainder, at every time before it ends and at no time after, whatever failures
      arrive meanwhile, until the next lock. */
  lemma {:induction false} LockIsReportedExactly(row: Option<Row>, t: int, times: seq<int>, now: int, p: Policy)
    requires Trips(row, t, p) && Ordered([t] + times + [now])
    requires Locks(Some(Fail(row, t, p)), times, p) == 0
    ensures var end := t + LockMs(row.value.lockoutCount, p);
            StatusOf(Run(Some(Fail(row, t, p)), times, p), now) == if now < end then Status(true, end - now) else UNLOCKED
  {
    var end := t + LockMs(row.value.lockoutCount, p);
    var all := [t] + times + [now];
    assert forall k :: 0 <= k < |times| ==> all[k + 1] == times[k];
    assert all[|times| + 1] == now && all[0] == t;
    assert forall k :: 0 <= k < |times| ==> times[k] <= now;
    assert Ordered(times) by {
      forall i, j | 0 <= i <= j < |times| ensures times[i] <= times[j] { assert all[i + 1] <= all[j + 1]; }
    }
    LockStays(Fail(row, t, p), end, times, now, p);
  }

  lemma {:induction false} LockStays(row: Row, end: int, times: seq<int>, now: int, p: Policy)
    requires row.lockedUntil == Some(end) || (row.lockedUntil.None? && end <= now)
    requires Ordered(times) && forall k :: 0 <= k < |times| ==> times[k] <= now
    requires Locks(Some(row), times, p) == 0
    ensures StatusOf(Run(Some(row), times, p), now) == if now < end then Status(true, end - now) else UNLOCKED
    decreases |times|
  {
    if times != [] {
      LockStays(Fail(Some(row), times[0], p), end, times[1..], now, p);
    }
  }
}
