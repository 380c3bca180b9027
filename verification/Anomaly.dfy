/** Burst detection over the audit streams (`src/security/anomaly.ts`): four rules
    that count events in a window, each raising its anomaly at most once per window. */
module Anomaly {
  datatype Kind = AuthLockoutBurst | OversightRejectionBurst | KeyRotationBurst | PrivilegeChangeBurst

  /** An event that a rule counts, or an anomaly that it raised. */
  datatype Entry =
    | Counted(kind: Kind, createdAt: int)
    | Raised(kind: Kind, createdAt: int, count: nat)

  /** The rules in the order in which they are checked. */
  function Rule(k: nat): Kind
    requires k < 4
  {
    if k == 0 then AuthLockoutBurst else if k == 1 then OversightRejectionBurst
    else if k == 2 then KeyRotationBurst else PrivilegeChangeBurst
  }

  /** One pass: `now` is when it looks at the clock, `at(k)` when the anomaly of rule
      `k` is written to the log. */
  datatype Pass = Pass(windowMs: nat, threshold: Kind -> nat, now: int, at: nat -> int)

  function CountSince(log: seq<Entry>, kind: Kind, since: int): nat
  {
    if log == [] then 0
    else
      var e := log[|log| - 1];
      CountSince(log[..|log| - 1], kind, since) + if e.Counted? && e.kind == kind && e.createdAt >= since then 1 else 0
  }

  predicate AlreadyRaised(log: seq<Entry>, kind: Kind, since: int)
  {
    exists i :: 0 <= i < |log| && IsRaised(log[i], kind) && log[i].createdAt >= since
  }

  predicate IsRaised(e: Entry, kind: Kind)
  {
    e.Raised? && e.kind == kind
  }

  /** Rule `k` raises, given the log at the start of the pass and now. */
  predicate Raises(start: seq<Entry>, log: seq<Entry>, p: Pass, k: nat)
    requires k < 4
  {
    && CountSince(start, Rule(k), p.now - p.windowMs) >= p.threshold(Rule(k))
    && !AlreadyRaised(log, Rule(k), p.now - p.windowMs)
  }

  function AnomalyOf(start: seq<Entry>, p: Pass, k: nat): Entry
    requires k < 4
  {
    Raised(Rule(k), p.at(k), CountSince(start, Rule(k), p.now - p.windowMs))
  }

  /** The log after the first `n` rules. */
  function After(start: seq<Entry>, p: Pass, n: nat): seq<Entry>
    requires n <= 4
  {
    if n == 0 then start
    else
      var log := After(start, p, n - 1);
      if Raises(start, log, p, n - 1) then log + [AnomalyOf(start, p, n - 1)] else log
  }

  class AuditStreams {
    var log: seq<Entry>

    constructor ()
      ensures log == []
    {
      log := [];
    }

    method DetectAnomalies(p: Pass) returns (raised: seq<Entry>)
      modifies this
      ensures log == After(old(log), p, 4) == old(log) + raised
    {
      raised := [];
      var since := p.now - p.windowMs;
      ghost var start := log;
      var counts := [CountSince(log, Rule(0), since), CountSince(log, Rule(1), since),
                     CountSince(log, Rule(2), since), CountSince(log, Rule(3), since)];
      for k := 0 to 4
        invariant log == After(start, p, k) == start + raised
      {
        if counts[k] >= p.threshold(Rule(k)) && !AlreadyRaised(log, Rule(k), since) {
          var anomaly := Raised(Rule(k), p.at(k), counts[k]);
          log := log + [anomaly];
          raised := raised + [anomaly];
        }
      }
    }
  }

  // ----- runs

  datatype Step = Record(kind: Kind, createdAt: int) | Detect(pass: Pass)

  function Do(log: seq<Entry>, step: Step): seq<Entry>
  {
    match step
    case Record(kind, createdAt) => log + [Counted(kind, createdAt)]
    case Detect(p) => After(log, p, 4)
  }

  function Run(steps: seq<Step>): seq<Entry>
  {
    if steps == [] then [] else Do(Run(steps[..|steps| - 1]), steps[|steps| - 1])
  }

  /** Anomalies are written no earlier than the pass looked at the clock. */
  predicate InOrder(p: Pass)
  {
    forall k: nat :: k < 4 ==> p.at(k) >= p.now
  }

  /** Two anomalies of one kind are more than a window apart. */
  predicate Separated(log: seq<Entry>, windowMs: nat)
  {
    forall i, j :: 0 <= i < j < |log| && log[i].Raised? && IsRaised(log[j], log[i].kind)
                   ==> log[j].createdAt - log[i].createdAt > windowMs
  }

  lemma {:induction false} PassKeepsSeparation(start: seq<Entry>, p: Pass, n: nat)
    requires n <= 4 && InOrder(p) && Separated(start, p.windowMs)
    ensures Separated(After(start, p, n), p.windowMs)
  {
    hide CountSince;
    if n > 0 {
      PassKeepsSeparation(start, p, n - 1);
      var log, k := After(start, p, n - 1), n - 1;
      if Raises(start, log, p, k) {
        assert p.at(k) >= p.now;
        forall i | 0 <= i < |log| && IsRaised(log[i], Rule(k))
          ensures p.at(k) - log[i].createdAt > p.windowMs
        {
          assert !(log[i].createdAt >= p.now - p.windowMs);
        }
      }
    }
  }

  /** Anomaly separation: whatever is recorded between the passes, two anomalies of one
      kind are always more than a window apart. */
  lemma {:induction false} AnomaliesAreSeparated(steps: seq<Step>, windowMs: nat)
    requires forall k :: 0 <= k < |steps| && steps[k].Detect? ==> steps[k].pass.windowMs == windowMs && InOrder(steps[k].pass)
    ensures Separated(Run(steps), windowMs)
  {
    hide After, InOrder;
    if steps != [] {
      var n := |steps| - 1;
      AnomaliesAreSeparated(steps[..n], windowMs);
      if steps[n].Detect? { PassKeepsSeparation(Run(steps[..n]), steps[n].pass, 4); }
    }
  }

  /** The other rules of a pass do not change what a rule finds raised, and the log only
      grows. */
  lemma {:induction false} RulesAreIndependent(start: seq<Entry>, p: Pass, k: nat, n: nat)
    requires k < 4 && n <= 4
    ensures start <= After(start, p, n)
    ensures n <= k ==> AlreadyRaised(After(start, p, n), Rule(k), p.now - p.windowMs) == AlreadyRaised(start, Rule(k), p.now - p.windowMs)
    ensures n > k ==> After(start, p, k + 1) <= After(start, p, n)
  {
    hide CountSince, Rule, AlreadyRaised, Raises;
    if n > 0 {
      RulesAreIndependent(start, p, k, n - 1);
      if n <= k {
        RulesDiffer(n - 1, k);
        RaisedAppend(After(start, p, n - 1), AnomalyOf(start, p, n - 1), Rule(k), p.now - p.windowMs);
      }
    }
  }

  lemma RulesDiffer(i: nat, k: nat)
    requires i < 4 && k < 4 && i != k
    ensures Rule(i) != Rule(k)
  {
  }

  lemma RaisedAppend(log: seq<Entry>, e: Entry, kind: Kind, since: int)
    ensures AlreadyRaised(log + [e], kind, since) <==> AlreadyRaised(log, kind, since) || (IsRaised(e, kind) && e.createdAt >= since)
  {
    var more := log + [e];
    if AlreadyRaised(log, kind, since) {
      var i :| 0 <= i < |log| && IsRaised(log[i], kind) && log[i].createdAt >= since;
      assert IsRaised(more[i], kind);
    }
    if IsRaised(e, kind) { assert IsRaised(more[|log|], kind); }
  }

  /** The events of a kind in the window. */
  function InWindow(log: seq<Entry>, kind: Kind, since: int): set<nat>
  {
    set i | 0 <= i < |log| && log[i].Counted? && log[i].kind == kind && log[i].createdAt >= since
  }

  lemma LastInWindow(log: seq<Entry>, kind: Kind, since: int)
    requires log != []
    ensures var n := |log| - 1;
            && n !in InWindow(log[..n], kind, since)
            && InWindow(log, kind, since) == InWindow(log[..n], kind, since) +
               if log[n].Counted? && log[n].kind == kind && log[n].createdAt >= since then {n} else {}
  {
    var n := |log| - 1;
    assert forall i :: 0 <= i < n ==> log[..n][i] == log[i];
  }

  lemma {:induction false} CountIsCardinality(log: seq<Entry>, kind: Kind, since: int)
    ensures CountSince(log, kind, since) == |InWindow(log, kind, since)|
  {
    if log == [] {
      assert InWindow(log, kind, since) == {};
    } else {
      var n := |log| - 1;
      CountIsCardinality(log[..n], kind, since);
      hide InWindow;
      LastInWindow(log, kind, since);
    }
  }

  /** The order of the checks. */
  function Turn(kind: Kind): nat
  {
    match kind
    case AuthLockoutBurst => 0
    case OversightRejectionBurst => 1
    case KeyRotationBurst => 2
    case PrivilegeChangeBurst => 3
  }

  lemma RuleOf(kind: Kind)
    ensures Turn(kind) < 4 && Rule(Turn(kind)) == kind
  {
  }

  /** After a pass a kind has an anomaly in the window exactly if it had one before or
      the number of its events has reached its threshold. */
  lemma RaisedIffOverThreshold(start: seq<Entry>, p: Pass, kind: Kind)
    requires InOrder(p)
    ensures var since := p.now - p.windowMs;
            AlreadyRaised(After(start, p, 4), kind, since) <==>
              AlreadyRaised(start, kind, since) || |InWindow(start, kind, since)| >= p.threshold(kind)
  {
    hide CountSince, InWindow, AlreadyRaised, After;
    CountIsCardinality(start, kind, p.now - p.windowMs);
    RuleOf(kind);
    RuleRaisesIff(start, p, Turn(kind));
  }

  /** What a pass adds: at most one anomaly of a kind, in the order of the checks, each
      with the number of events, which has reached the threshold. */
  lemma {:induction false} RaisedInTurn(start: seq<Entry>, p: Pass, n: nat)
    requires n <= 4
    ensures var end := After(start, p, n);
            && start <= end
            && (forall i :: |start| <= i < |end| ==> Turn(end[i].kind) < n && IsBurst(start, p, end[i]))
            && (forall i, j :: |start| <= i < j < |end| ==> Turn(end[i].kind) < Turn(end[j].kind))
  {
    hide CountSince, InWindow, AlreadyRaised;
    if n > 0 {
      RaisedInTurn(start, p, n - 1);
      CountIsCardinality(start, Rule(n - 1), p.now - p.windowMs);
      RuleOf(Rule(n - 1));
      RuleAtTurn(n - 1);
    }
  }

  lemma RuleAtTurn(k: nat)
    requires k < 4
    ensures Turn(Rule(k)) == k
  {
  }

  predicate IsBurst(start: seq<Entry>, p: Pass, e: Entry)
  {
    && e.Raised? && e.createdAt == p.at(Turn(e.kind))
    && e.count == |InWindow(start, e.kind, p.now - p.windowMs)| && e.count >= p.threshold(e.kind)
  }

  lemma RuleRaisesIff(start: seq<Entry>, p: Pass, k: nat)
    requires k < 4 && InOrder(p)
    ensures var since := p.now - p.windowMs;
            AlreadyRaised(After(start, p, 4), Rule(k), since) <==>
              AlreadyRaised(start, Rule(k), since) || CountSince(start, Rule(k), since) >= p.threshold(Rule(k))
  {
    hide CountSince;
    var since := p.now - p.windowMs;
    RulesAreIndependent(start, p, k, k);
    RulesAreIndependent(start, p, k, 4);
    var log, next, end := After(start, p, k), After(start, p, k + 1), After(start, p, 4);
    assert p.at(k) >= since;
    if AlreadyRaised(start, Rule(k), since) || CountSince(start, Rule(k), since) >= p.threshold(Rule(k)) {
      assert AlreadyRaised(next, Rule(k), since) by {
        if Raises(start, log, p, k) { assert IsRaised(next[|log|], Rule(k)); }
      }
      var i :| 0 <= i < |next| && IsRaised(next[i], Rule(k)) && next[i].createdAt >= since;
      assert end[i] == next[i];
    } else {
      NotRaised(start, p, k, 4);
    }
  }

  lemma {:induction false} NotRaised(start: seq<Entry>, p: Pass, k: nat, n: nat)
    requires k < 4 && n <= 4
    requires !AlreadyRaised(start, Rule(k), p.now - p.windowMs)
    requires CountSince(start, Rule(k), p.now - p.windowMs) < p.threshold(Rule(k))
    ensures !AlreadyRaised(After(start, p, n), Rule(k), p.now - p.windowMs)
  {
    hide CountSince;
    if n > 0 { NotRaised(start, p, k, n - 1); }
  }

  /** The recorded events of a kind from a time on. */
  function RecordedSince(steps: seq<Step>, kind: Kind, since: int): set<nat>
  {
    set i | 0 <= i < |steps| && steps[i].Record? && steps[i].kind == kind && steps[i].createdAt >= since
  }

  lemma LastRecorded(steps: seq<Step>, kind: Kind, since: int)
    requires steps != []
    ensures var n := |steps| - 1;
            && n !in RecordedSince(steps[..n], kind, since)
            && RecordedSince(steps, kind, since) == RecordedSince(steps[..n], kind, since) +
               if steps[n].Record? && steps[n].kind == kind && steps[n].createdAt >= since then {n} else {}
  {
    var n := |steps| - 1;
    assert forall i :: 0 <= i < n ==> steps[..n][i] == steps[i];
  }

  /** The events that passes count are those recorded in the run. */
  lemma {:induction false} RunCountsRecords(steps: seq<Step>, kind: Kind, since: int)
    ensures |InWindow(Run(steps), kind, since)| == |RecordedSince(steps, kind, since)|
  {
    hide InWindow, After, CountSince;
    CountIsCardinality(Run(steps), kind, since);
    if steps == [] {
      Nothing(kind, since);
      assert RecordedSince(steps, kind, since) == {};
    } else {
      var n := |steps| - 1;
      var log := Run(steps[..n]);
      RunCountsRecords(steps[..n], kind, since);
      CountIsCardinality(log, kind, since);
      hide RecordedSince;
      LastRecorded(steps, kind, since);
      var s := steps[n];
      if s.Detect? { PassCountsNothing(log, s.pass, 4, kind, since); } else { CountAppend(log, Counted(s.kind, s.createdAt), kind, since); }
    }
  }

  lemma {:induction false} PassCountsNothing(start: seq<Entry>, p: Pass, n: nat, kind: Kind, since: int)
    requires n <= 4
    ensures CountSince(After(start, p, n), kind, since) == CountSince(start, kind, since)
  {
    hide CountSince, Raises;
    if n > 0 {
      PassCountsNothing(start, p, n - 1, kind, since);
      CountAppend(After(start, p, n - 1), AnomalyOf(start, p, n - 1), kind, since);
    }
  }

  /** A log on which rule `k` raises, with its last anomaly just out of the window. */
  function JustOut(p: Pass, k: nat, count: nat): seq<Entry>
    requires k < 4
  {
    if count == 0 then [Raised(Rule(k), p.now - p.windowMs - 1, 0)]
    else JustOut(p, k, count - 1) + [Counted(Rule(k), p.now)]
  }

  lemma CountAppend(log: seq<Entry>, e: Entry, kind: Kind, since: int)
    ensures CountSince(log + [e], kind, since) ==
            CountSince(log, kind, since) + if e.Counted? && e.kind == kind && e.createdAt >= since then 1 else 0
  {
    assert (log + [e])[..|log|] == log;
  }

  lemma {:induction false} JustOutRaises(p: Pass, k: nat, count: nat)
    requires k < 4
    ensures var start := JustOut(p, k, count);
            && CountSince(start, Rule(k), p.now - p.windowMs) == count
            && !AlreadyRaised(start, Rule(k), p.now - p.windowMs)
            && Separated(start, p.windowMs) && |start| > 0 && start[0] == Raised(Rule(k), p.now - p.windowMs - 1, 0)
  {
    hide CountSince, Rule, AlreadyRaised;
    var since := p.now - p.windowMs;
    if count > 0 {
      JustOutRaises(p, k, count - 1);
      CountAppend(JustOut(p, k, count - 1), Counted(Rule(k), p.now), Rule(k), since);
      RaisedAppend(JustOut(p, k, count - 1), Counted(Rule(k), p.now), Rule(k), since);
    } else {
      Nothing(Rule(k), since);
      CountAppend([], Raised(Rule(k), since - 1, 0), Rule(k), since);
      RaisedAppend([], Raised(Rule(k), since - 1, 0), Rule(k), since);
      assert [] + [Raised(Rule(k), since - 1, 0)] == JustOut(p, k, 0);
    }
  }

  lemma Nothing(kind: Kind, since: int)
    ensures CountSince([], kind, since) == 0 && !AlreadyRaised([], kind, since)
  {
  }

  /** That anomalies are written after the look at the clock is just what separation
      takes: a caller that passes a `now` ahead of the clock loses it. */
  lemma SeparationIffInOrder(p: Pass)
    ensures (forall start :: Separated(start, p.windowMs) ==> Separated(After(start, p, 4), p.windowMs)) <==> InOrder(p)
  {
    hide After, Separated;
    if InOrder(p) {
      forall start | Separated(start, p.windowMs)
        ensures Separated(After(start, p, 4), p.windowMs)
      {
        PassKeepsSeparation(start, p, 4);
      }
    } else {
      var k: nat :| k < 4 && p.at(k) < p.now;
      var start := JustOut(p, k, p.threshold(Rule(k)));
      JustOutRaises(p, k, p.threshold(Rule(k)));
      TooClose(start, p, k);
    }
  }

  lemma TooClose(start: seq<Entry>, p: Pass, k: nat)
    requires k < 4 && p.at(k) < p.now && |start| > 0 && start[0] == Raised(Rule(k), p.now - p.windowMs - 1, 0)
    requires CountSince(start, Rule(k), p.now - p.windowMs) >= p.threshold(Rule(k))
    requires !AlreadyRaised(start, Rule(k), p.now - p.windowMs)
    ensures !Separated(After(start, p, 4), p.windowMs)
  {
    var log, next, end := After(start, p, k), After(start, p, k + 1), After(start, p, 4);
    assert start <= log && AlreadyRaised(log, Rule(k), p.now - p.windowMs) == AlreadyRaised(start, Rule(k), p.now - p.windowMs) by {
      RulesAreIndependent(start, p, k, k);
    }
    assert next <= end by { RulesAreIndependent(start, p, k, 4); }
    hide CountSince, AlreadyRaised, Rule, After;
    assert next == log + [AnomalyOf(start, p, k)] by { RuleRaises(start, p, k); }
    assert end[0] == start[0] && end[|log|] == next[|log|];
    assert IsRaised(end[|log|], end[0].kind);
  }

  lemma RuleRaises(start: seq<Entry>, p: Pass, k: nat)
    requires k < 4 && Raises(start, After(start, p, k), p, k)
    ensures After(start, p, k + 1) == After(start, p, k) + [AnomalyOf(start, p, k)]
  {
  }
}
