/** Are approvals single-use? `AI_SECURITY_MODEL.md` says they are consumed by
    recording the execution outcome. That takes a trigger which admits the outcome
    of an approved request; the shipped one (`src/db/sql/0005_compliance.sql`)
    refuses every update of a decided row. The exact condition on the trigger is
    proved here, for every trigger. */
module SingleUse {
  import opened Options
  import opened JsonText
  import opened CanonicalJson
  import opened Oversight
  import opened Sandbox
  import opened Grants

  // ----- counting

  function Count<T>(s: seq<T>, p: T -> bool): nat
  {
    if s == [] then 0
    else Count(s[..|s| - 1], p) + if p(s[|s| - 1]) then 1 else 0
  }

  lemma CountAppend<T>(s: seq<T>, x: T, p: T -> bool)
    ensures Count(s + [x], p) == Count(s, p) + if p(x) then 1 else 0
  {
    assert (s + [x])[..|s|] == s;
  }

  lemma {:induction false} CountUpdate<T>(s: seq<T>, i: nat, x: T, p: T -> bool)
    requires i < |s|
    ensures Count(s[i := x], p) + (if p(s[i]) then 1 else 0) == Count(s, p) + if p(x) then 1 else 0
    decreases |s|
  {
    var n := |s| - 1;
    if i == n {
      assert s[i := x][..n] == s[..n];
    } else {
      assert s[i := x][..n] == s[..n][i := x];
      CountUpdate(s[..n], i, x, p);
    }
  }

  lemma {:induction false} CountSame<T>(s: seq<T>, t: seq<T>, p: T -> bool)
    requires |s| == |t| && forall i :: 0 <= i < |s| ==> (p(s[i]) <==> p(t[i]))
    ensures Count(s, p) == Count(t, p)
    decreases |s|
  {
    if s != [] { CountSame(s[..|s| - 1], t[..|t| - 1], p); }
  }

  /** If `p` implies `q`, and some element has `q` but not `p`, there are more `q`. */
  lemma {:induction false} CountBelow<T>(s: seq<T>, p: T -> bool, q: T -> bool)
    requires forall i :: 0 <= i < |s| && p(s[i]) ==> q(s[i])
    ensures Count(s, p) <= Count(s, q)
    ensures (exists i :: 0 <= i < |s| && q(s[i]) && !p(s[i])) ==> Count(s, p) < Count(s, q)
    decreases |s|
  {
    if s != [] {
      var n := |s| - 1;
      var t := s[..n];
      assert forall i :: 0 <= i < n ==> t[i] == s[i];
      CountBelow(t, p, q);
      if i :| 0 <= i < |s| && q(s[i]) && !p(s[i]) {
        assert i < n ==> q(t[i]) && !p(t[i]);
      }
    }
  }

  // ----- executions against approvals

  predicate IsApproval(e: Event)
  {
    e.Decided? && e.approve
  }

  /** A high-risk run whose handler resolved, so that an outcome is recorded. */
  predicate IsResolvedRun(e: Event)
  {
    e.Ran? && NeedsOversight(e.def) && e.resolved
  }

  predicate IsApproved(r: Request)
  {
    r.status == Approved
  }

  predicate IsConsumed(r: Request)
  {
    r.status == Approved && r.outcome.Some?
  }

  function Approvals(trace: seq<Event>): nat
  {
    Count(trace, IsApproval)
  }

  function ResolvedRuns(trace: seq<Event>): nat
  {
    Count(trace, IsResolvedRun)
  }

  /** The outcome of a run still has to be recorded. */
  ghost predicate Outstanding(s: System)
  {
    exists c: nat :: PhaseOf(s, c).Executed?
  }

  ghost predicate HoldsApproval(s: System, p: Phase)
  {
    match p
    case Idle => true
    case Gated(_, def, _) => NeedsOversight(def)
    case Cleared(env, def, _, request) =>
      if NeedsOversight(def)
      then request.Some? && request.value < |s.requests| && Usable(s.requests[request.value])
           && s.requests[request.value].orgId == env.orgId
      else request.None?
    case Executed(env, id, _, _) => id < |s.requests| && Usable(s.requests[id]) && s.requests[id].orgId == env.orgId
  }

  ghost predicate ConsumptionInv(s: System)
  {
    && Count(s.requests, IsApproved) == Approvals(s.trace)
    && ResolvedRuns(s.trace) == Count(s.requests, IsConsumed) + (if Outstanding(s) then 1 else 0)
    && (forall c: nat, d: nat :: !PhaseOf(s, c).Idle? && !PhaseOf(s, d).Idle? ==> c == d)
    && (forall c: nat :: HoldsApproval(s, PhaseOf(s, c)))
    && (forall i :: 0 <= i < |s.requests| && s.requests[i].outcome.Some? ==> s.requests[i].status == Approved)
  }

  /** Moving one call on, while all others are idle. */
  lemma SoleCall(s: System, t: System, c: nat, p: Phase)
    requires forall d: nat :: d != c ==> PhaseOf(s, d).Idle?
    requires t.calls == s.calls[c := p]
    ensures forall d: nat :: PhaseOf(t, d) == if d == c then p else Idle
    ensures Outstanding(t) <==> p.Executed?
  {
    assert forall d: nat :: PhaseOf(t, d) == if d == c then p else PhaseOf(s, d);
    if p.Executed? { assert PhaseOf(t, c).Executed?; }
  }

  lemma SoleCallOf(s: System, c: nat)
    requires ConsumptionInv(s) && !PhaseOf(s, c).Idle?
    ensures forall d: nat :: d != c ==> PhaseOf(s, d).Idle?
    ensures Outstanding(s) <==> PhaseOf(s, c).Executed?
  {
  }

  lemma ReturnKeepsConsumption(s: System, c: nat, d: Decision)
    requires ConsumptionInv(s) && !PhaseOf(s, c).Executed? && forall e: nat :: e != c ==> PhaseOf(s, e).Idle?
    ensures ConsumptionInv(Return(s, c, d))
  {
    hide Count, CanonicalText;
    CountAppend(s.trace, Returned(d), IsApproval);
    CountAppend(s.trace, Returned(d), IsResolvedRun);
    var t := Return(s, c, d);
    SoleCall(s, t, c, Idle);
    assert !Outstanding(s) by { NoneExecuted(s, c); }
    forall e: nat
      ensures HoldsApproval(t, PhaseOf(t, e))
    {
    }
  }

  lemma NoneExecuted(s: System, c: nat)
    requires !PhaseOf(s, c).Executed? && forall e: nat :: e != c ==> PhaseOf(s, e).Idle?
    ensures !Outstanding(s)
  {
  }

  lemma MoveKeepsConsumption(s: System, c: nat, p: Phase)
    requires ConsumptionInv(s) && !PhaseOf(s, c).Executed? && forall e: nat :: e != c ==> PhaseOf(s, e).Idle?
    requires !p.Executed? && HoldsApproval(s, p)
    ensures ConsumptionInv(s.(calls := s.calls[c := p]))
  {
    hide Count, CanonicalText;
    var t := s.(calls := s.calls[c := p]);
    SoleCall(s, t, c, p);
    NoneExecuted(s, c);
    forall e: nat
      ensures HoldsApproval(t, PhaseOf(t, e))
    {
      assert HoldsApproval(s, PhaseOf(s, e));
    }
  }

  lemma ClearKeepsConsumption(s: System, c: nat, env: Env, def: ToolDef, args: PlainJson, request: Option<nat>)
    requires ConsumptionInv(s) && !PhaseOf(s, c).Executed? && forall e: nat :: e != c ==> PhaseOf(s, e).Idle?
    requires HoldsApproval(s, Cleared(env, def, args, request))
    ensures ConsumptionInv(Clear(s, c, env, def, args, request))
  {
    if def.requiresIsolation && !env.hasRunner {
      ReturnKeepsConsumption(s, c, Denied(IsolationUnavailable));
    } else {
      MoveKeepsConsumption(s, c, Cleared(env, def, args, request));
    }
  }

  /** Expiry touches pending rows only. */
  lemma ExpireKeepsConsumption(cfg: Config, s: System, orgId: string, now: int)
    requires ConsumptionInv(s)
    ensures ConsumptionInv(DoExpire(cfg, s, orgId, now))
  {
    hide Count, Approvals, ResolvedRuns, CanonicalText;
    var t := DoExpire(cfg, s, orgId, now);
    CountSame(s.requests, t.requests, IsApproved);
    CountSame(s.requests, t.requests, IsConsumed);
    SameCalls(s, t);
    forall c: nat
      ensures HoldsApproval(t, PhaseOf(t, c))
    {
      assert HoldsApproval(s, PhaseOf(s, c));
    }
  }

  lemma StartKeepsConsumption(cfg: Config, s: System, c: nat, env: Env, name: string, parsed: Option<PlainJson>, now: int)
    requires ConsumptionInv(s) && AllIdle(s)
    ensures ConsumptionInv(DoStart(cfg, s, c, env, name, parsed, now))
  {
    if name !in cfg.registry {
      ReturnKeepsConsumption(s, c, Denied(NotAllowlisted));
    } else {
      var def := cfg.registry[name];
      if parsed.None? {
        ReturnKeepsConsumption(s, c, Denied(InvalidArguments));
      } else if def.dangerous && !env.approvedDangerous {
        ReturnKeepsConsumption(s, c, PendingApproval(AwaitingHumanApproval, None));
      } else if !NeedsOversight(def) {
        ClearKeepsConsumption(s, c, env, def, parsed.value, None);
      } else if !env.hasGate {
        ReturnKeepsConsumption(s, c, Denied(OversightUnavailable));
      } else {
        ExpireKeepsConsumption(cfg, s, env.orgId, now);
        var rs := ExpireStaleTx(cfg.trigger, s.requests, env.orgId, now);
        if rs.Some? {
          MoveKeepsConsumption(s.(requests := rs.value), c, Gated(env, def, parsed.value));
        }
      }
    }
  }

  /** A new pending request changes no count. */
  lemma CreateKeepsConsumption(s: System, r: Request, e: Event)
    requires ConsumptionInv(s) && r.status == Pending && r.outcome.None? && e.Created?
    ensures ConsumptionInv(s.(requests := s.requests + [r], trace := s.trace + [e]))
  {
    hide Count, CanonicalText;
    var t := s.(requests := s.requests + [r], trace := s.trace + [e]);
    CountAppend(s.trace, e, IsApproval);
    CountAppend(s.trace, e, IsResolvedRun);
    CountAppend(s.requests, r, IsApproved);
    CountAppend(s.requests, r, IsConsumed);
    SameCalls(s, t);
    forall c: nat
      ensures HoldsApproval(t, PhaseOf(t, c))
    {
      assert HoldsApproval(s, PhaseOf(s, c));
    }
  }

  /** The gate clears a call on a usable approval of its organisation only. */
  lemma GateOpens(cfg: Config, s: System, c: nat, now: int)
    requires PhaseOf(s, c).Gated? && NeedsOversight(PhaseOf(s, c).def)
    ensures var Gated(env, def, args) := PhaseOf(s, c);
            var r := CheckTx(s.requests, env.orgId, def.name, ArgsHash(cfg, args), def.risk.value, now);
            && (r.approved ==> r.requests == s.requests && HoldsApproval(s, Cleared(env, def, args, Some(r.requestId))))
            && (!r.approved && r.requests != s.requests ==>
                  && |r.requests| == |s.requests| + 1 && r.requests == s.requests + [r.requests[|s.requests|]]
                  && r.requests[|s.requests|].status == Pending && r.requests[|s.requests|].outcome.None?)
  {
  }

  lemma GateKeepsConsumption(cfg: Config, s: System, c: nat, now: int)
    requires ConsumptionInv(s) && PhaseOf(s, c).Gated? && NeedsOversight(PhaseOf(s, c).def)
    ensures ConsumptionInv(DoGate(cfg, s, c, now))
  {
    hide Count, CanonicalText, ConsumptionInv, Clear;
    GateOpens(cfg, s, c, now);
    SoleCallOf(s, c);
    var Gated(env, def, args) := PhaseOf(s, c);
    var r := CheckTx(s.requests, env.orgId, def.name, ArgsHash(cfg, args), def.risk.value, now);
    var d := PendingApproval(HumanOversightRequired, Some(r.requestId));
    if r.approved {
      ClearKeepsConsumption(s, c, env, def, args, Some(r.requestId));
    } else if r.requests == s.requests {
      assert s.(requests := r.requests, trace := s.trace + []) == s;
      ReturnKeepsConsumption(s, c, d);
    } else {
      var e, row := Created(r.requestId, env.orgId, def.name, args), r.requests[|s.requests|];
      var t := s.(requests := s.requests + [row], trace := s.trace + [e]);
      CreateKeepsConsumption(s, row, e);
      SameCalls(s, t);
      ReturnKeepsConsumption(t, c, d);
    }
  }

  lemma RunToolKeepsConsumption(s: System, c: nat, result: HandlerResult)
    requires ConsumptionInv(s) && PhaseOf(s, c).Cleared?
    ensures ConsumptionInv(DoRunTool(s, c, result))
  {
    hide Count, CanonicalText;
    SoleCallOf(s, c);
    var p := PhaseOf(s, c);
    assert HoldsApproval(s, p);
    var ran := Ran(p.env, p.def, p.args, p.request, p.def.requiresIsolation, result.Resolved?);
    var t := s.(trace := s.trace + [ran]);
    CountAppend(s.trace, ran, IsApproval);
    CountAppend(s.trace, ran, IsResolvedRun);
    SameCalls(s, t);
    if result.Resolved? && p.request.Some? {
      SoleCall(t, DoRunTool(s, c, result), c, Executed(p.env, p.request.value, p.def.requiresIsolation, result.ok));
    } else {
      ReturnKeepsConsumption(t, c, Allowed(if result.Resolved? then result.ok else false));
    }
  }

  /** The outcome that a call is about to record is admitted. */
  predicate OutcomeAdmitted(cfg: Config, s: System, p: Phase)
  {
    p.Executed? && p.approval < |s.requests| &&
    cfg.trigger(s.requests[p.approval], WithOutcome(s.requests[p.approval], p.isolated, p.ok))
  }

  lemma GrantAdmitsOutcome(cfg: Config, s: System, c: nat)
    requires GrantInv(cfg, s) && ConsumptionInv(s) && OutcomesAdmitted(cfg) && PhaseOf(s, c).Executed?
    ensures OutcomeAdmitted(cfg, s, PhaseOf(s, c))
  {
    hide CanonicalText, Count, ArgsHash;
    var p := PhaseOf(s, c);
    assert HoldsApproval(s, p) && PhaseOk(cfg, s.requests, p);
    var row := s.requests[p.approval];
    assert RowOk(cfg, row);
    var asked: Request, decider: string :|
      IsAsked(cfg, asked) && row == ApprovedBy(asked, decider) && cfg.trigger(asked, row);
    var asker: ToolDef, args: PlainJson, now: int :|
      Overseen(cfg, asker) && asked == AskedFor(cfg, asked.orgId, asker, args, now);
    var runner :| Overseen(cfg, runner) && runner.name == row.toolName && runner.requiresIsolation == p.isolated;
    assert Admits(cfg, asker, runner, asked.orgId, args, now, decider, p.ok);
  }

  /** If the trigger admits the outcome, recording it uses up the approval. */
  lemma RecordKeepsConsumption(cfg: Config, s: System, c: nat)
    requires ConsumptionInv(s) && PhaseOf(s, c).Executed? && OutcomeAdmitted(cfg, s, PhaseOf(s, c))
    ensures ConsumptionInv(DoRecord(cfg, s, c))
  {
    hide Count, CanonicalText, Approvals, ResolvedRuns;
    SoleCallOf(s, c);
    var Executed(env, id, isolated, ok) := PhaseOf(s, c);
    assert HoldsApproval(s, PhaseOf(s, c));
    var row := WithOutcome(s.requests[id], isolated, ok);
    var t := DoRecord(cfg, s, c);
    assert t.requests == s.requests[id := row];
    CountUpdate(s.requests, id, row, IsApproved);
    CountUpdate(s.requests, id, row, IsConsumed);
    RecordedCounts(s.trace, id, Allowed(ok));
    SoleCall(s, t, c, Idle);
  }

  lemma RecordedCounts(trace: seq<Event>, id: nat, d: Decision)
    ensures Approvals(trace + [Recorded(id)] + [Returned(d)]) == Approvals(trace)
    ensures ResolvedRuns(trace + [Recorded(id)] + [Returned(d)]) == ResolvedRuns(trace)
  {
    CountAppend(trace, Recorded(id), IsApproval);
    CountAppend(trace, Recorded(id), IsResolvedRun);
    CountAppend(trace + [Recorded(id)], Returned(d), IsApproval);
    CountAppend(trace + [Recorded(id)], Returned(d), IsResolvedRun);
  }

  lemma DecideCounts(s: System, id: nat, decider: string, approve: bool)
    requires ConsumptionInv(s) && id < |s.requests| && s.requests[id].status == Pending
    ensures var rs := s.requests[id := s.requests[id].(status := if approve then Approved else Rejected,
                                                       decidedBy := Some(decider))];
            var trace := s.trace + [Decided(id, decider, approve)];
            && Count(rs, IsApproved) == Approvals(trace)
            && Count(rs, IsConsumed) == Count(s.requests, IsConsumed)
            && ResolvedRuns(trace) == ResolvedRuns(s.trace)
  {
    var row := s.requests[id].(status := if approve then Approved else Rejected, decidedBy := Some(decider));
    CountUpdate(s.requests, id, row, IsApproved);
    CountUpdate(s.requests, id, row, IsConsumed);
    CountAppend(s.trace, Decided(id, decider, approve), IsApproval);
    CountAppend(s.trace, Decided(id, decider, approve), IsResolvedRun);
  }

  lemma SameCalls(s: System, t: System)
    requires t.calls == s.calls
    ensures forall c: nat :: PhaseOf(t, c) == PhaseOf(s, c)
    ensures Outstanding(t) <==> Outstanding(s)
  {
    assert forall c: nat :: PhaseOf(t, c) == PhaseOf(s, c);
  }

  lemma DecideKeepsConsumption(cfg: Config, s: System, orgId: string, id: nat, decider: string, approve: bool)
    requires ConsumptionInv(s)
    ensures ConsumptionInv(DoDecide(cfg, s, orgId, id, decider, approve))
  {
    hide Count, Approvals, ResolvedRuns;
    var t := DoDecide(cfg, s, orgId, id, decider, approve);
    if t != s {
      DecideCounts(s, id, decider, approve);
      SameCalls(s, t);
      forall c: nat
        ensures HoldsApproval(t, PhaseOf(t, c))
      {
        assert HoldsApproval(s, PhaseOf(s, c));
      }
    }
  }

  lemma StepKeepsConsumption(cfg: Config, s: System, a: Action)
    requires ConsumptionInv(s) && GrantInv(cfg, s) && cfg.serial && OutcomesAdmitted(cfg)
    ensures ConsumptionInv(Do(cfg, s, a))
  {
    hide ConsumptionInv, GrantInv, OutcomesAdmitted, CanonicalText;
    match a
    case Start(c, env, name, parsed, now) =>
      if PhaseOf(s, c).Idle? && AllIdle(s) { StartKeepsConsumption(cfg, s, c, env, name, parsed, now); }
    case Gate(c, now) =>
      if PhaseOf(s, c).Gated? && NeedsOversight(PhaseOf(s, c).def) { GateKeepsConsumption(cfg, s, c, now); }
    case RunTool(c, result) => if PhaseOf(s, c).Cleared? { RunToolKeepsConsumption(s, c, result); }
    case Record(c) =>
      if PhaseOf(s, c).Executed? {
        GrantAdmitsOutcome(cfg, s, c);
        RecordKeepsConsumption(cfg, s, c);
      }
    case DecideRequest(orgId, id, decider, approve) => DecideKeepsConsumption(cfg, s, orgId, id, decider, approve);
    case Expire(orgId, now) => ExpireKeepsConsumption(cfg, s, orgId, now);
  }

  lemma {:induction false} RunKeepsConsumption(cfg: Config, actions: seq<Action>)
    requires cfg.serial && OutcomesAdmitted(cfg)
    ensures ConsumptionInv(Run(cfg, Initial, actions)) && GrantInv(cfg, Run(cfg, Initial, actions))
    decreases |actions|
  {
    hide OutcomesAdmitted, Do;
    if actions != [] {
      var n := |actions| - 1;
      RunKeepsConsumption(cfg, actions[..n]);
      StepKeepsConsumption(cfg, Run(cfg, Initial, actions[..n]), actions[n]);
      StepKeepsGrants(cfg, Run(cfg, Initial, actions[..n]), actions[n]);
    }
  }

  lemma ConsumptionBound(s: System)
    requires ConsumptionInv(s)
    ensures ResolvedRuns(s.trace) <= Approvals(s.trace)
  {
    if Outstanding(s) {
      var c: nat :| PhaseOf(s, c).Executed?;
      assert HoldsApproval(s, PhaseOf(s, c));
      var id := PhaseOf(s, c).approval;
      assert IsApproved(s.requests[id]) && !IsConsumed(s.requests[id]);
    }
    CountBelow(s.requests, IsConsumed, IsApproved);
  }

  // ----- the shipped trigger

  ghost predicate NeverConsumed(s: System)
  {
    && (forall i :: 0 <= i < |s.requests| ==> s.requests[i].outcome.None?)
    && (forall c: nat :: HoldsDecided(s, PhaseOf(s, c)))
  }

  ghost predicate HoldsDecided(s: System, p: Phase)
  {
    && (p.Cleared? && p.request.Some? ==> p.request.value < |s.requests| && s.requests[p.request.value].status == Approved)
    && (p.Executed? ==> p.approval < |s.requests| && s.requests[p.approval].status == Approved)
  }

  /** Decided rows stay as they are. */
  predicate Frozen(rs: seq<Request>, ts: seq<Request>)
  {
    |rs| <= |ts| && forall i :: 0 <= i < |rs| && rs[i].status != Pending ==> ts[i] == rs[i]
  }

  /** What one step does to the table. */
  lemma StepFreezesRows(cfg: Config, s: System, a: Action)
    requires NeverConsumed(s) && cfg.trigger == ForwardOnly
    ensures Frozen(s.requests, Do(cfg, s, a).requests)
    ensures forall r :: r in Do(cfg, s, a).requests ==> r.outcome.None?
  {
    hide CanonicalText, ArgsHash;
    if a.Record? && PhaseOf(s, a.c).Executed? {
      var Executed(_, id, isolated, ok) := PhaseOf(s, a.c);
      assert HoldsDecided(s, PhaseOf(s, a.c));
      assert !ForwardOnly(s.requests[id], s.requests[id].(outcome := Some(Summary(isolated, ok))));
    }
  }

  /** What one step does to the calls: a gate clears on an approved row only. */
  lemma StepHoldsDecided(cfg: Config, s: System, a: Action, c: nat)
    requires NeverConsumed(s) && Frozen(s.requests, Do(cfg, s, a).requests)
    ensures HoldsDecided(Do(cfg, s, a), PhaseOf(Do(cfg, s, a), c))
  {
    assert HoldsDecided(s, PhaseOf(s, c));
    if a.Expire? || a.DecideRequest? || c != a.c {
      hide Do;
      CallStays(cfg, s, a, c);
    } else {
      hide CanonicalText, ArgsHash, Summary, ExpireStaleTx, RecordOutcomeTx;
    }
  }

  lemma StepFreezes(cfg: Config, s: System, a: Action)
    requires NeverConsumed(s) && cfg.trigger == ForwardOnly
    ensures NeverConsumed(Do(cfg, s, a)) && Frozen(s.requests, Do(cfg, s, a).requests)
  {
    StepFreezesRows(cfg, s, a);
    forall c: nat
      ensures HoldsDecided(Do(cfg, s, a), PhaseOf(Do(cfg, s, a), c))
    {
      StepHoldsDecided(cfg, s, a, c);
    }
  }

  lemma {:induction false} RunFreezes(cfg: Config, s: System, actions: seq<Action>)
    requires NeverConsumed(s) && cfg.trigger == ForwardOnly
    ensures NeverConsumed(Run(cfg, s, actions)) && Frozen(s.requests, Run(cfg, s, actions).requests)
    decreases |actions|
  {
    if actions != [] {
      var n := |actions| - 1;
      RunFreezes(cfg, s, actions[..n]);
      StepFreezes(cfg, Run(cfg, s, actions[..n]), actions[n]);
    }
  }

  lemma {:induction false} RunSplits(cfg: Config, s: System, first: seq<Action>, rest: seq<Action>)
    ensures Run(cfg, s, first + rest) == Run(cfg, Run(cfg, s, first), rest)
    decreases |rest|
  {
    hide Do, Run;
    if rest == [] {
      assert first + rest == first;
      NoStep(cfg, Run(cfg, s, first));
    } else {
      var n := |rest| - 1;
      assert (first + rest)[..|first| + n] == first + rest[..n];
      assert (first + rest)[|first| + n] == rest[n];
      RunSplits(cfg, s, first, rest[..n]);
      LastStep(cfg, s, first + rest);
      LastStep(cfg, Run(cfg, s, first), rest);
    }
  }

  lemma NoStep(cfg: Config, s: System)
    ensures Run(cfg, s, []) == s
  {
  }

  lemma LastStep(cfg: Config, s: System, actions: seq<Action>)
    requires actions != []
    ensures Run(cfg, s, actions) == Do(cfg, Run(cfg, s, actions[..|actions| - 1]), actions[|actions| - 1])
  {
    hide Do;
  }

  /** With the shipped trigger no outcome is ever recorded, and an approval, once
      given, stays usable for good. */
  lemma ShippedApprovalsStayUsable(cfg: Config, first: seq<Action>, rest: seq<Action>, id: nat)
    requires cfg.trigger == ForwardOnly
    requires id < |Run(cfg, Initial, first).requests| && Run(cfg, Initial, first).requests[id].status == Approved
    ensures var rs := Run(cfg, Initial, first + rest).requests;
            id < |rs| && Usable(rs[id]) && forall i :: 0 <= i < |rs| ==> rs[i].outcome.None?
  {
    RunFreezes(cfg, Initial, first);
    RunFreezes(cfg, Run(cfg, Initial, first), rest);
    RunSplits(cfg, Initial, first, rest);
  }

  // ----- replaying an approval whose outcome is refused

  /** A caller who satisfies every gate but human oversight. */
  function Trusted(orgId: string): Env
  {
    Env(orgId, true, true, true)
  }

  /** One approved request and nobody running. */
  predicate Standing(s: System, row: Request)
  {
    AllIdle(s) && s.requests == [row]
  }

  function CallActions(env: Env, name: string, args: PlainJson, ok: bool): seq<Action>
  {
    [Start(0, env, name, Some(args), 0), Gate(0, 0), RunTool(0, Resolved(ok)), Record(0)]
  }

  lemma RunFour(cfg: Config, s: System, a: Action, b: Action, c: Action, d: Action)
    ensures Run(cfg, s, [a, b, c, d]) == Do(cfg, Do(cfg, Do(cfg, Do(cfg, s, a), b), c), d)
  {
    hide Do, Run;
    RunThree(cfg, s, a, b, c);
    assert [a, b, c, d][..3] == [a, b, c];
    LastStep(cfg, s, [a, b, c, d]);
  }

  lemma RunThree(cfg: Config, s: System, a: Action, b: Action, c: Action)
    ensures Run(cfg, s, [a, b, c]) == Do(cfg, Do(cfg, Do(cfg, s, a), b), c)
  {
    hide Do, Run;
    NoStep(cfg, s);
    LastStep(cfg, s, [a]);
    assert [a][..0] == [] && [a, b][..1] == [a] && [a, b, c][..2] == [a, b];
    LastStep(cfg, s, [a, b]);
    LastStep(cfg, s, [a, b, c]);
  }

  /** Expiry leaves decided requests alone, so it cannot fail here. */
  lemma NothingExpires(cfg: Config, row: Request, orgId: string, now: int)
    requires row.status != Pending
    ensures ExpireStaleTx(cfg.trigger, [row], orgId, now) == Some([row])
  {
    var after := ExpireStaleTx(cfg.trigger, [row], orgId, now);
    assert after.Some? && after.value[0] == row;
    assert after.value == [row];
  }

  lemma UsableIsFound(row: Request, orgId: string, toolName: string, argsHash: string, risk: RiskLevel, now: int)
    requires Usable(row) && Matches(row, orgId, toolName, argsHash)
    ensures CheckTx([row], orgId, toolName, argsHash, risk, now) == CheckResult([row], true, 0)
  {
    assert Matches([row][0], orgId, toolName, argsHash);
  }

  /** A call under the standing approval reaches its handler. */
  lemma StandingIsCleared(cfg: Config, s: System, row: Request, name: string, args: PlainJson)
    requires Standing(s, row) && Usable(row)
    requires name in cfg.registry && NeedsOversight(cfg.registry[name])
    requires Matches(row, row.orgId, cfg.registry[name].name, ArgsHash(cfg, args))
    ensures var def, env := cfg.registry[name], Trusted(row.orgId);
            Do(cfg, Do(cfg, s, Start(0, env, name, Some(args), 0)), Gate(0, 0)) ==
            s.(calls := s.calls[0 := Cleared(env, def, args, Some(0))])
  {
    hide ExpireStaleTx, CheckTx, Matches, Usable, ArgsHash;
    var def, env := cfg.registry[name], Trusted(row.orgId);
    assert row.status == Approved by { assert Usable(row); UsableIsApproved(row); }
    NothingExpires(cfg, row, row.orgId, 0);
    var gated := s.(calls := s.calls[0 := Gated(env, def, args)]);
    assert Do(cfg, s, Start(0, env, name, Some(args), 0)) == gated;
    UsableIsFound(row, row.orgId, def.name, ArgsHash(cfg, args), def.risk.value, 0);
    assert gated.calls[0 := Cleared(env, def, args, Some(0))] == s.calls[0 := Cleared(env, def, args, Some(0))];
  }

  lemma UsableIsApproved(row: Request)
    requires Usable(row)
    ensures row.status == Approved
  {
  }

  /** It runs, its outcome is refused, and the approval still stands. */
  lemma RefusedRun(cfg: Config, s: System, row: Request, def: ToolDef, args: PlainJson, ok: bool)
    requires s.requests == [row] && NeedsOversight(def)
    requires PhaseOf(s, 0) == Cleared(Trusted(row.orgId), def, args, Some(0))
    requires forall c :: c in s.calls && c != 0 ==> s.calls[c].Idle?
    requires !cfg.trigger(row, WithOutcome(row, def.requiresIsolation, ok))
    ensures var t := Do(cfg, Do(cfg, s, RunTool(0, Resolved(ok))), Record(0));
            && Standing(t, row)
            && ResolvedRuns(t.trace) == ResolvedRuns(s.trace) + 1
            && Approvals(t.trace) == Approvals(s.trace)
  {
    hide Count;
    var ran := Ran(Trusted(row.orgId), def, args, Some(0), def.requiresIsolation, true);
    var executed := Do(cfg, s, RunTool(0, Resolved(ok)));
    assert executed.trace == s.trace + [ran] && executed.requests == [row];
    var t := Do(cfg, executed, Record(0));
    assert t.trace == s.trace + [ran] + [Returned(Allowed(false))];
    CountAppend(s.trace, ran, IsApproval);
    CountAppend(s.trace, ran, IsResolvedRun);
    CountAppend(s.trace + [ran], Returned(Allowed(false)), IsApproval);
    CountAppend(s.trace + [ran], Returned(Allowed(false)), IsResolvedRun);
  }

  lemma {:induction false} StandingRunsAgain(cfg: Config, s: System, row: Request, name: string, args: PlainJson, ok: bool, n: nat)
    returns (actions: seq<Action>)
    requires Standing(s, row) && Usable(row)
    requires name in cfg.registry && NeedsOversight(cfg.registry[name])
    requires Matches(row, row.orgId, cfg.registry[name].name, ArgsHash(cfg, args))
    requires !cfg.trigger(row, WithOutcome(row, cfg.registry[name].requiresIsolation, ok))
    ensures var t := Run(cfg, s, actions);
            ResolvedRuns(t.trace) == ResolvedRuns(s.trace) + n && Approvals(t.trace) == Approvals(s.trace)
    decreases n
  {
    hide Do, Run, ResolvedRuns, Approvals, ArgsHash, Matches, Usable;
    if n == 0 {
      actions := [];
      NoStep(cfg, s);
    } else {
      var def, env := cfg.registry[name], Trusted(row.orgId);
      var cleared := s.(calls := s.calls[0 := Cleared(env, def, args, Some(0))]);
      StandingIsCleared(cfg, s, row, name, args);
      RefusedRun(cfg, cleared, row, def, args, ok);
      var call := CallActions(env, name, args, ok);
      RunFour(cfg, s, call[0], call[1], call[2], call[3]);
      var rest := StandingRunsAgain(cfg, Run(cfg, s, call), row, name, args, ok, n - 1);
      RunSplits(cfg, s, call, rest);
      actions := call + rest;
    }
  }

  /** The state once a request has been made and approved. */
  function AskedAndApproved(asked: Request, args: PlainJson, decider: string): System
  {
    System(
      [ApprovedBy(asked, decider)],
      [Created(0, asked.orgId, asked.toolName, args), Returned(PendingApproval(HumanOversightRequired, Some(0))),
       Decided(0, decider, true)],
      map[0 := Idle])
  }

  lemma Asking(cfg: Config, orgId: string, name: string, args: PlainJson, now: int)
    requires name in cfg.registry && NeedsOversight(cfg.registry[name])
    ensures var asked := AskedFor(cfg, orgId, cfg.registry[name], args, now);
            Do(cfg, Do(cfg, Initial, Start(0, Trusted(orgId), name, Some(args), now)), Gate(0, now)) ==
            System([asked],
                   [Created(0, orgId, asked.toolName, args), Returned(PendingApproval(HumanOversightRequired, Some(0)))],
                   map[0 := Idle])
  {
    hide ArgsHash;
    var def := cfg.registry[name];
    var gated := System([], [], map[0 := Gated(Trusted(orgId), def, args)]);
    assert Do(cfg, Initial, Start(0, Trusted(orgId), name, Some(args), now)) == gated;
    var asked := AskedFor(cfg, orgId, def, args, now);
    assert CheckTx([], orgId, def.name, ArgsHash(cfg, args), def.risk.value, now) == CheckResult([asked], false, 0);
  }

  lemma Approving(cfg: Config, asked: Request, args: PlainJson, decider: string)
    requires asked.status == Pending && cfg.trigger(asked, ApprovedBy(asked, decider))
    ensures var trace := [Created(0, asked.orgId, asked.toolName, args), Returned(PendingApproval(HumanOversightRequired, Some(0)))];
            Do(cfg, System([asked], trace, map[0 := Idle]), DecideRequest(asked.orgId, 0, decider, true)) ==
            AskedAndApproved(asked, args, decider)
  {
    assert [asked][0 := ApprovedBy(asked, decider)] == [ApprovedBy(asked, decider)];
  }

  lemma CountThree<T>(a: T, b: T, c: T, p: T -> bool)
    requires !p(a) && !p(b)
    ensures Count([a, b, c], p) == if p(c) then 1 else 0
  {
    assert [a, b, c][..2] == [a, b] && [a, b][..1] == [a] && [a][..0] == [];
    assert Count([a], p) == 0 && Count([a, b], p) == 0;
  }

  /** If an approval can be given on which the outcome of some tool is refused, that one
      approval lets the tool run any number of times. */
  lemma RefusedApprovalRunsForever(cfg: Config, asker: string, runner: string, orgId: string, args: PlainJson, now: int,
                                   decider: string, ok: bool, n: nat)
    returns (actions: seq<Action>)
    requires asker in cfg.registry && runner in cfg.registry && cfg.registry[asker].name == cfg.registry[runner].name
    requires NeedsOversight(cfg.registry[asker]) && NeedsOversight(cfg.registry[runner])
    requires !Admits(cfg, cfg.registry[asker], cfg.registry[runner], orgId, args, now, decider, ok)
    ensures var trace := Run(cfg, Initial, actions).trace; Approvals(trace) == 1 && ResolvedRuns(trace) == n
  {
    hide Do, Run, Count, ArgsHash;
    var asked := AskedFor(cfg, orgId, cfg.registry[asker], args, now);
    var first := [Start(0, Trusted(orgId), asker, Some(args), now), Gate(0, now), DecideRequest(orgId, 0, decider, true)];
    var s := AskedAndApproved(asked, args, decider);
    Asking(cfg, orgId, asker, args, now);
    Approving(cfg, asked, args, decider);
    RunThree(cfg, Initial, first[0], first[1], first[2]);
    CountThree(s.trace[0], s.trace[1], s.trace[2], IsApproval);
    CountThree(s.trace[0], s.trace[1], s.trace[2], IsResolvedRun);
    var rest := StandingRunsAgain(cfg, s, ApprovedBy(asked, decider), runner, args, ok, n);
    RunSplits(cfg, Initial, first, rest);
    actions := first + rest;
  }

  /** Corollary: with the shipped trigger one approval lets its tool run for good. */
  lemma OneApprovalRunsForever(cfg: Config, name: string, orgId: string, args: PlainJson, n: nat) returns (actions: seq<Action>)
    requires cfg.trigger == ForwardOnly && name in cfg.registry && NeedsOversight(cfg.registry[name])
    ensures var trace := Run(cfg, Initial, actions).trace; Approvals(trace) == 1 && ResolvedRuns(trace) == n
  {
    hide Run, Count, ArgsHash;
    actions := RefusedApprovalRunsForever(cfg, name, name, orgId, args, 0, "", true, n);
  }

  // ----- the exact condition

  /** Executions are covered one by one by approvals. */
  ghost predicate SingleUse(cfg: Config)
  {
    forall actions :: ResolvedRuns(Run(cfg, Initial, actions).trace) <= Approvals(Run(cfg, Initial, actions).trace)
  }

  /** For every registry and every trigger: in runs of one call at a time approvals are
      single-use exactly if the trigger admits every outcome of the requests whose
      approval it admits. */
  lemma SingleUseIffOutcomesAdmitted(cfg: Config)
    requires cfg.serial
    ensures SingleUse(cfg) <==> OutcomesAdmitted(cfg)
  {
    hide Run, ResolvedRuns, Approvals, Admits;
    if OutcomesAdmitted(cfg) {
      forall actions
        ensures ResolvedRuns(Run(cfg, Initial, actions).trace) <= Approvals(Run(cfg, Initial, actions).trace)
      {
        RunKeepsConsumption(cfg, actions);
        ConsumptionBound(Run(cfg, Initial, actions));
      }
    } else {
      var asker: ToolDef, runner: ToolDef, orgId: string, args: PlainJson, now: int, decider: string, ok: bool :|
        Overseen(cfg, asker) && Overseen(cfg, runner) && asker.name == runner.name &&
        !Admits(cfg, asker, runner, orgId, args, now, decider, ok);
      var a :| a in cfg.registry && cfg.registry[a] == asker;
      var r :| r in cfg.registry && cfg.registry[r] == runner;
      var actions := RefusedApprovalRunsForever(cfg, a, r, orgId, args, now, decider, ok, 2);
      assert ResolvedRuns(Run(cfg, Initial, actions).trace) > Approvals(Run(cfg, Initial, actions).trace);
    }
  }

  /** Corollary: the documented design, where an approved row may receive its outcome. */
  lemma DocumentedTriggerIsSingleUse(cfg: Config)
    requires cfg.serial && cfg.trigger == ForwardOrOutcome
    ensures SingleUse(cfg)
  {
    hide ArgsHash, SingleUse;
    SingleUseIffOutcomesAdmitted(cfg);
  }

  /** Corollary: with the shipped trigger approvals are single-use only if there is no
      tool that needs one. */
  lemma ShippedTriggerIsSingleUseIff(cfg: Config)
    requires cfg.serial && cfg.trigger == ForwardOnly
    ensures SingleUse(cfg) <==>
            forall def :: def in cfg.registry.Values ==> def.risk != Some(High) && def.risk != Some(Critical)
  {
    hide ArgsHash, SingleUse;
    SingleUseIffOutcomesAdmitted(cfg);
    if def :| Overseen(cfg, def) {
      assert !Admits(cfg, def, def, "", Null, 0, "", true);
    } else {
      assert forall def :: def in cfg.registry.Values ==> !Overseen(cfg, def);
    }
  }
}
