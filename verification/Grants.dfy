/** Where the approvals of `Sandbox` come from: in every run an invocation has one
    open request at most, and a usable approval is one that the gate asked for and
    the trigger let a decider give. */
module Grants {
  import opened Options
  import opened JsonText
  import opened CanonicalJson
  import opened Oversight
  import opened Sandbox

  // ----- one open request per invocation

  predicate Open(r: Request)
  {
    r.status == Pending || Usable(r)
  }

  predicate SameKey(r: Request, q: Request)
  {
    Matches(r, q.orgId, q.toolName, q.argsHash)
  }

  predicate OneOpen(rs: seq<Request>)
  {
    forall i, j :: 0 <= i < j < |rs| && Open(rs[i]) && Open(rs[j]) ==> !SameKey(rs[i], rs[j])
  }

  /** Rows keep their key, and none is opened again. */
  predicate NoneReopened(rs: seq<Request>, ts: seq<Request>)
  {
    |rs| == |ts| && forall i :: 0 <= i < |rs| ==> SameKey(ts[i], rs[i]) && (Open(ts[i]) ==> Open(rs[i]))
  }

  lemma NoneReopenedKeepsOneOpen(rs: seq<Request>, ts: seq<Request>)
    requires OneOpen(rs) && NoneReopened(rs, ts)
    ensures OneOpen(ts)
  {
    forall i, j | 0 <= i < j < |ts| && Open(ts[i]) && Open(ts[j])
      ensures !SameKey(ts[i], ts[j])
    {
      assert SameKey(ts[i], rs[i]) && SameKey(ts[j], rs[j]);
      assert Open(rs[i]) && Open(rs[j]);
    }
  }

  lemma CheckKeepsOneOpen(rs: seq<Request>, orgId: string, toolName: string, argsHash: string, risk: RiskLevel, now: int)
    requires OneOpen(rs)
    ensures OneOpen(CheckTx(rs, orgId, toolName, argsHash, risk, now).requests)
  {
  }

  lemma StepKeepsOneOpen(cfg: Config, s: System, a: Action)
    requires OneOpen(s.requests)
    ensures OneOpen(Do(cfg, s, a).requests)
  {
    hide OneOpen;
    match a
    case Gate(c, now) =>
      if PhaseOf(s, c).Gated? && NeedsOversight(PhaseOf(s, c).def) {
        var Gated(env, def, args) := PhaseOf(s, c);
        CheckKeepsOneOpen(s.requests, env.orgId, def.name, ArgsHash(cfg, args), def.risk.value, now);
      }
    case RunTool(c, _) =>
    case _ =>
      assert NoneReopened(s.requests, Do(cfg, s, a).requests);
      NoneReopenedKeepsOneOpen(s.requests, Do(cfg, s, a).requests);
  }

  /** However calls, decisions and expiry interleave, and whatever the trigger
      admits, an invocation never has two open requests: the row that `check`
      picks is determined. */
  lemma {:induction false} AtMostOneOpenRequest(cfg: Config, actions: seq<Action>)
    ensures OneOpen(Run(cfg, Initial, actions).requests)
    decreases |actions|
  {
    if actions != [] {
      var n := |actions| - 1;
      AtMostOneOpenRequest(cfg, actions[..n]);
      StepKeepsOneOpen(cfg, Run(cfg, Initial, actions[..n]), actions[n]);
    }
  }

  /** In every reachable state a pending or usable request of an invocation is the one
      that `check` answers with. */
  lemma CheckPicksTheOne(cfg: Config, actions: seq<Action>, i: nat, now: int)
    requires i < |Run(cfg, Initial, actions).requests|
    ensures var rs := Run(cfg, Initial, actions).requests;
            rs[i].status == Pending || (rs[i].status == Approved && rs[i].outcome.None?) ==>
              CheckTx(rs, rs[i].orgId, rs[i].toolName, rs[i].argsHash, rs[i].riskLevel, now).requestId == i
  {
    hide Run, CheckTx;
    AtMostOneOpenRequest(cfg, actions);
    var rs := Run(cfg, Initial, actions).requests;
    var r := rs[i];
    CheckOutcome(rs, r.orgId, r.toolName, r.argsHash, r.riskLevel, now);
    assert r.status == Pending ==> Answers(r, r.orgId, r.toolName, r.argsHash, Pending);
  }

  // ----- where approvals come from

  /** The request that `check` creates. */
  function AskedFor(cfg: Config, orgId: string, def: ToolDef, args: PlainJson, now: int): Request
    requires NeedsOversight(def)
  {
    Request(orgId, def.name, ArgsHash(cfg, args), def.risk.value, Pending, None, now + DAY_MS, now, None)
  }

  /** ... once `decide` has approved it, ... */
  function ApprovedBy(r: Request, decider: string): Request
  {
    r.(status := Approved, decidedBy := Some(decider))
  }

  /** ... and once the outcome of a run is recorded. */
  function WithOutcome(r: Request, isolated: bool, ok: bool): Request
  {
    r.(outcome := Some(Summary(isolated, ok)))
  }

  /** A tool that runs under oversight. */
  predicate Overseen(cfg: Config, def: ToolDef)
  {
    def in cfg.registry.Values && NeedsOversight(def)
  }

  /** If a request for `asker` can be approved, the outcome of `runner` can be recorded
      on it. */
  predicate Admits(cfg: Config, asker: ToolDef, runner: ToolDef, orgId: string, args: PlainJson, now: int,
                   decider: string, ok: bool)
    requires NeedsOversight(asker)
  {
    var asked := AskedFor(cfg, orgId, asker, args, now);
    var approved := ApprovedBy(asked, decider);
    cfg.trigger(asked, approved) ==> cfg.trigger(approved, WithOutcome(approved, runner.requiresIsolation, ok))
  }

  /** The trigger admits every outcome of every request whose approval it admits. Tools
      are told apart by their definitions' names, so the one that runs need not be the
      one that asked. */
  ghost predicate OutcomesAdmitted(cfg: Config)
  {
    forall asker: ToolDef, runner: ToolDef, orgId: string, args: PlainJson, now: int, decider: string, ok: bool ::
      Overseen(cfg, asker) && Overseen(cfg, runner) && asker.name == runner.name
      ==> Admits(cfg, asker, runner, orgId, args, now, decider, ok)
  }

  ghost predicate IsAsked(cfg: Config, r: Request)
  {
    exists asker: ToolDef, args: PlainJson, now: int :: Overseen(cfg, asker) && r == AskedFor(cfg, r.orgId, asker, args, now)
  }

  ghost predicate IsGranted(cfg: Config, r: Request)
  {
    exists asked: Request, decider: string ::
      IsAsked(cfg, asked) && r == ApprovedBy(asked, decider) && cfg.trigger(asked, r)
  }

  /** Pending rows are as `check` created them, usable ones were approved so. */
  ghost predicate RowOk(cfg: Config, r: Request)
  {
    (r.status == Pending ==> IsAsked(cfg, r)) && (Usable(r) ==> IsGranted(cfg, r))
  }

  ghost predicate RunsAs(cfg: Config, name: string, isolated: bool)
  {
    exists runner :: Overseen(cfg, runner) && runner.name == name && runner.requiresIsolation == isolated
  }

  /** A call's request is for its tool. */
  ghost predicate PhaseOk(cfg: Config, rs: seq<Request>, p: Phase)
  {
    match p
    case Idle => true
    case Gated(_, def, _) => def in cfg.registry.Values
    case Cleared(_, def, _, request) =>
      && def in cfg.registry.Values
      && (request.Some? ==> NeedsOversight(def) && request.value < |rs|
                            && rs[request.value].toolName == def.name && rs[request.value].status != Pending)
    case Executed(_, id, isolated, _) => id < |rs| && RunsAs(cfg, rs[id].toolName, isolated) && rs[id].status != Pending
  }

  ghost predicate GrantInv(cfg: Config, s: System)
  {
    && (forall i :: 0 <= i < |s.requests| ==> RowOk(cfg, s.requests[i]))
    && (forall c: nat :: PhaseOk(cfg, s.requests, PhaseOf(s, c)))
  }

  /** Rows keep their tool, and none becomes pending again. */
  predicate KeepsNames(rs: seq<Request>, ts: seq<Request>)
  {
    |rs| <= |ts| && forall i :: 0 <= i < |rs| ==>
      ts[i].toolName == rs[i].toolName && (ts[i].status == Pending ==> rs[i].status == Pending)
  }

  lemma PhaseStaysOk(cfg: Config, rs: seq<Request>, ts: seq<Request>, p: Phase)
    requires PhaseOk(cfg, rs, p) && KeepsNames(rs, ts)
    ensures PhaseOk(cfg, ts, p)
  {
    hide RunsAs;
  }

  /** What a transaction does to the rows: it leaves them, creates a request, approves
      one, or ends one. */
  predicate RowMoves(cfg: Config, r: Request, t: Request)
  {
    && t.toolName == r.toolName
    && (t == r || (t.status != Pending && !Usable(t)) ||
        (r.status == Pending && cfg.trigger(r, t) && t.decidedBy.Some? && t == ApprovedBy(r, t.decidedBy.value)))
  }

  lemma MovedRowIsOk(cfg: Config, r: Request, t: Request)
    requires RowOk(cfg, r) && RowMoves(cfg, r, t)
    ensures RowOk(cfg, t)
  {
    hide IsAsked;
    if t != r && Usable(t) { assert IsAsked(cfg, r); }
  }

  predicate RowsMove(cfg: Config, rs: seq<Request>, ts: seq<Request>)
  {
    |rs| <= |ts| && forall i :: 0 <= i < |rs| ==> RowMoves(cfg, rs[i], ts[i])
  }

  lemma StepMovesRows(cfg: Config, s: System, a: Action)
    requires forall c: nat :: PhaseOk(cfg, s.requests, PhaseOf(s, c))
    ensures RowsMove(cfg, s.requests, Do(cfg, s, a).requests)
  {
    hide ArgsHash, Summary, RunsAs, CanonicalText;
    if a.Record? { assert PhaseOk(cfg, s.requests, PhaseOf(s, a.c)); }
  }

  /** A new row is a request for the tool at the gate. */
  lemma NewRowIsAsked(cfg: Config, s: System, a: Action)
    requires forall c: nat :: PhaseOk(cfg, s.requests, PhaseOf(s, c))
    ensures forall i :: |s.requests| <= i < |Do(cfg, s, a).requests| ==> RowOk(cfg, Do(cfg, s, a).requests[i])
  {
    hide Summary;
    if a.Gate? && PhaseOf(s, a.c).Gated? && NeedsOversight(PhaseOf(s, a.c).def) {
      var Gated(env, def, args) := PhaseOf(s, a.c);
      assert PhaseOk(cfg, s.requests, PhaseOf(s, a.c));
      var asked := AskedFor(cfg, env.orgId, def, args, a.now);
      assert Overseen(cfg, def) && IsAsked(cfg, asked);
      forall i | |s.requests| <= i < |Do(cfg, s, a).requests|
        ensures Do(cfg, s, a).requests[i] == asked
      {
      }
    }
  }

  lemma StepMovesCall(cfg: Config, s: System, a: Action, c: nat)
    requires PhaseOk(cfg, s.requests, PhaseOf(s, c)) && KeepsNames(s.requests, Do(cfg, s, a).requests)
    ensures PhaseOk(cfg, Do(cfg, s, a).requests, PhaseOf(Do(cfg, s, a), c))
  {
    var t := Do(cfg, s, a);
    PhaseStaysOk(cfg, s.requests, t.requests, PhaseOf(s, c));
    if a.Expire? || a.DecideRequest? || c != a.c {
      hide *;
      CallStays(cfg, s, a, c);
    } else if a.RunTool? && PhaseOf(s, c).Cleared? {
      hide ArgsHash, Summary, CanonicalText;
      var p := PhaseOf(s, c);
      if p.request.Some? { assert Overseen(cfg, p.def) && RunsAs(cfg, p.def.name, p.def.requiresIsolation); }
    } else {
      hide ArgsHash, Summary, RunsAs, CanonicalText, ExpireStaleTx;
    }
  }

  lemma CallStays(cfg: Config, s: System, a: Action, c: nat)
    requires a.Expire? || a.DecideRequest? || c != a.c
    ensures PhaseOf(Do(cfg, s, a), c) == PhaseOf(s, c)
  {
    hide ArgsHash, Summary, CanonicalText, ExpireStaleTx;
  }

  lemma StepKeepsGrants(cfg: Config, s: System, a: Action)
    requires GrantInv(cfg, s)
    ensures GrantInv(cfg, Do(cfg, s, a))
  {
    hide Do, RowOk, PhaseOk, RowMoves;
    var t := Do(cfg, s, a);
    StepMovesRows(cfg, s, a);
    NewRowIsAsked(cfg, s, a);
    forall i | 0 <= i < |t.requests|
      ensures RowOk(cfg, t.requests[i])
      ensures i < |s.requests| ==>
                t.requests[i].toolName == s.requests[i].toolName && (t.requests[i].status == Pending ==> s.requests[i].status == Pending)
    {
      if i < |s.requests| {
        MovedRowIsOk(cfg, s.requests[i], t.requests[i]);
        MovedRowKeepsName(cfg, s.requests[i], t.requests[i]);
      }
    }
    forall c: nat
      ensures PhaseOk(cfg, t.requests, PhaseOf(t, c))
    {
      StepMovesCall(cfg, s, a, c);
    }
  }

  lemma MovedRowKeepsName(cfg: Config, r: Request, t: Request)
    requires RowMoves(cfg, r, t)
    ensures t.toolName == r.toolName && (t.status == Pending ==> r.status == Pending)
  {
  }
}
