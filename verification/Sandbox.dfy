/** The tool sandbox (`src/ai/tools/sandbox.ts`) together with the oversight gate:
    any number of `executeTool` calls, interleaved transaction by transaction with
    each other and with deciders and expiry.

    Schema validation, the in-memory approval store and the presence of a gate and
    of an isolation runner enter as parameters of a call. `serial` restricts the
    runs to one call at a time. */
module Sandbox {
  import opened Options
  import opened JsonText
  import opened CanonicalJson
  import opened SecurityLog
  import opened Oversight

  datatype ToolDef = ToolDef(name: string, dangerous: bool, risk: Option<RiskLevel>, requiresIsolation: bool)

  type Registry = map<string, ToolDef>

  predicate NeedsOversight(def: ToolDef)
  {
    def.risk.Some? && RequiresOversight(def.risk.value)
  }

  /** What the caller of `executeTool` supplies, as far as the gates look at it. */
  datatype Env = Env(orgId: string, approvedDangerous: bool, hasGate: bool, hasRunner: bool)

  datatype Reason =
    | NotAllowlisted
    | InvalidArguments
    | AwaitingHumanApproval
    | OversightUnavailable
    | HumanOversightRequired
    | IsolationUnavailable

  datatype Decision =
    | Denied(reason: Reason)
    | PendingApproval(why: Reason, requestId: Option<nat>)
    | Allowed(ok: bool)

  datatype HandlerResult = Resolved(ok: bool) | Threw

  /** How far a call has got. */
  datatype Phase =
    | Idle
    | Gated(env: Env, def: ToolDef, args: PlainJson)
    | Cleared(env: Env, def: ToolDef, args: PlainJson, request: Option<nat>)
    | Executed(env: Env, approval: nat, isolated: bool, ok: bool)

  /** What happened, in order. */
  datatype Event =
    | Created(id: nat, orgId: string, toolName: string, args: PlainJson)
    | Decided(id: nat, decider: string, approve: bool)
    | Ran(env: Env, def: ToolDef, args: PlainJson, request: Option<nat>, isolated: bool, resolved: bool)
    | Recorded(id: nat)
    | Returned(decision: Decision)

  datatype System = System(requests: seq<Request>, trace: seq<Event>, calls: map<nat, Phase>)

  datatype Config = Config(registry: Registry, trigger: Trigger, h: HashFunction, serial: bool)

  datatype Action =
    | Start(c: nat, env: Env, name: string, parsed: Option<PlainJson>, now: int)
    | Gate(c: nat, now: int)
    | RunTool(c: nat, result: HandlerResult)
    | Record(c: nat)
    | DecideRequest(orgId: string, id: nat, decider: string, approve: bool)
    | Expire(orgId: string, now: int)

  const Initial := System([], [], map[])

  function PhaseOf(s: System, c: nat): Phase
  {
    if c in s.calls then s.calls[c] else Idle
  }

  predicate AllIdle(s: System)
  {
    forall c :: c in s.calls ==> s.calls[c].Idle?
  }

  function ArgsHash(cfg: Config, args: PlainJson): string
  {
    cfg.h(CanonicalText(args))
  }

  function Return(s: System, c: nat, d: Decision): System
  {
    s.(trace := s.trace + [Returned(d)], calls := s.calls[c := Idle])
  }

  /** The isolation boundary comes after the oversight gate. */
  function Clear(s: System, c: nat, env: Env, def: ToolDef, args: PlainJson, request: Option<nat>): System
  {
    if def.requiresIsolation && !env.hasRunner then Return(s, c, Denied(IsolationUnavailable))
    else s.(calls := s.calls[c := Cleared(env, def, args, request)])
  }

  /** Allowlist, validation, approval store, and the first half of the gate. */
  function DoStart(cfg: Config, s: System, c: nat, env: Env, name: string, parsed: Option<PlainJson>, now: int): System
  {
    if name !in cfg.registry then Return(s, c, Denied(NotAllowlisted))
    else
      var def := cfg.registry[name];
      if parsed.None? then Return(s, c, Denied(InvalidArguments))
      else if def.dangerous && !env.approvedDangerous then Return(s, c, PendingApproval(AwaitingHumanApproval, None))
      else if !NeedsOversight(def) then Clear(s, c, env, def, parsed.value, None)
      else if !env.hasGate then Return(s, c, Denied(OversightUnavailable))
      else match ExpireStaleTx(cfg.trigger, s.requests, env.orgId, now)
           case None => s // the exception leaves executeTool
           case Some(rs) => s.(requests := rs, calls := s.calls[c := Gated(env, def, parsed.value)])
  }

  function DoGate(cfg: Config, s: System, c: nat, now: int): System
    requires PhaseOf(s, c).Gated? && NeedsOversight(PhaseOf(s, c).def)
  {
    var Gated(env, def, args) := PhaseOf(s, c);
    var r := CheckTx(s.requests, env.orgId, def.name, ArgsHash(cfg, args), def.risk.value, now);
    if r.approved then Clear(s, c, env, def, args, Some(r.requestId))
    else
      var created := if |r.requests| > |s.requests| then [Created(r.requestId, env.orgId, def.name, args)] else [];
      Return(s.(requests := r.requests, trace := s.trace + created), c,
             PendingApproval(HumanOversightRequired, Some(r.requestId)))
  }

  function DoRunTool(s: System, c: nat, result: HandlerResult): System
    requires PhaseOf(s, c).Cleared?
  {
    var Cleared(env, def, args, request) := PhaseOf(s, c);
    var ran := Ran(env, def, args, request, def.requiresIsolation, result.Resolved?);
    var t := s.(trace := s.trace + [ran]);
    match result
    case Threw => Return(t, c, Allowed(false))
    case Resolved(ok) =>
      if request.None? then Return(t, c, Allowed(ok))
      else t.(calls := t.calls[c := Executed(env, request.value, def.requiresIsolation, ok)])
  }

  function Summary(isolated: bool, ok: bool): string
  {
    (if isolated then "executed (isolated): ok=" else "executed: ok=") + if ok then "true" else "false"
  }

  /** A refused update is an exception, which the sandbox reports as a failed run. */
  function DoRecord(cfg: Config, s: System, c: nat): System
    requires PhaseOf(s, c).Executed?
  {
    var Executed(env, id, isolated, ok) := PhaseOf(s, c);
    match RecordOutcomeTx(cfg.trigger, s.requests, env.orgId, id, Summary(isolated, ok))
    case None => Return(s, c, Allowed(false))
    case Some(rs) => Return(s.(requests := rs, trace := s.trace + [Recorded(id)]), c, Allowed(ok))
  }

  function DoDecide(cfg: Config, s: System, orgId: string, id: nat, decider: string, approve: bool): System
  {
    match DecideTx(cfg.trigger, s.requests, orgId, id, decider, approve)
    case None => s
    case Some(rs) =>
      if Decidable(s.requests, orgId, id)
      then s.(requests := rs, trace := s.trace + [Decided(id, decider, approve)]) else s
  }

  function DoExpire(cfg: Config, s: System, orgId: string, now: int): System
  {
    s.(requests := ExpireStaleTx(cfg.trigger, s.requests, orgId, now).GetOr(s.requests))
  }

  function Do(cfg: Config, s: System, a: Action): System
  {
    match a
    case Start(c, env, name, parsed, now) =>
      if PhaseOf(s, c).Idle? && (cfg.serial ==> AllIdle(s)) then DoStart(cfg, s, c, env, name, parsed, now) else s
    case Gate(c, now) =>
      if PhaseOf(s, c).Gated? && NeedsOversight(PhaseOf(s, c).def) then DoGate(cfg, s, c, now) else s
    case RunTool(c, result) => if PhaseOf(s, c).Cleared? then DoRunTool(s, c, result) else s
    case Record(c) => if PhaseOf(s, c).Executed? then DoRecord(cfg, s, c) else s
    case DecideRequest(orgId, id, decider, approve) => DoDecide(cfg, s, orgId, id, decider, approve)
    case Expire(orgId, now) => DoExpire(cfg, s, orgId, now)
  }

  function Run(cfg: Config, s: System, actions: seq<Action>): System
    decreases |actions|
  {
    if actions == [] then s
    else
      var n := |actions| - 1;
      Do(cfg, Run(cfg, s, actions[..n]), actions[n])
  }

  // ----- every run of a high-risk tool was approved

  predicate CreatedFor(cfg: Config, e: Event, id: nat, orgId: string, toolName: string, argsHash: string)
  {
    e.Created? && e.id == id && e.orgId == orgId && e.toolName == toolName && ArgsHash(cfg, e.args) == argsHash
  }

  predicate ApprovalOf(e: Event, id: nat)
  {
    e.Decided? && e.id == id && e.approve
  }

  /** The request was created for this organisation, tool and argument hash. */
  predicate Requested(cfg: Config, trace: seq<Event>, id: nat, orgId: string, toolName: string, argsHash: string)
  {
    exists k :: 0 <= k < |trace| && CreatedFor(cfg, trace[k], id, orgId, toolName, argsHash)
  }

  /** ... and approved after that. */
  predicate Authorised(cfg: Config, trace: seq<Event>, id: nat, orgId: string, toolName: string, argsHash: string)
  {
    exists j :: 0 <= j < |trace| && ApprovalOf(trace[j], id) &&
                Requested(cfg, trace[..j], id, orgId, toolName, argsHash)
  }

  ghost predicate Traced(cfg: Config, trace: seq<Event>, id: nat, r: Request)
  {
    && Requested(cfg, trace, id, r.orgId, r.toolName, r.argsHash)
    && (r.status == Approved ==> Authorised(cfg, trace, id, r.orgId, r.toolName, r.argsHash))
  }

  /** Allowlisted, and approved by the in-memory store if dangerous. */
  predicate PassedFirstGates(cfg: Config, env: Env, def: ToolDef)
  {
    && def in cfg.registry.Values
    && (def.dangerous ==> env.approvedDangerous)
    && (NeedsOversight(def) ==> env.hasGate)
  }

  /** What lets a call that has passed the gate go on. */
  ghost predicate CallAuthorised(cfg: Config, trace: seq<Event>, p: Phase)
  {
    && (p.Gated? || p.Cleared? ==> PassedFirstGates(cfg, p.env, p.def))
    && (p.Cleared? && p.def.requiresIsolation ==> p.env.hasRunner)
    && (p.Cleared? && NeedsOversight(p.def) ==>
          && p.request.Some?
          && Authorised(cfg, trace, p.request.value, p.env.orgId, p.def.name, ArgsHash(cfg, p.args)))
  }

  predicate GatesHeld(cfg: Config, e: Event)
    requires e.Ran?
  {
    && PassedFirstGates(cfg, e.env, e.def)
    && (e.def.requiresIsolation ==> e.env.hasRunner)
    && e.isolated == e.def.requiresIsolation
  }

  ghost predicate RunAuthorised(cfg: Config, before: seq<Event>, e: Event)
  {
    && (e.Ran? ==> GatesHeld(cfg, e))
    && (e.Ran? && NeedsOversight(e.def) ==>
      && e.request.Some?
      && Authorised(cfg, before, e.request.value, e.env.orgId, e.def.name, ArgsHash(cfg, e.args)))
  }

  ghost predicate TracedInv(cfg: Config, s: System)
  {
    && (forall id :: 0 <= id < |s.requests| ==> Traced(cfg, s.trace, id, s.requests[id]))
    && (forall c: nat :: CallAuthorised(cfg, s.trace, PhaseOf(s, c)))
    && (forall m :: 0 <= m < |s.trace| ==> RunAuthorised(cfg, s.trace[..m], s.trace[m]))
  }

  lemma RequestedGrows(cfg: Config, trace: seq<Event>, e: Event, id: nat, orgId: string, toolName: string, argsHash: string)
    requires Requested(cfg, trace, id, orgId, toolName, argsHash)
    ensures Requested(cfg, trace + [e], id, orgId, toolName, argsHash)
  {
    var k :| 0 <= k < |trace| && CreatedFor(cfg, trace[k], id, orgId, toolName, argsHash);
    assert (trace + [e])[k] == trace[k];
  }

  lemma AuthorisedGrows(cfg: Config, trace: seq<Event>, e: Event, id: nat, orgId: string, toolName: string, argsHash: string)
    requires Authorised(cfg, trace, id, orgId, toolName, argsHash)
    ensures Authorised(cfg, trace + [e], id, orgId, toolName, argsHash)
  {
    var j :| 0 <= j < |trace| && ApprovalOf(trace[j], id) && Requested(cfg, trace[..j], id, orgId, toolName, argsHash);
    assert (trace + [e])[j] == trace[j] && (trace + [e])[..j] == trace[..j];
  }

  /** One more event, which if it is a run is an authorised one. */
  lemma TraceGrows(cfg: Config, s: System, e: Event)
    requires TracedInv(cfg, s) && RunAuthorised(cfg, s.trace, e)
    ensures TracedInv(cfg, s.(trace := s.trace + [e]))
  {
    var t := s.(trace := s.trace + [e]);
    forall id | 0 <= id < |t.requests|
      ensures Traced(cfg, t.trace, id, t.requests[id])
    {
      var r := s.requests[id];
      assert Traced(cfg, s.trace, id, r);
      RequestedGrows(cfg, s.trace, e, id, r.orgId, r.toolName, r.argsHash);
      if r.status == Approved { AuthorisedGrows(cfg, s.trace, e, id, r.orgId, r.toolName, r.argsHash); }
    }
    forall c: nat
      ensures CallAuthorised(cfg, t.trace, PhaseOf(t, c))
    {
      var p := PhaseOf(s, c);
      assert CallAuthorised(cfg, s.trace, p);
      if p.Cleared? && NeedsOversight(p.def) {
        AuthorisedGrows(cfg, s.trace, e, p.request.value, p.env.orgId, p.def.name, ArgsHash(cfg, p.args));
      }
    }
    forall m | 0 <= m < |t.trace|
      ensures RunAuthorised(cfg, t.trace[..m], t.trace[m])
    {
      assert t.trace[..m] == s.trace[..m];
      if m < |s.trace| { assert RunAuthorised(cfg, s.trace[..m], s.trace[m]); }
      else { assert s.trace[..m] == s.trace; }
    }
  }

  lemma CallMoves(cfg: Config, s: System, c: nat, p: Phase)
    requires TracedInv(cfg, s) && CallAuthorised(cfg, s.trace, p)
    ensures TracedInv(cfg, s.(calls := s.calls[c := p]))
  {
    var t := s.(calls := s.calls[c := p]);
    forall d: nat
      ensures CallAuthorised(cfg, t.trace, PhaseOf(t, d))
    {
      assert PhaseOf(t, d) == if d == c then p else PhaseOf(s, d);
    }
  }

  lemma RequestsChange(cfg: Config, s: System, rs: seq<Request>)
    requires TracedInv(cfg, s)
    requires forall id :: 0 <= id < |rs| ==> Traced(cfg, s.trace, id, rs[id])
    ensures TracedInv(cfg, s.(requests := rs))
  {
    var t := s.(requests := rs);
    forall c: nat
      ensures CallAuthorised(cfg, t.trace, PhaseOf(t, c))
    {
      assert PhaseOf(t, c) == PhaseOf(s, c);
    }
  }

  lemma ReturnKeepsTraced(cfg: Config, s: System, c: nat, d: Decision)
    requires TracedInv(cfg, s)
    ensures TracedInv(cfg, Return(s, c, d))
  {
    TraceGrows(cfg, s, Returned(d));
    CallMoves(cfg, s.(trace := s.trace + [Returned(d)]), c, Idle);
  }

  lemma ClearKeepsTraced(cfg: Config, s: System, c: nat, env: Env, def: ToolDef, args: PlainJson, request: Option<nat>)
    requires TracedInv(cfg, s) && PassedFirstGates(cfg, env, def)
    requires NeedsOversight(def) ==>
               request.Some? && Authorised(cfg, s.trace, request.value, env.orgId, def.name, ArgsHash(cfg, args))
    ensures TracedInv(cfg, Clear(s, c, env, def, args, request))
  {
    if def.requiresIsolation && !env.hasRunner {
      ReturnKeepsTraced(cfg, s, c, Denied(IsolationUnavailable));
    } else {
      CallMoves(cfg, s, c, Cleared(env, def, args, request));
    }
  }

  lemma ExpireKeepsTraced(cfg: Config, s: System, orgId: string, now: int)
    requires TracedInv(cfg, s)
    ensures TracedInv(cfg, DoExpire(cfg, s, orgId, now))
  {
    var rs := ExpireStaleTx(cfg.trigger, s.requests, orgId, now).GetOr(s.requests);
    forall id | 0 <= id < |rs|
      ensures Traced(cfg, s.trace, id, rs[id])
    {
      assert Traced(cfg, s.trace, id, s.requests[id]);
    }
    RequestsChange(cfg, s, rs);
  }

  lemma StartKeepsTraced(cfg: Config, s: System, c: nat, env: Env, name: string, parsed: Option<PlainJson>, now: int)
    requires TracedInv(cfg, s)
    ensures TracedInv(cfg, DoStart(cfg, s, c, env, name, parsed, now))
  {
    if name !in cfg.registry {
      ReturnKeepsTraced(cfg, s, c, Denied(NotAllowlisted));
    } else {
      var def := cfg.registry[name];
      if parsed.None? {
        ReturnKeepsTraced(cfg, s, c, Denied(InvalidArguments));
      } else if def.dangerous && !env.approvedDangerous {
        ReturnKeepsTraced(cfg, s, c, PendingApproval(AwaitingHumanApproval, None));
      } else if !NeedsOversight(def) {
        ClearKeepsTraced(cfg, s, c, env, def, parsed.value, None);
      } else if !env.hasGate {
        ReturnKeepsTraced(cfg, s, c, Denied(OversightUnavailable));
      } else {
        ExpireKeepsTraced(cfg, s, env.orgId, now);
        var rs := ExpireStaleTx(cfg.trigger, s.requests, env.orgId, now);
        if rs.Some? { CallMoves(cfg, s.(requests := rs.value), c, Gated(env, def, parsed.value)); }
      }
    }
  }

  lemma GateKeepsTraced(cfg: Config, s: System, c: nat, now: int)
    requires TracedInv(cfg, s) && PhaseOf(s, c).Gated? && NeedsOversight(PhaseOf(s, c).def)
    ensures TracedInv(cfg, DoGate(cfg, s, c, now))
  {
    var Gated(env, def, args) := PhaseOf(s, c);
    var r := CheckTx(s.requests, env.orgId, def.name, ArgsHash(cfg, args), def.risk.value, now);
    var d := PendingApproval(HumanOversightRequired, Some(r.requestId));
    if r.approved {
      assert Traced(cfg, s.trace, r.requestId, s.requests[r.requestId]);
      ClearKeepsTraced(cfg, s, c, env, def, args, Some(r.requestId));
    } else if r.requests == s.requests {
      assert s.(requests := r.requests, trace := s.trace + []) == s;
      ReturnKeepsTraced(cfg, s, c, d);
    } else {
      var e := Created(r.requestId, env.orgId, def.name, args);
      var t := s.(trace := s.trace + [e]);
      TraceGrows(cfg, s, e);
      assert CreatedFor(cfg, t.trace[|s.trace|], |s.requests|, env.orgId, def.name, ArgsHash(cfg, args));
      forall id | 0 <= id < |r.requests|
        ensures Traced(cfg, t.trace, id, r.requests[id])
      {
        if id < |s.requests| { assert Traced(cfg, t.trace, id, t.requests[id]); }
      }
      RequestsChange(cfg, t, r.requests);
      ReturnKeepsTraced(cfg, t.(requests := r.requests), c, d);
    }
  }

  lemma RunToolKeepsTraced(cfg: Config, s: System, c: nat, result: HandlerResult)
    requires TracedInv(cfg, s) && PhaseOf(s, c).Cleared?
    ensures TracedInv(cfg, DoRunTool(s, c, result))
  {
    var p := PhaseOf(s, c);
    assert CallAuthorised(cfg, s.trace, p);
    var ran := Ran(p.env, p.def, p.args, p.request, p.def.requiresIsolation, result.Resolved?);
    TraceGrows(cfg, s, ran);
    var t := s.(trace := s.trace + [ran]);
    match result
    case Threw => ReturnKeepsTraced(cfg, t, c, Allowed(false));
    case Resolved(ok) =>
      if p.request.None? { ReturnKeepsTraced(cfg, t, c, Allowed(ok)); }
      else { CallMoves(cfg, t, c, Executed(p.env, p.request.value, p.def.requiresIsolation, ok)); }
  }

  lemma RecordKeepsTraced(cfg: Config, s: System, c: nat)
    requires TracedInv(cfg, s) && PhaseOf(s, c).Executed?
    ensures TracedInv(cfg, DoRecord(cfg, s, c))
  {
    var Executed(env, id, isolated, ok) := PhaseOf(s, c);
    var summary := Summary(isolated, ok);
    match RecordOutcomeTx(cfg.trigger, s.requests, env.orgId, id, summary)
    case None => ReturnKeepsTraced(cfg, s, c, Allowed(false));
    case Some(rs) =>
      forall k | 0 <= k < |rs|
        ensures Traced(cfg, s.trace, k, rs[k])
      {
        assert Traced(cfg, s.trace, k, s.requests[k]);
      }
      RequestsChange(cfg, s, rs);
      TraceGrows(cfg, s.(requests := rs), Recorded(id));
      ReturnKeepsTraced(cfg, s.(requests := rs, trace := s.trace + [Recorded(id)]), c, Allowed(ok));
  }

  lemma DecideKeepsTraced(cfg: Config, s: System, orgId: string, id: nat, decider: string, approve: bool)
    requires TracedInv(cfg, s) && Decidable(s.requests, orgId, id)
    requires DecideTx(cfg.trigger, s.requests, orgId, id, decider, approve).Some?
    ensures TracedInv(cfg, DoDecide(cfg, s, orgId, id, decider, approve))
  {
    var rs := DecideTx(cfg.trigger, s.requests, orgId, id, decider, approve).value;
    var e := Decided(id, decider, approve);
    assert Traced(cfg, s.trace, id, s.requests[id]);
    TraceGrows(cfg, s, e);
    var t := s.(trace := s.trace + [e]);
    forall k | 0 <= k < |rs|
      ensures Traced(cfg, t.trace, k, rs[k])
    {
      assert Traced(cfg, t.trace, k, t.requests[k]);
      if k == id && approve {
        assert t.trace[..|s.trace|] == s.trace && ApprovalOf(t.trace[|s.trace|], id);
      }
    }
    RequestsChange(cfg, t, rs);
  }

  lemma StepKeepsTraced(cfg: Config, s: System, a: Action)
    requires TracedInv(cfg, s)
    ensures TracedInv(cfg, Do(cfg, s, a))
  {
    match a
    case Start(c, env, name, parsed, now) => StartKeepsTraced(cfg, s, c, env, name, parsed, now);
    case Gate(c, now) =>
      if PhaseOf(s, c).Gated? && NeedsOversight(PhaseOf(s, c).def) { GateKeepsTraced(cfg, s, c, now); }
    case RunTool(c, result) => if PhaseOf(s, c).Cleared? { RunToolKeepsTraced(cfg, s, c, result); }
    case Record(c) => if PhaseOf(s, c).Executed? { RecordKeepsTraced(cfg, s, c); }
    case DecideRequest(orgId, id, decider, approve) =>
      if Decidable(s.requests, orgId, id) && DecideTx(cfg.trigger, s.requests, orgId, id, decider, approve).Some? {
        DecideKeepsTraced(cfg, s, orgId, id, decider, approve);
      }
    case Expire(orgId, now) => ExpireKeepsTraced(cfg, s, orgId, now);
  }

  lemma {:induction false} RunKeepsTraced(cfg: Config, actions: seq<Action>)
    ensures TracedInv(cfg, Run(cfg, Initial, actions))
    decreases |actions|
  {
    if actions != [] {
      var n := |actions| - 1;
      RunKeepsTraced(cfg, actions[..n]);
      StepKeepsTraced(cfg, Run(cfg, Initial, actions[..n]), actions[n]);
    }
  }

  /** The argument texts hashed in a run. */
  function ArgTexts(trace: seq<Event>): set<string>
  {
    set k | 0 <= k < |trace| && (trace[k].Created? || trace[k].Ran?) :: CanonicalText(trace[k].args)
  }

  ghost predicate CollisionFree(h: HashFunction, texts: set<string>)
  {
    forall x, y :: x in texts && y in texts && h(x) == h(y) ==> x == y
  }

  /** Human oversight holds under every interleaving and whatever the trigger
      allows: each run of a HIGH or CRITICAL tool, in process or isolated, comes
      after the approval of a request that the gate had created for the same
      organisation, the same tool and the same arguments up to key order. */
  lemma HighRiskRunsAreApproved(cfg: Config, actions: seq<Action>, m: nat)
    requires var trace := Run(cfg, Initial, actions).trace;
             && m < |trace| && trace[m].Ran? && CollisionFree(cfg.h, ArgTexts(trace))
             && (trace[m].def.risk == Some(High) || trace[m].def.risk == Some(Critical))
    ensures var trace := Run(cfg, Initial, actions).trace;
            var ran := trace[m];
            exists k: nat, j: nat :: k < j < m && trace[k].Created? && ApprovalOf(trace[j], trace[k].id)
              && trace[k].orgId == ran.env.orgId && trace[k].toolName == ran.def.name
              && Meaning(trace[k].args) == Meaning(ran.args)
  {
    RunKeepsTraced(cfg, actions);
    var trace := Run(cfg, Initial, actions).trace;
    var ran := trace[m];
    assert RunAuthorised(cfg, trace[..m], ran);
    var id, hash := ran.request.value, ArgsHash(cfg, ran.args);
    var j :| 0 <= j < m && ApprovalOf(trace[..m][j], id) &&
          Requested(cfg, trace[..m][..j], id, ran.env.orgId, ran.def.name, hash);
    var k :| 0 <= k < j && CreatedFor(cfg, trace[..m][..j][k], id, ran.env.orgId, ran.def.name, hash);
    assert trace[..m][..j][k] == trace[k] && trace[..m][j] == trace[j];
    assert CanonicalText(trace[k].args) in ArgTexts(trace) && CanonicalText(ran.args) in ArgTexts(trace);
    CanonicalTextIffSameMeaning(trace[k].args, ran.args);
  }

  /** Nothing runs past a closed gate: every run is of an allowlisted tool, with
      the approval store's consent if it is dangerous, under an oversight gate if
      its risk is high, and out of process exactly if it demands isolation. */
  lemma EveryRunPassedTheGates(cfg: Config, actions: seq<Action>, m: nat)
    requires m < |Run(cfg, Initial, actions).trace| && Run(cfg, Initial, actions).trace[m].Ran?
    ensures var e := Run(cfg, Initial, actions).trace[m];
            && e.def in cfg.registry.Values
            && (e.def.dangerous ==> e.env.approvedDangerous)
            && (e.def.risk == Some(High) || e.def.risk == Some(Critical) ==> e.env.hasGate && e.request.Some?)
            && (e.def.requiresIsolation ==> e.env.hasRunner)
            && e.isolated == e.def.requiresIsolation
  {
    RunKeepsTraced(cfg, actions);
    var trace := Run(cfg, Initial, actions).trace;
    assert RunAuthorised(cfg, trace[..m], trace[m]);
  }

  // ----- one call from beginning to end

  /** A whole call of `executeTool`, nobody else acting meanwhile. */
  function OneCall(
      cfg: Config, s: System, env: Env, name: string, parsed: Option<PlainJson>, result: HandlerResult, now: int): System
  {
    var started := Do(cfg, s, Start(0, env, name, parsed, now));
    var checked := Do(cfg, started, Gate(0, now));
    Do(cfg, Do(cfg, checked, RunTool(0, result)), Record(0))
  }

  datatype Outcome = Outcome(requests: seq<Request>, trace: seq<Event>)

  /** A call that has passed the oversight gate. */
  function AfterGate(
      cfg: Config, rs: seq<Request>, env: Env, def: ToolDef, args: PlainJson, request: Option<nat>,
      result: HandlerResult): Outcome
  {
    if def.requiresIsolation && !env.hasRunner then Outcome(rs, [Returned(Denied(IsolationUnavailable))])
    else
      var ran := Ran(env, def, args, request, def.requiresIsolation, result.Resolved?);
      if result.Threw? then Outcome(rs, [ran, Returned(Allowed(false))])
      else if request.None? then Outcome(rs, [ran, Returned(Allowed(result.ok))])
      else match RecordOutcomeTx(cfg.trigger, rs, env.orgId, request.value, Summary(def.requiresIsolation, result.ok))
           case None => Outcome(rs, [ran, Returned(Allowed(false))])
           case Some(rs') => Outcome(rs', [ran, Recorded(request.value), Returned(Allowed(result.ok))])
  }

  /** A call at the oversight gate. */
  function AtGate(
      cfg: Config, rs: seq<Request>, env: Env, def: ToolDef, args: PlainJson, result: HandlerResult, now: int): Outcome
    requires NeedsOversight(def)
  {
    var r := CheckTx(rs, env.orgId, def.name, ArgsHash(cfg, args), def.risk.value, now);
    if r.approved then AfterGate(cfg, rs, env, def, args, Some(r.requestId), result)
    else
      var created := if |r.requests| > |rs| then [Created(r.requestId, env.orgId, def.name, args)] else [];
      Outcome(r.requests, created + [Returned(PendingApproval(HumanOversightRequired, Some(r.requestId)))])
  }

  /** The steps of an undisturbed call, put together. */
  function Execute(
      cfg: Config, rs: seq<Request>, env: Env, name: string, parsed: Option<PlainJson>, result: HandlerResult, now: int): Outcome
  {
    if name !in cfg.registry then Outcome(rs, [Returned(Denied(NotAllowlisted))])
    else
      var def := cfg.registry[name];
      if parsed.None? then Outcome(rs, [Returned(Denied(InvalidArguments))])
      else if def.dangerous && !env.approvedDangerous
      then Outcome(rs, [Returned(PendingApproval(AwaitingHumanApproval, None))])
      else if !NeedsOversight(def) then AfterGate(cfg, rs, env, def, parsed.value, None, result)
      else if !env.hasGate then Outcome(rs, [Returned(Denied(OversightUnavailable))])
      else match ExpireStaleTx(cfg.trigger, rs, env.orgId, now)
           case None => Outcome(rs, [])
           case Some(rs') => AtGate(cfg, rs', env, def, parsed.value, result, now)
  }

  lemma AfterGateIsSteps(cfg: Config, s: System, env: Env, def: ToolDef, args: PlainJson, request: Option<nat>, result: HandlerResult)
    requires s.trace == []
    ensures var cleared := Clear(s, 0, env, def, args, request);
            var t := Do(cfg, Do(cfg, cleared, RunTool(0, result)), Record(0));
            Outcome(t.requests, t.trace) == AfterGate(cfg, s.requests, env, def, args, request, result)
  {
    hide RecordOutcomeTx, Summary;
  }

  lemma AtGateIsSteps(cfg: Config, s: System, env: Env, def: ToolDef, args: PlainJson, result: HandlerResult, now: int)
    requires s.trace == [] && NeedsOversight(def) && PhaseOf(s, 0) == Gated(env, def, args)
    ensures var t := Do(cfg, Do(cfg, Do(cfg, s, Gate(0, now)), RunTool(0, result)), Record(0));
            Outcome(t.requests, t.trace) == AtGate(cfg, s.requests, env, def, args, result, now)
  {
    var r := CheckTx(s.requests, env.orgId, def.name, ArgsHash(cfg, args), def.risk.value, now);
    if r.approved {
      AfterGateIsSteps(cfg, s, env, def, args, Some(r.requestId), result);
    }
  }

  lemma IdleCallStays(cfg: Config, s: System, result: HandlerResult, now: int)
    requires PhaseOf(s, 0).Idle?
    ensures Do(cfg, Do(cfg, Do(cfg, s, Gate(0, now)), RunTool(0, result)), Record(0)) == s
  {
  }

  /** The procedure is one run of the machine: start, gate, run, record. */
  lemma ExecuteIsOneCall(
      cfg: Config, s: System, env: Env, name: string, parsed: Option<PlainJson>, result: HandlerResult, now: int)
    requires s.trace == [] && s.calls == map[]
    ensures var t := OneCall(cfg, s, env, name, parsed, result, now);
            Outcome(t.requests, t.trace) == Execute(cfg, s.requests, env, name, parsed, result, now)
  {
    var started := DoStart(cfg, s, 0, env, name, parsed, now);
    assert Do(cfg, s, Start(0, env, name, parsed, now)) == started;
    if PhaseOf(started, 0).Idle? {
      IdleCallStays(cfg, started, result, now);
    } else if PhaseOf(started, 0).Gated? {
      AtGateIsSteps(cfg, started, env, cfg.registry[name], parsed.value, result, now);
    } else {
      assert Do(cfg, started, Gate(0, now)) == started;
      AfterGateIsSteps(cfg, s, env, cfg.registry[name], parsed.value, None, result);
    }
  }

  /** What lets a call of a HIGH or CRITICAL tool go on: a gate, stale requests that can
      be expired, and an approved request for the same organisation, tool and arguments
      whose outcome is not yet recorded. */
  ghost predicate GateLetsPass(cfg: Config, rs: seq<Request>, env: Env, def: ToolDef, args: PlainJson, now: int)
  {
    && env.hasGate
    && (forall i :: 0 <= i < |rs| && rs[i].orgId == env.orgId && rs[i].status == Pending && rs[i].expiresAt < now
                    ==> cfg.trigger(rs[i], rs[i].(status := Expired)))
    && (exists i :: 0 <= i < |rs| && IsApprovalFor(rs[i], env.orgId, def.name, cfg.h(CanonicalText(args))))
  }

  predicate IsApprovalFor(r: Request, orgId: string, toolName: string, argsHash: string)
  {
    r.orgId == orgId && r.toolName == toolName && r.argsHash == argsHash && r.status == Approved && r.outcome.None?
  }

  /** When an undisturbed call runs its tool: exactly if the tool is allowlisted, the
      arguments are valid, a dangerous tool has the approval store's consent, one that
      needs isolation a runner, and one of HIGH or CRITICAL risk what the gate asks for.
      A LOW, MEDIUM or unrated tool runs without any request. */
  lemma CallRunsIff(
      cfg: Config, rs: seq<Request>, env: Env, name: string, parsed: Option<PlainJson>, result: HandlerResult, now: int)
    ensures var o := Execute(cfg, rs, env, name, parsed, result, now);
            (o.trace != [] && o.trace[0].Ran?) <==>
              && name in cfg.registry && parsed.Some?
              && var def := cfg.registry[name];
                 && (def.dangerous ==> env.approvedDangerous)
                 && (def.requiresIsolation ==> env.hasRunner)
                 && (def.risk == Some(High) || def.risk == Some(Critical) ==> GateLetsPass(cfg, rs, env, def, parsed.value, now))
    ensures var o := Execute(cfg, rs, env, name, parsed, result, now);
            o.trace != [] && o.trace[0].Ran? ==>
              && o.trace[0].def == cfg.registry[name] && o.trace[0].args == parsed.value && o.trace[0].env == env
              && (o.trace[0].def.risk != Some(High) && o.trace[0].def.risk != Some(Critical) ==>
                    o.trace[0].request.None? && o.requests == rs)
  {
    hide CanonicalText, Summary, ExpireStaleTx, CheckTx, RecordOutcomeTx;
    if name in cfg.registry && parsed.Some? {
      var def, args := cfg.registry[name], parsed.value;
      if def.risk == Some(High) || def.risk == Some(Critical) {
        if env.hasGate { GatePasses(cfg, rs, env, def, args, now); }
      }
    }
  }

  function OutcomeText(isolated: bool, ok: bool): string
  {
    match (isolated, ok)
    case (true, true) => "executed (isolated): ok=true"
    case (true, false) => "executed (isolated): ok=false"
    case (false, true) => "executed: ok=true"
    case (false, false) => "executed: ok=false"
  }

  /** What an undisturbed run on an approval leaves: if the trigger lets it, the outcome
      in that request, saying how and how well the tool ran, and the handler's result;
      else the requests as they were and a failed run. */
  lemma OutcomeIsRecorded(
      cfg: Config, rs: seq<Request>, env: Env, def: ToolDef, args: PlainJson, id: nat, result: HandlerResult)
    requires id < |rs| && rs[id].orgId == env.orgId && result.Resolved? && (def.requiresIsolation ==> env.hasRunner)
    ensures var o := AfterGate(cfg, rs, env, def, args, Some(id), result);
            var row := rs[id].(outcome := Some(OutcomeText(def.requiresIsolation, result.ok)));
            && o.trace != [] && o.trace[0] == Ran(env, def, args, Some(id), def.requiresIsolation, true)
            && if cfg.trigger(rs[id], row)
               then o.requests == rs[id := row] && o.trace[|o.trace| - 1] == Returned(Allowed(result.ok))
               else o.requests == rs && o.trace[|o.trace| - 1] == Returned(Allowed(false))
  {
    assert Summary(def.requiresIsolation, result.ok) == OutcomeText(def.requiresIsolation, result.ok);
  }

  lemma GatePasses(cfg: Config, rs: seq<Request>, env: Env, def: ToolDef, args: PlainJson, now: int)
    requires env.hasGate && def.risk.Some?
    ensures var after := ExpireStaleTx(cfg.trigger, rs, env.orgId, now);
            GateLetsPass(cfg, rs, env, def, args, now) <==>
              after.Some? && CheckTx(after.value, env.orgId, def.name, ArgsHash(cfg, args), def.risk.value, now).approved
  {
    hide CanonicalText;
    var hash := ArgsHash(cfg, args);
    ExpirySucceedsIff(cfg.trigger, rs, env.orgId, now);
    var after := ExpireStaleTx(cfg.trigger, rs, env.orgId, now);
    if after.Some? {
      forall i | 0 <= i < |rs|
        ensures IsApprovalFor(rs[i], env.orgId, def.name, hash) <==> IsApprovalFor(after.value[i], env.orgId, def.name, hash)
      {
      }
      ApprovedIff(after.value, env.orgId, def.name, hash, def.risk.value, now);
    }
  }

  lemma ExpirySucceedsIff(trigger: Trigger, rs: seq<Request>, orgId: string, now: int)
    ensures ExpireStaleTx(trigger, rs, orgId, now).Some? <==>
            forall i :: 0 <= i < |rs| && rs[i].orgId == orgId && rs[i].status == Pending && rs[i].expiresAt < now
                        ==> trigger(rs[i], rs[i].(status := Expired))
  {
  }

  lemma ApprovedIff(rs: seq<Request>, orgId: string, toolName: string, argsHash: string, risk: RiskLevel, now: int)
    ensures CheckTx(rs, orgId, toolName, argsHash, risk, now).approved <==>
            exists i :: 0 <= i < |rs| && IsApprovalFor(rs[i], orgId, toolName, argsHash)
  {
    var found := FindUsable(rs, orgId, toolName, argsHash);
    if found.Some? { assert IsApprovalFor(rs[found.value], orgId, toolName, argsHash); }
  }

  /** What the caller of `executeTool` learns: the decision, or an exception. */
  ghost predicate Told(o: Outcome, decision: Option<Decision>, ran: bool)
  {
    && (match decision
        case None => o.trace == []
        case Some(d) => o.trace != [] && o.trace[|o.trace| - 1] == Returned(d))
    && (ran <==> o.trace != [] && o.trace[0].Ran?)
  }

  /** The table behind a gate, if there is one. */
  ghost function RowsOf(gate: DbOversightGate?): seq<Request>
    reads gate
  {
    if gate == null then [] else gate.requests
  }

  /** The call's surroundings as the machine describes them; without a gate they may
      name any trigger, hash and organisation. */
  ghost predicate Describes(cfg: Config, env: Env, gate: DbOversightGate?, hasRunner: bool)
  {
    && env.hasGate == (gate != null) && env.hasRunner == hasRunner
    && (gate != null ==> cfg.trigger == gate.trigger && cfg.h == gate.h && env.orgId == gate.orgId)
  }

  /** `executeTool`; `None` means an exception left it. `ran` says whether the
      handler or the isolation runner was invoked. */
  method ExecuteTool(
      registry: Registry, gate: DbOversightGate?, approvedDangerous: bool, hasRunner: bool,
      name: string, parsed: Option<PlainJson>, result: HandlerResult, now: int, ghost cfg: Config, ghost env: Env)
    returns (decision: Option<Decision>, ran: bool)
    requires Describes(cfg, env, gate, hasRunner)
    requires cfg.registry == registry && env.approvedDangerous == approvedDangerous
    modifies if gate == null then {} else {gate}
    ensures var o := Execute(cfg, old(RowsOf(gate)), env, name, parsed, result, now);
            RowsOf(gate) == o.requests && Told(o, decision, ran)
  {
    hide AfterGate, ExpireStaleTx;
    if name !in registry { return Some(Denied(NotAllowlisted)), false; }
    var def := registry[name];
    if parsed.None? { return Some(Denied(InvalidArguments)), false; }
    if def.dangerous && !approvedDangerous { return Some(PendingApproval(AwaitingHumanApproval, None)), false; }
    var oversightRequestId: Option<nat> := None;
    if NeedsOversight(def) {
      if gate == null { return Some(Denied(OversightUnavailable)), false; }
      var check := gate.Check(def.name, parsed.value, def.risk.value, now);
      if check.None? { return None, false; }
      if !check.value.0 { return Some(PendingApproval(HumanOversightRequired, Some(check.value.1))), false; }
      oversightRequestId := Some(check.value.1);
    }
    decision, ran := RunCleared(gate, hasRunner, def, oversightRequestId, result, cfg, env, parsed.value);
  }

  /** Isolation boundary, handler, outcome. There is a request only if there is a gate. */
  method RunCleared(
      gate: DbOversightGate?, hasRunner: bool, def: ToolDef, request: Option<nat>, result: HandlerResult,
      ghost cfg: Config, ghost env: Env, ghost args: PlainJson)
    returns (decision: Option<Decision>, ran: bool)
    requires Describes(cfg, env, gate, hasRunner) && (request.Some? ==> gate != null)
    modifies if gate == null then {} else {gate}
    ensures var o := AfterGate(cfg, old(RowsOf(gate)), env, def, args, request, result);
            RowsOf(gate) == o.requests && Told(o, decision, ran)
  {
    hide RecordOutcomeTx;
    if def.requiresIsolation && !hasRunner { return Some(Denied(IsolationUnavailable)), false; }
    if result.Threw? { return Some(Allowed(false)), true; }
    if request.Some? {
      var recorded := gate.RecordOutcome(request.value, Summary(def.requiresIsolation, result.ok));
      if !recorded { return Some(Allowed(false)), true; }
    }
    return Some(Allowed(result.ok)), true;
  }
}
