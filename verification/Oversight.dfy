/** The human-oversight gate (`src/compliance/oversight.ts`) and the trigger that
    guards every update of its table (`src/db/sql/0005_compliance.sql`).

    Rows are never deleted, so a request's position in the table serves as its
    id. Row security limits every statement to the caller's organisation. */
module Oversight {
  import opened Options
  import opened JsonText
  import opened CanonicalJson
  import opened SecurityLog

  datatype RiskLevel = Low | Medium | High | Critical

  function RiskRank(r: RiskLevel): int
  {
    match r
    case Low => 0
    case Medium => 1
    case High => 2
    case Critical => 3
  }

  predicate RequiresOversight(r: RiskLevel)
  {
    RiskRank(r) >= RiskRank(High)
  }

  datatype Status = Pending | Approved | Rejected | Expired

  datatype Request = Request(
    orgId: string, toolName: string, argsHash: string, riskLevel: RiskLevel, status: Status,
    decidedBy: Option<string>, expiresAt: int, createdAt: int, outcome: Option<string>)

  const DAY_MS := 24 * 60 * 60 * 1000

  // ----- updates under a trigger

  /** A row trigger: may this row become that row? */
  type Trigger = (Request, Request) -> bool

  /** `oversight_forward_only` as shipped. */
  predicate ForwardOnly(before: Request, after: Request)
  {
    && before.status == Pending
    && after.toolName == before.toolName
    && after.argsHash == before.argsHash
    && after.orgId == before.orgId
    && after.createdAt == before.createdAt
  }

  /** The same trigger, but letting an approved request receive its outcome. */
  predicate ForwardOrOutcome(before: Request, after: Request)
  {
    ForwardOnly(before, after) ||
    (before.status == Approved && before.outcome.None? && after == before.(outcome := after.outcome))
  }

  predicate SameInvocation(r: Request, s: Request)
  {
    r.orgId == s.orgId && r.toolName == s.toolName && r.argsHash == s.argsHash && r.createdAt == s.createdAt
  }

  predicate Admitted(rows: seq<Request>, i: nat)
    requires i + 1 < |rows|
  {
    ForwardOnly(rows[i], rows[i + 1])
  }

  predicate PendingOfFirst(rows: seq<Request>, i: nat)
    requires i + 1 < |rows|
  {
    rows[i].status == Pending && SameInvocation(rows[0], rows[i + 1])
  }

  /** The shipped trigger, whatever statements are tried: the states that a row can go
      through are those of one invocation of which none but the last is decided. */
  lemma HistoryIff(rows: seq<Request>)
    ensures (forall i :: 0 <= i < |rows| - 1 ==> Admitted(rows, i)) <==>
            (forall i :: 0 <= i < |rows| - 1 ==> PendingOfFirst(rows, i))
  {
    hide ForwardOnly;
    if forall i :: 0 <= i < |rows| - 1 ==> Admitted(rows, i) {
      forall i | 0 <= i < |rows| - 1
        ensures PendingOfFirst(rows, i)
      {
        SameAsFirst(rows, i);
      }
    }
    if forall i :: 0 <= i < |rows| - 1 ==> PendingOfFirst(rows, i) {
      forall i | 0 <= i < |rows| - 1
        ensures Admitted(rows, i)
      {
        assert PendingOfFirst(rows, i) && (i > 0 ==> PendingOfFirst(rows, i - 1));
        OneUpdate(rows[i], rows[i + 1]);
      }
    }
  }

  lemma OneUpdate(r: Request, s: Request)
    ensures ForwardOnly(r, s) <==> r.status == Pending && SameInvocation(r, s)
  {
  }

  lemma {:induction false} SameAsFirst(rows: seq<Request>, i: nat)
    requires i + 1 < |rows| && forall k :: 0 <= k < |rows| - 1 ==> Admitted(rows, k)
    ensures PendingOfFirst(rows, i)
  {
    hide ForwardOnly;
    assert Admitted(rows, i);
    OneUpdate(rows[i], rows[i + 1]);
    if i > 0 { SameAsFirst(rows, i - 1); }
  }

  /** `UPDATE ... SET f WHERE p`: every selected row is changed, or, if the trigger
      refuses one of them, none. */
  function Update(trigger: Trigger, rs: seq<Request>, p: Request -> bool, f: Request -> Request): Option<seq<Request>>
  {
    if exists i :: 0 <= i < |rs| && p(rs[i]) && !trigger(rs[i], f(rs[i])) then None
    else Some(Changed(rs, p, f))
  }

  function Changed(rs: seq<Request>, p: Request -> bool, f: Request -> Request): (r: seq<Request>)
    ensures |r| == |rs|
    ensures forall i :: 0 <= i < |rs| ==> r[i] == if p(rs[i]) then f(rs[i]) else rs[i]
  {
    if rs == [] then []
    else [if p(rs[0]) then f(rs[0]) else rs[0]] + Changed(rs[1..], p, f)
  }

  /** Like `Update` with `WHERE id = ...` in front. */
  function UpdateOne(trigger: Trigger, rs: seq<Request>, id: nat, row: Request): Option<seq<Request>>
    requires id < |rs|
  {
    if trigger(rs[id], row) then Some(rs[id := row]) else None
  }

  // ----- the gate's transactions

  predicate Stale(orgId: string, now: int, r: Request)
  {
    r.orgId == orgId && r.status == Pending && r.expiresAt < now
  }

  /** `expireStale`; none if the trigger refuses. */
  function ExpireStaleTx(trigger: Trigger, rs: seq<Request>, orgId: string, now: int): Option<seq<Request>>
  {
    Update(trigger, rs, r => Stale(orgId, now, r), (r: Request) => r.(status := Expired))
  }

  /** How many rows `expireStale` expires. */
  function StaleCount(rs: seq<Request>, orgId: string, now: int): nat
  {
    if rs == [] then 0
    else StaleCount(rs[..|rs| - 1], orgId, now) + if Stale(orgId, now, rs[|rs| - 1]) then 1 else 0
  }

  lemma OneMoreRow(rs: seq<Request>, i: nat, orgId: string, now: int)
    requires i < |rs|
    ensures StaleCount(rs[..i + 1], orgId, now) == StaleCount(rs[..i], orgId, now) + if Stale(orgId, now, rs[i]) then 1 else 0
  {
    assert rs[..i + 1][..i] == rs[..i];
  }

  lemma NoRows(orgId: string, now: int)
    ensures StaleCount([], orgId, now) == 0
  {
  }

  predicate Refused(trigger: Trigger, orgId: string, now: int, r: Request)
  {
    Stale(orgId, now, r) && !trigger(r, r.(status := Expired))
  }

  /** The expired table, row by row. */
  lemma ExpiredRows(trigger: Trigger, rs: seq<Request>, orgId: string, now: int, next: seq<Request>)
    requires |next| == |rs|
    requires forall k :: 0 <= k < |rs| ==>
               next[k] == if Stale(orgId, now, rs[k]) then rs[k].(status := Expired) else rs[k]
    ensures ExpireStaleTx(trigger, rs, orgId, now) ==
            if exists k :: 0 <= k < |rs| && Refused(trigger, orgId, now, rs[k]) then None else Some(next)
  {
    var after := ExpireStaleTx(trigger, rs, orgId, now);
    if after.Some? { assert after.value == next; }
    if k :| 0 <= k < |rs| && Refused(trigger, orgId, now, rs[k]) { assert after.None?; }
  }

  lemma RefusalFails(trigger: Trigger, rs: seq<Request>, orgId: string, now: int, k: nat)
    requires k < |rs| && Refused(trigger, orgId, now, rs[k])
    ensures ExpireStaleTx(trigger, rs, orgId, now).None?
  {
  }

  predicate Matches(r: Request, orgId: string, toolName: string, argsHash: string)
  {
    r.orgId == orgId && r.toolName == toolName && r.argsHash == argsHash
  }

  /** An approval that still lets its tool run. */
  predicate Usable(r: Request)
  {
    r.status == Approved && r.outcome.None?
  }

  function FindUsable(rs: seq<Request>, orgId: string, toolName: string, argsHash: string): (r: Option<nat>)
    ensures r.Some? ==> r.value < |rs| && Matches(rs[r.value], orgId, toolName, argsHash) && Usable(rs[r.value])
    ensures r.None? ==> forall i :: 0 <= i < |rs| && Matches(rs[i], orgId, toolName, argsHash) ==> !Usable(rs[i])
  {
    if rs == [] then None
    else
      var n := |rs| - 1;
      if Matches(rs[n], orgId, toolName, argsHash) && Usable(rs[n]) then Some(n)
      else FindUsable(rs[..n], orgId, toolName, argsHash)
  }

  function FindPending(rs: seq<Request>, orgId: string, toolName: string, argsHash: string): (r: Option<nat>)
    ensures r.Some? ==>
              && r.value < |rs| && Matches(rs[r.value], orgId, toolName, argsHash) && rs[r.value].status == Pending
    ensures r.None? ==>
              forall i :: 0 <= i < |rs| && Matches(rs[i], orgId, toolName, argsHash) ==> rs[i].status != Pending
  {
    if rs == [] then None
    else
      var n := |rs| - 1;
      if Matches(rs[n], orgId, toolName, argsHash) && rs[n].status == Pending then Some(n)
      else FindPending(rs[..n], orgId, toolName, argsHash)
  }

  datatype CheckResult = CheckResult(requests: seq<Request>, approved: bool, requestId: nat)

  /** The lookup-or-create transaction of `check`. */
  function CheckTx(
      rs: seq<Request>, orgId: string, toolName: string, argsHash: string, risk: RiskLevel, now: int): CheckResult
  {
    match FindUsable(rs, orgId, toolName, argsHash)
    case Some(id) => CheckResult(rs, true, id)
    case None =>
      match FindPending(rs, orgId, toolName, argsHash)
      case Some(id) => CheckResult(rs, false, id)
      case None =>
        var r := Request(orgId, toolName, argsHash, risk, Pending, None, now + DAY_MS, now, None);
        CheckResult(rs + [r], false, |rs|)
  }

  /** The request that a lookup is about. */
  predicate Answers(r: Request, orgId: string, toolName: string, argsHash: string, status: Status)
  {
    r.orgId == orgId && r.toolName == toolName && r.argsHash == argsHash && r.status == status
  }

  /** What `check` answers: an approved request of the invocation without outcome if there
      is one, else a pending one, and only if there is neither one that it adds. */
  lemma CheckOutcome(rs: seq<Request>, orgId: string, toolName: string, argsHash: string, risk: RiskLevel, now: int)
    ensures var c := CheckTx(rs, orgId, toolName, argsHash, risk, now);
            && (c.approved <==> exists i :: 0 <= i < |rs| && Answers(rs[i], orgId, toolName, argsHash, Approved) && rs[i].outcome.None?)
            && c.requestId < |c.requests|
            && var r := c.requests[c.requestId];
               && Answers(r, orgId, toolName, argsHash, if c.approved then Approved else Pending)
               && (c.approved ==> r.outcome.None?)
               && if c.approved || exists i :: 0 <= i < |rs| && Answers(rs[i], orgId, toolName, argsHash, Pending)
                  then c.requests == rs
                  else
                    && c.requests == rs + [r] && c.requestId == |rs|
                    && r.riskLevel == risk && r.createdAt == now && r.expiresAt == now + 86_400_000
                    && r.decidedBy.None? && r.outcome.None?
  {
    var usable, pending := FindUsable(rs, orgId, toolName, argsHash), FindPending(rs, orgId, toolName, argsHash);
    assert usable.Some? ==> Answers(rs[usable.value], orgId, toolName, argsHash, Approved);
    assert pending.Some? ==> Answers(rs[pending.value], orgId, toolName, argsHash, Pending);
    assert forall i :: 0 <= i < |rs| && Answers(rs[i], orgId, toolName, argsHash, Approved) ==> Matches(rs[i], orgId, toolName, argsHash);
    assert forall i :: 0 <= i < |rs| && Answers(rs[i], orgId, toolName, argsHash, Pending) ==> Matches(rs[i], orgId, toolName, argsHash);
  }

  /** A request made at `now` can be expired after 24 hours, and not before. */
  lemma RequestExpiresAfterADay(
      trigger: Trigger, orgId: string, toolName: string, argsHash: string, risk: RiskLevel, now: int, later: int)
    ensures var rs := CheckTx([], orgId, toolName, argsHash, risk, now).requests;
            && |rs| == 1 && rs[0].status == Pending
            && ExpireStaleTx(trigger, rs, orgId, later) ==
               if later <= now + 86_400_000 then Some(rs)
               else if trigger(rs[0], rs[0].(status := Expired)) then Some([rs[0].(status := Expired)])
               else None
  {
    var rs := CheckTx([], orgId, toolName, argsHash, risk, now).requests;
    var next := if later <= now + 86_400_000 then rs else [rs[0].(status := Expired)];
    ExpiredRows(trigger, rs, orgId, later, next);
    assert Refused(trigger, orgId, later, rs[0]) <==> later > now + 86_400_000 && !trigger(rs[0], rs[0].(status := Expired));
  }

  /** `recordOutcome`; none if the trigger refuses. */
  function RecordOutcomeTx(
      trigger: Trigger, rs: seq<Request>, orgId: string, id: nat, summary: string): Option<seq<Request>>
  {
    if id < |rs| && rs[id].orgId == orgId then UpdateOne(trigger, rs, id, rs[id].(outcome := Some(summary)))
    else Some(rs)
  }

  predicate Decidable(rs: seq<Request>, orgId: string, id: nat)
  {
    id < |rs| && rs[id].orgId == orgId && rs[id].status == Pending
  }

  /** `decide`: approve or reject a pending request. */
  function DecideTx(
      trigger: Trigger, rs: seq<Request>, orgId: string, id: nat, decider: string, approve: bool): Option<seq<Request>>
  {
    if Decidable(rs, orgId, id)
    then UpdateOne(trigger, rs, id, rs[id].(status := if approve then Approved else Rejected, decidedBy := Some(decider)))
    else Some(rs)
  }

  /** A decision is made exactly on a pending request of the decider's organisation, if
      the trigger lets it, and sets status and decider of that request alone. */
  lemma DecisionEffect(trigger: Trigger, rs: seq<Request>, orgId: string, id: nat, decider: string, approve: bool)
    ensures var after := DecideTx(trigger, rs, orgId, id, decider, approve);
            if id < |rs| && rs[id].orgId == orgId && rs[id].status == Pending then
              var r := rs[id].(decidedBy := Some(decider), status := if approve then Approved else Rejected);
              if trigger(rs[id], r) then
                && after.Some? && |after.value| == |rs| && after.value[id] == r
                && forall i :: 0 <= i < |rs| && i != id ==> after.value[i] == rs[i]
              else after.None?
            else after == Some(rs)
  {
  }

  /** The rows of other organisations are as they were, and none is added to them. */
  predicate OthersUntouched(rs: seq<Request>, after: Option<seq<Request>>, orgId: string)
  {
    after.Some? ==>
      && |rs| <= |after.value|
      && (forall i :: 0 <= i < |rs| ==> after.value[i].orgId == rs[i].orgId)
      && (forall i :: 0 <= i < |rs| && rs[i].orgId != orgId ==> after.value[i] == rs[i])
      && (forall i :: |rs| <= i < |after.value| ==> after.value[i].orgId == orgId)
  }

  lemma ExpiryStays(trigger: Trigger, rs: seq<Request>, orgId: string, now: int)
    ensures OthersUntouched(rs, ExpireStaleTx(trigger, rs, orgId, now), orgId)
  {
  }

  lemma CheckStays(rs: seq<Request>, orgId: string, toolName: string, argsHash: string, risk: RiskLevel, now: int)
    ensures OthersUntouched(rs, Some(CheckTx(rs, orgId, toolName, argsHash, risk, now).requests), orgId)
  {
    hide FindUsable, FindPending;
  }

  lemma UpdateStays(trigger: Trigger, rs: seq<Request>, orgId: string, id: nat, row: Request)
    requires id < |rs| && rs[id].orgId == orgId == row.orgId
    ensures OthersUntouched(rs, UpdateOne(trigger, rs, id, row), orgId)
  {
  }

  /** No transaction of the gate reaches into another organisation. */
  lemma GateStaysInOrganisation(
      trigger: Trigger, rs: seq<Request>, orgId: string, toolName: string, argsHash: string, risk: RiskLevel, now: int,
      id: nat, summary: string, decider: string, approve: bool)
    ensures OthersUntouched(rs, ExpireStaleTx(trigger, rs, orgId, now), orgId)
    ensures OthersUntouched(rs, Some(CheckTx(rs, orgId, toolName, argsHash, risk, now).requests), orgId)
    ensures OthersUntouched(rs, RecordOutcomeTx(trigger, rs, orgId, id, summary), orgId)
    ensures OthersUntouched(rs, DecideTx(trigger, rs, orgId, id, decider, approve), orgId)
  {
    hide OthersUntouched, ExpireStaleTx, CheckTx, UpdateOne;
    ExpiryStays(trigger, rs, orgId, now);
    CheckStays(rs, orgId, toolName, argsHash, risk, now);
    NothingChanged(rs, orgId);
    if id < |rs| && rs[id].orgId == orgId {
      UpdateStays(trigger, rs, orgId, id, rs[id].(outcome := Some(summary)));
      UpdateStays(trigger, rs, orgId, id, rs[id].(status := if approve then Approved else Rejected, decidedBy := Some(decider)));
    }
  }

  lemma NothingChanged(rs: seq<Request>, orgId: string)
    ensures OthersUntouched(rs, Some(rs), orgId)
  {
  }

  // ----- the gate object

  /** The payload of an `oversight.approved` or `oversight.rejected` event. */
  datatype DecisionEvent = DecisionEvent(orgId: string, approved: bool, requestId: nat, decidedBy: string)

  class DbOversightGate {
    var requests: seq<Request>
    var log: seq<DecisionEvent>
    const trigger: Trigger
    const h: HashFunction
    const orgId: string

    constructor (trigger: Trigger, h: HashFunction, orgId: string, requests: seq<Request>)
      ensures this.requests == requests && this.trigger == trigger && this.h == h && this.orgId == orgId && log == []
    {
      this.trigger := trigger;
      this.h := h;
      this.orgId := orgId;
      this.requests := requests;
      log := [];
    }

    /** How many rows were expired; an exception, `None`, leaves the table as it was. */
    method ExpireStale(now: int) returns (expired: Option<nat>)
      modifies this`requests
      ensures expired == (if ExpireStaleTx(trigger, old(requests), orgId, now).None? then None
                          else Some(StaleCount(old(requests), orgId, now)))
      ensures requests == ExpireStaleTx(trigger, old(requests), orgId, now).GetOr(old(requests))
    {
      hide ExpireStaleTx, StaleCount;
      NoRows(orgId, now);
      var rows := requests;
      assert rows[..0] == [];
      var next := rows;
      var count: nat := 0;
      for i := 0 to |rows|
        invariant requests == rows && |next| == |rows|
        invariant forall k :: i <= k < |rows| ==> next[k] == rows[k]
        invariant forall k :: 0 <= k < i ==>
                    next[k] == if Stale(orgId, now, rows[k]) then rows[k].(status := Expired) else rows[k]
        invariant forall k :: 0 <= k < i ==> !Refused(trigger, orgId, now, rows[k])
        invariant count == StaleCount(rows[..i], orgId, now)
      {
        OneMoreRow(rows, i, orgId, now);
        if Stale(orgId, now, rows[i]) {
          if !trigger(rows[i], rows[i].(status := Expired)) {
            RefusalFails(trigger, rows, orgId, now, i);
            return None;
          }
          next := next[i := rows[i].(status := Expired)];
          count := count + 1;
        }
      }
      assert rows[..|rows|] == rows;
      ExpiredRows(trigger, rows, orgId, now, next);
      requests := next;
      return Some(count);
    }

    /** Expires first, and fails if that does; then looks up or creates the request. */
    method Check(toolName: string, args: PlainJson, risk: RiskLevel, now: int) returns (result: Option<(bool, nat)>)
      modifies this`requests
      ensures var expired := ExpireStaleTx(trigger, old(requests), orgId, now);
              if expired.None? then result.None? && requests == old(requests)
              else
                && result.Some?
                && CheckResult(requests, result.value.0, result.value.1) ==
                   CheckTx(expired.value, orgId, toolName, h(CanonicalText(args)), risk, now)
    {
      var argsHash := h(CanonicalText(args));
      var expired := ExpireStale(now);
      if expired.None? { return None; }
      var usable := FindUsable(requests, orgId, toolName, argsHash);
      if usable.Some? { return Some((true, usable.value)); }
      var pending := FindPending(requests, orgId, toolName, argsHash);
      if pending.Some? { return Some((false, pending.value)); }
      var requestId := |requests|;
      requests := requests + [Request(orgId, toolName, argsHash, risk, Pending, None, now + DAY_MS, now, None)];
      return Some((false, requestId));
    }

    method RecordOutcome(requestId: nat, summary: string) returns (ok: bool)
      modifies this`requests
      ensures ok == RecordOutcomeTx(trigger, old(requests), orgId, requestId, summary).Some?
      ensures requests == RecordOutcomeTx(trigger, old(requests), orgId, requestId, summary).GetOr(old(requests))
    {
      if requestId < |requests| && requests[requestId].orgId == orgId {
        var r := requests[requestId].(outcome := Some(summary));
        if !trigger(requests[requestId], r) { return false; }
        requests := requests[requestId := r];
      }
      return true;
    }

    /** Whether this call decided the request, in which case it logs the decision; an
        exception, `None`, changes nothing. */
    method Decide(id: nat, decider: string, approve: bool) returns (decided: Option<bool>)
      modifies this`requests, this`log
      ensures var after := DecideTx(trigger, old(requests), orgId, id, decider, approve);
              && requests == after.GetOr(old(requests))
              && decided == (if after.None? then None else Some(Decidable(old(requests), orgId, id)))
      ensures log == old(log) + if decided == Some(true) then [DecisionEvent(orgId, approve, id, decider)] else []
    {
      if !Decidable(requests, orgId, id) { return Some(false); }
      var r := requests[id].(status := if approve then Approved else Rejected, decidedBy := Some(decider));
      if !trigger(requests[id], r) { return None; }
      requests := requests[id := r];
      log := log + [DecisionEvent(orgId, approve, id, decider)];
      return Some(true);
    }
  }
}
