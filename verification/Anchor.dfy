/** Signed checkpoints over the security log (`src/audit/anchor.ts`), running
    concurrently with the writers.

    `createAnchor` is not a transaction: it reads the head, then the count, then
    the last anchor, then signs and inserts, and appends may commit in between.
    Ed25519 is a function `sign` and a predicate `verify`; unforgeability means
    that only messages signed by the key holder verify. */
module Anchor {
  import opened Options
  import opened JsonText
  import opened CanonicalJson
  import opened Decimals
  import JsonReader
  import opened SecurityLog
  import AppendProtocol

  type Signer = string -> string
  type Verifier = (string, string) -> bool

  datatype AnchorContent = AnchorContent(
    checkpointSeq: int, eventId: int, eventCount: int, chainHash: string, createdAt: string)

  /** A row of `audit_anchors`. */
  datatype AnchorRow = AnchorRow(content: AnchorContent, signature: string)

  // ----- the signed message

  function AnchorFields(c: AnchorContent): seq<Member>
  {
    [
      Member("checkpointSeq", Num(IntText(c.checkpointSeq))),
      Member("eventId", Num(IntText(c.eventId))),
      Member("eventCount", Num(IntText(c.eventCount))),
      Member("chainHash", Str(c.chainHash)),
      Member("createdAt", Str(c.createdAt)),
      Member("algorithm", Str("ed25519"))
    ]
  }

  function AnchorMessage(c: AnchorContent): string
  {
    CanonicalText(Obj(AnchorFields(c)))
  }

  lemma FieldsDetermineAnchor(c: AnchorContent, d: AnchorContent)
    requires SameFields(AnchorFields(c), AnchorFields(d))
    ensures c == d
  {
    var ms, ns := AnchorFields(c), AnchorFields(d);
    assert Meaning(ms[0].value) == Meaning(ns[0].value) && Meaning(ms[1].value) == Meaning(ns[1].value);
    assert Meaning(ms[2].value) == Meaning(ns[2].value) && Meaning(ms[3].value) == Meaning(ns[3].value);
    assert Meaning(ms[4].value) == Meaning(ns[4].value);
    IntTextInjective(c.checkpointSeq, d.checkpointSeq);
    IntTextInjective(c.eventId, d.eventId);
    IntTextInjective(c.eventCount, d.eventCount);
  }

  lemma AnchorIsPlain(c: AnchorContent)
    ensures PlainMembers(AnchorFields(c))
  {
    hide Numeral, IntText;
    RecordIsPlain(AnchorFields(c));
  }

  lemma AnchorsHaveSameShape(c: AnchorContent, d: AnchorContent)
    ensures SameShape(AnchorFields(c), AnchorFields(d))
  {
    hide IntText, Numeral;
  }

  /** The signed message commits to every field of the checkpoint. */
  lemma MessageDeterminesAnchor(c: AnchorContent, d: AnchorContent)
    requires AnchorMessage(c) == AnchorMessage(d)
    ensures c == d
  {
    AnchorIsPlain(c);
    AnchorIsPlain(d);
    AnchorsHaveSameShape(c, d);
    SameTextSameFields(AnchorFields(c), AnchorFields(d));
    FieldsDetermineAnchor(c, d);
  }

  /** What is signed is JSON: an object with the numbers and texts of the checkpoint and
      the algorithm under their names. */
  lemma AnchorMessageParses(c: AnchorContent)
    ensures var r := JsonReader.Parse(AnchorMessage(c)); r.Some? && IsAnchorObject(Meaning(r.value), c)
  {
    hide JsonReader.Parse, CanonicalText, AnchorFields, IsAnchorObject;
    AnchorIsPlain(c);
    CanonicalTextParses(Obj(AnchorFields(c)));
    AnchorFieldsMean(c);
  }

  predicate IsAnchorObject(v: Value, c: AnchorContent)
  {
    && v.VObj? && |v.members| == 6
    && HasNumber(v.members, "checkpointSeq", c.checkpointSeq)
    && HasNumber(v.members, "eventId", c.eventId)
    && HasNumber(v.members, "eventCount", c.eventCount)
    && HasField(v.members, "chainHash", VStr(c.chainHash))
    && HasField(v.members, "createdAt", VStr(c.createdAt))
    && HasField(v.members, "algorithm", VStr("ed25519"))
  }

  predicate HasNumber(m: map<string, Value>, key: string, n: int)
  {
    key in m && m[key].VNum? && SignedValueOf(m[key].numeral) == n
  }

  lemma AnchorFieldsMean(c: AnchorContent)
    ensures IsAnchorObject(Meaning(Obj(AnchorFields(c))), c)
  {
    hide MeaningOfMembers, Keys, IntText, SignedValueOf;
    var ms := AnchorFields(c);
    AnchorIsPlain(c);
    FieldAt(ms, 0);
    FieldAt(ms, 1);
    FieldAt(ms, 2);
    FieldAt(ms, 3);
    FieldAt(ms, 4);
    FieldAt(ms, 5);
    IntTextDenotes(c.checkpointSeq);
    IntTextDenotes(c.eventId);
    IntTextDenotes(c.eventCount);
    CountFields(ms);
  }

  lemma {:induction false} CountFields(ms: seq<Member>)
    requires PlainMembers(ms)
    ensures |MeaningOfMembers(ms)| == |ms|
  {
    if ms != [] { CountFields(ms[1..]); }
  }

  lemma SameTextSameFields(ms: seq<Member>, ns: seq<Member>)
    requires PlainMembers(ms) && PlainMembers(ns) && SameShape(ms, ns)
    requires CanonicalText(Obj(ms)) == CanonicalText(Obj(ns))
    ensures SameFields(ms, ns)
  {
    RecordTextIffSameFields(ms, ns);
  }

  // ----- creating anchors beside concurrent writers

  /** How far a call of `createAnchor` has got. */
  datatype Progress =
    | Idle
    | HeadRead(eventId: int, chainHash: string)
    | Counted(eventId: int, eventCount: int, chainHash: string)
    | Numbered(eventId: int, eventCount: int, chainHash: string, checkpointSeq: int)

  /** `signed` are the checkpoints the private key has signed. */
  datatype System = System(
    db: AppendProtocol.Db, anchors: seq<AnchorRow>, signed: set<AnchorContent>, calls: map<nat, Progress>)

  datatype Action =
    | Write(a: AppendProtocol.Action)
    | ReadHead(c: nat)
    | ReadCount(c: nat)
    | ReadLastAnchor(c: nat)
    | Publish(c: nat, createdAt: string)

  const Initial := System(AppendProtocol.Initial, [], {}, map[])

  function ProgressOf(s: System, c: nat): Progress
  {
    if c in s.calls then s.calls[c] else Idle
  }

  predicate Taken(anchors: seq<AnchorRow>, checkpointSeq: int)
  {
    exists k :: 0 <= k < |anchors| && anchors[k].content.checkpointSeq == checkpointSeq
  }

  function Do(h: HashFunction, sign: Signer, s: System, a: Action): System
  {
    match a
    case Write(w) => s.(db := AppendProtocol.Do(h, true, s.db, w))
    case ReadHead(c) =>
      if !ProgressOf(s, c).Idle? then s
      else s.(calls := s.calls[c := HeadOf(s.db.log)])
    case ReadCount(c) =>
      (match ProgressOf(s, c)
       case HeadRead(id, hash) => s.(calls := s.calls[c := Counted(id, |s.db.log|, hash)])
       case _ => s)
    case ReadLastAnchor(c) =>
      (match ProgressOf(s, c)
       case Counted(id, count, hash) => s.(calls := s.calls[c := AfterLastAnchor(s.anchors, id, count, hash)])
       case _ => s)
    case Publish(c, createdAt) =>
      (match ProgressOf(s, c)
       case Numbered(id, count, hash, number) =>
         var content := AnchorContent(number, id, count, hash, createdAt);
         var row := AnchorRow(content, sign(AnchorMessage(content)));
         // a second insert of the same number violates the unique constraint
         System(s.db, if Taken(s.anchors, number) then s.anchors else s.anchors + [row],
                s.signed + {content}, s.calls[c := Idle])
       case _ => s)
  }

  /** `chainHead`: an empty log needs no count. */
  function HeadOf(log: seq<Row>): Progress
  {
    if log == [] then Counted(0, 0, GENESIS_HASH)
    else HeadRead(log[|log| - 1].id, log[|log| - 1].hash)
  }

  /** No new anchor when the head is the one of the last anchor. */
  function AfterLastAnchor(anchors: seq<AnchorRow>, id: int, count: int, hash: string): Progress
  {
    if anchors == [] then Numbered(id, count, hash, 1)
    else
      var last := anchors[|anchors| - 1].content;
      if last.eventId == id && last.chainHash == hash then Idle
      else Numbered(id, count, hash, last.checkpointSeq + 1)
  }

  function Run(h: HashFunction, sign: Signer, actions: seq<Action>): System
    decreases |actions|
  {
    if actions == [] then Initial
    else
      var n := |actions| - 1;
      Do(h, sign, Run(h, sign, actions[..n]), actions[n])
  }

  // ----- what an anchor says about the log

  /** The first `n` rows end at the anchored head. */
  predicate HeadAt(log: seq<Row>, n: nat, eventId: int, chainHash: string)
  {
    && n <= |log|
    && eventId == (if n == 0 then 0 else log[n - 1].id)
    && chainHash == TailHash(log[..n])
  }

  ghost predicate Covers(log: seq<Row>, eventId: int, eventCount: int, chainHash: string)
  {
    exists n: nat :: HeadAt(log, n, eventId, chainHash) && n <= eventCount <= |log|
  }

  ghost predicate CallCovers(log: seq<Row>, p: Progress)
  {
    match p
    case Idle => true
    case HeadRead(id, hash) => id >= 1 && Covers(log, id, |log|, hash)
    case Counted(id, count, hash) => Covers(log, id, count, hash)
    case Numbered(id, count, hash, _) => Covers(log, id, count, hash)
  }

  ghost predicate Inv(h: HashFunction, sign: Signer, s: System)
  {
    && AppendProtocol.Inv(h, s.db)
    && (forall c: nat :: CallCovers(s.db.log, ProgressOf(s, c)))
    && (forall c :: c in s.signed ==> Covers(s.db.log, c.eventId, c.eventCount, c.chainHash))
    && (forall c: nat :: NumberInRange(s, ProgressOf(s, c)))
    && (forall k :: 0 <= k < |s.anchors| ==> GoodAnchor(sign, s, k))
  }

  ghost predicate NumberInRange(s: System, p: Progress)
  {
    p.Numbered? ==> 1 <= p.checkpointSeq <= |s.anchors| + 1
  }

  /** Checkpoints are numbered 1, 2, 3, ... and signed as published. */
  ghost predicate GoodAnchor(sign: Signer, s: System, k: nat)
    requires k < |s.anchors|
  {
    && s.anchors[k].content.checkpointSeq == k + 1
    && s.anchors[k].content in s.signed
    && s.anchors[k].signature == sign(AnchorMessage(s.anchors[k].content))
  }

  lemma CoversGrows(log: seq<Row>, more: seq<Row>, eventId: int, eventCount: int, chainHash: string)
    requires log <= more && Covers(log, eventId, eventCount, chainHash)
    ensures Covers(more, eventId, eventCount, chainHash)
    ensures eventCount == |log| ==> Covers(more, eventId, |more|, chainHash)
  {
    var n: nat :| HeadAt(log, n, eventId, chainHash) && n <= eventCount <= |log|;
    assert more[..n] == log[..n];
    assert HeadAt(more, n, eventId, chainHash);
  }

  lemma HeadCovers(log: seq<Row>)
    requires forall k :: 0 <= k < |log| ==> log[k].id >= 1
    ensures CallCovers(log, HeadOf(log))
  {
    var n := |log|;
    assert log[..n] == log;
    if log == [] {
      assert HeadAt(log, 0, 0, GENESIS_HASH);
    } else {
      assert HeadAt(log, n, log[n - 1].id, log[n - 1].hash);
    }
  }

  lemma WriteKeepsInv(h: HashFunction, sign: Signer, s: System, w: AppendProtocol.Action)
    requires Inv(h, sign, s)
    ensures Inv(h, sign, Do(h, sign, s, Write(w)))
  {
    var t := Do(h, sign, s, Write(w));
    AppendProtocol.StepKeepsInv(h, s.db, w);
    forall c: nat
      ensures CallCovers(t.db.log, ProgressOf(t, c)) && NumberInRange(t, ProgressOf(t, c))
    {
      var p := ProgressOf(s, c);
      assert CallCovers(s.db.log, p) && NumberInRange(s, p);
      if p.HeadRead? {
        CoversGrows(s.db.log, t.db.log, p.eventId, |s.db.log|, p.chainHash);
      } else if !p.Idle? {
        CoversGrows(s.db.log, t.db.log, p.eventId, p.eventCount, p.chainHash);
      }
    }
    forall c | c in t.signed
      ensures Covers(t.db.log, c.eventId, c.eventCount, c.chainHash)
    {
      CoversGrows(s.db.log, t.db.log, c.eventId, c.eventCount, c.chainHash);
    }
    forall k | 0 <= k < |t.anchors|
      ensures GoodAnchor(sign, t, k)
    {
      assert GoodAnchor(sign, s, k);
    }
  }

  lemma PublishKeepsInv(h: HashFunction, sign: Signer, s: System, c: nat, createdAt: string)
    requires Inv(h, sign, s)
    ensures Inv(h, sign, Do(h, sign, s, Publish(c, createdAt)))
  {
    hide Covers, HeadAt, AnchorMessage;
    var t := Do(h, sign, s, Publish(c, createdAt));
    var p := ProgressOf(s, c);
    assert CallCovers(s.db.log, p) && NumberInRange(s, p);
    if p.Numbered? && p.checkpointSeq <= |s.anchors| {
      assert GoodAnchor(sign, s, p.checkpointSeq - 1);
      assert Taken(s.anchors, p.checkpointSeq);
    }
    forall d: nat
      ensures CallCovers(t.db.log, ProgressOf(t, d)) && NumberInRange(t, ProgressOf(t, d))
    {
      assert d != c ==> ProgressOf(t, d) == ProgressOf(s, d);
      assert CallCovers(s.db.log, ProgressOf(s, d)) && NumberInRange(s, ProgressOf(s, d));
    }
    forall k | 0 <= k < |t.anchors|
      ensures GoodAnchor(sign, t, k)
    {
      if k < |s.anchors| { assert GoodAnchor(sign, s, k); }
    }
  }

  lemma ReadKeepsInv(h: HashFunction, sign: Signer, s: System, a: Action)
    requires Inv(h, sign, s) && (a.ReadHead? || a.ReadCount? || a.ReadLastAnchor?)
    ensures Inv(h, sign, Do(h, sign, s, a))
  {
    hide Covers, HeadAt, AnchorMessage;
    var t := Do(h, sign, s, a);
    HeadCovers(s.db.log);
    forall d: nat
      ensures CallCovers(t.db.log, ProgressOf(t, d)) && NumberInRange(t, ProgressOf(t, d))
    {
      assert d != a.c ==> ProgressOf(t, d) == ProgressOf(s, d);
      assert CallCovers(s.db.log, ProgressOf(s, d)) && NumberInRange(s, ProgressOf(s, d));
      if a.ReadLastAnchor? && s.anchors != [] { assert GoodAnchor(sign, s, |s.anchors| - 1); }
    }
    forall k | 0 <= k < |t.anchors|
      ensures GoodAnchor(sign, t, k)
    {
      assert GoodAnchor(sign, s, k);
    }
  }

  lemma {:induction false} RunKeepsInv(h: HashFunction, sign: Signer, actions: seq<Action>)
    ensures Inv(h, sign, Run(h, sign, actions))
    decreases |actions|
  {
    if actions == [] {
      AppendProtocol.InitialInv(h);
    } else {
      var n := |actions| - 1;
      RunKeepsInv(h, sign, actions[..n]);
      var s := Run(h, sign, actions[..n]);
      match actions[n]
      case Write(w) => WriteKeepsInv(h, sign, s, w);
      case Publish(c, createdAt) => PublishKeepsInv(h, sign, s, c, createdAt);
      case _ => ReadKeepsInv(h, sign, s, actions[n]);
    }
  }

  // ----- verifying anchors

  datatype Fault = BadSignature | MissingEvent | AnchorHashMismatch

  datatype AnchorVerification =
    | Verified(checked: nat)
    | Refuted(checked: nat, brokenAt: int, reason: Fault)

  /** `... FROM security_events WHERE id = ... LIMIT 1` */
  function FindEvent(rows: seq<Row>, id: int): (r: Option<nat>)
    ensures r.Some? ==> r.value < |rows| && rows[r.value].id == id
    ensures r.None? ==> forall k :: 0 <= k < |rows| ==> rows[k].id != id
  {
    if rows == [] then None
    else if rows[|rows| - 1].id == id then Some(|rows| - 1)
    else FindEvent(rows[..|rows| - 1], id)
  }

  /** What is wrong with one anchor, checked in this order. */
  function FaultOf(verify: Verifier, rows: seq<Row>, a: AnchorRow): Option<Fault>
  {
    if !verify(AnchorMessage(a.content), a.signature) then Some(BadSignature)
    else if a.content.eventId <= 0 then None
    else match FindEvent(rows, a.content.eventId)
         case None => Some(MissingEvent)
         case Some(k) => if rows[k].hash != a.content.chainHash then Some(AnchorHashMismatch) else None
  }

  predicate Accepted(verify: Verifier, rows: seq<Row>, anchors: seq<AnchorRow>)
  {
    forall k :: 0 <= k < |anchors| ==> FaultOf(verify, rows, anchors[k]).None?
  }

  method VerifyAnchors(verify: Verifier, rows: seq<Row>, anchors: seq<AnchorRow>) returns (v: AnchorVerification)
    ensures v.Verified? <==> Accepted(verify, rows, anchors)
    ensures v.Verified? ==> v.checked == |anchors|
    ensures v.Refuted? ==>
              && v.checked < |anchors|
              && Accepted(verify, rows, anchors[..v.checked])
              && FaultOf(verify, rows, anchors[v.checked]) == Some(v.reason)
              && v.brokenAt == anchors[v.checked].content.checkpointSeq
  {
    var checked := 0;
    while checked < |anchors|
      invariant checked <= |anchors|
      invariant Accepted(verify, rows, anchors[..checked])
    {
      assert anchors[..checked + 1] == anchors[..checked] + [anchors[checked]];
      var a := anchors[checked];
      var sigOk := verify(AnchorMessage(a.content), a.signature);
      if !sigOk {
        return Refuted(checked, a.content.checkpointSeq, BadSignature);
      }
      if a.content.eventId > 0 {
        var row := FindEvent(rows, a.content.eventId);
        if row.None? {
          return Refuted(checked, a.content.checkpointSeq, MissingEvent);
        }
        if rows[row.value].hash != a.content.chainHash {
          return Refuted(checked, a.content.checkpointSeq, AnchorHashMismatch);
        }
      }
      checked := checked + 1;
    }
    assert anchors[..checked] == anchors;
    return Verified(checked);
  }

  // ----- main results

  /** The key verifies the checkpoints it signed. */
  ghost predicate Correct(sign: Signer, verify: Verifier, signed: set<AnchorContent>)
  {
    forall c :: c in signed ==> verify(AnchorMessage(c), sign(AnchorMessage(c)))
  }

  predicate Signed(verify: Verifier, a: AnchorRow)
  {
    verify(AnchorMessage(a.content), a.signature)
  }

  /** Among the anchors that are presented, only messages that the key signed verify. */
  ghost predicate Unforgeable(verify: Verifier, signed: set<AnchorContent>, anchors: seq<AnchorRow>)
  {
    forall k :: 0 <= k < |anchors| && Signed(verify, anchors[k])
                ==> exists c :: c in signed && AnchorMessage(c) == AnchorMessage(anchors[k].content)
  }

  /** One key meets both assumptions, whatever it has signed and whatever is presented. */
  lemma AssumptionsAreConsistent(sign: Signer, signed: set<AnchorContent>)
    ensures exists verify :: Correct(sign, verify, signed) && forall anchors :: Unforgeable(verify, signed, anchors)
  {
    hide AnchorMessage;
    var verify := (m: string, sig: string) => exists c :: c in signed && AnchorMessage(c) == m && sign(m) == sig;
    assert Correct(sign, verify, signed);
    forall anchors
      ensures Unforgeable(verify, signed, anchors)
    {
    }
  }

  /** A key that verifies just its own signatures meets both, too, as long as what is
      presented are checkpoints that it has signed or does not verify. */
  lemma OwnSignaturesMeetAssumptions(sign: Signer, signed: set<AnchorContent>, anchors: seq<AnchorRow>)
    requires forall k :: 0 <= k < |anchors| && anchors[k].signature == sign(AnchorMessage(anchors[k].content))
                         ==> anchors[k].content in signed
    ensures var verify := (m: string, sig: string) => sig == sign(m);
            Correct(sign, verify, signed) && Unforgeable(verify, signed, anchors)
  {
    hide AnchorMessage;
  }

  /** What a covering anchor finds in the log it covers. */
  lemma CoveredHead(log: seq<Row>, c: AnchorContent) returns (n: nat)
    requires Ordered(log) && Covers(log, c.eventId, c.eventCount, c.chainHash) && c.eventId != 0
    ensures 0 < n <= c.eventCount <= |log| && FindEvent(log, c.eventId) == Some(n - 1)
    ensures log[n - 1].hash == c.chainHash == TailHash(log[..n])
  {
    n :| HeadAt(log, n, c.eventId, c.chainHash) && n <= c.eventCount <= |log|;
    TailOfPrefix(log, n);
    var r := FindEvent(log, c.eventId);
    assert log[n - 1].id == c.eventId;
    assert r.Some? && r.value == n - 1;
  }

  lemma HonestAnchorVerifies(h: HashFunction, sign: Signer, verify: Verifier, s: System, k: nat)
    requires Correct(sign, verify, s.signed) && Inv(h, sign, s) && k < |s.anchors|
    ensures FaultOf(verify, s.db.log, s.anchors[k]).None? && s.anchors[k].content.checkpointSeq == k + 1
  {
    assert GoodAnchor(sign, s, k);
    var c := s.anchors[k].content;
    if c.eventId > 0 {
      var n := CoveredHead(s.db.log, c);
    }
  }

  /** Completeness: at any time of any honest run, every anchor verifies and
      checkpoints are numbered without gaps. */
  lemma HonestAnchorsVerify(h: HashFunction, sign: Signer, verify: Verifier, actions: seq<Action>)
    requires Correct(sign, verify, Run(h, sign, actions).signed)
    ensures var s := Run(h, sign, actions);
            && Accepted(verify, s.db.log, s.anchors)
            && forall k :: 0 <= k < |s.anchors| ==> s.anchors[k].content.checkpointSeq == k + 1
  {
    RunKeepsInv(h, sign, actions);
    var s := Run(h, sign, actions);
    forall k | 0 <= k < |s.anchors|
      ensures FaultOf(verify, s.db.log, s.anchors[k]).None? && s.anchors[k].content.checkpointSeq == k + 1
    {
      HonestAnchorVerifies(h, sign, verify, s, k);
    }
  }

  /** The rows with an id up to `id`. */
  function UpTo(log: seq<Row>, id: int): seq<Row>
  {
    if log == [] then []
    else if log[|log| - 1].id <= id then UpTo(log[..|log| - 1], id) + [log[|log| - 1]]
    else UpTo(log[..|log| - 1], id)
  }

  lemma {:induction false} UpToIsPrefix(log: seq<Row>, k: nat)
    requires Ordered(log) && k < |log|
    ensures UpTo(log, log[k].id) == log[..k + 1]
    decreases |log|
  {
    var n := |log| - 1;
    var front := log[..n];
    assert log == front + [log[n]];
    if k < n {
      assert log[k].id < log[n].id && front[k] == log[k];
      UpToIsPrefix(front, k);
      assert front[..k + 1] == log[..k + 1];
    } else {
      UpToAll(front, log[k].id);
      assert log[..k + 1] == log;
    }
  }

  lemma {:induction false} UpToAll(log: seq<Row>, id: int)
    requires forall k :: 0 <= k < |log| ==> log[k].id <= id
    ensures UpTo(log, id) == log
    decreases |log|
  {
    if log != [] {
      UpToAll(log[..|log| - 1], id);
      assert log == log[..|log| - 1] + [log[|log| - 1]];
    }
  }

  /** The anchored prefix of an accepted log is found by the anchor's event id. */
  lemma AnchoredPrefix(verify: Verifier, log: seq<Row>, a: AnchorRow) returns (n: nat)
    requires Ordered(log) && FaultOf(verify, log, a).None? && a.content.eventId > 0
    ensures 0 < n <= |log| && UpTo(log, a.content.eventId) == log[..n]
    ensures TailHash(log[..n]) == a.content.chainHash
  {
    n := FindEvent(log, a.content.eventId).value + 1;
    UpToIsPrefix(log, n - 1);
    TailOfPrefix(log, n);
  }

  /** An accepted anchor is one the key holder signed. */
  lemma AcceptedWasSigned(verify: Verifier, signed: set<AnchorContent>, log: seq<Row>, anchors: seq<AnchorRow>, k: nat)
    requires k < |anchors| && Unforgeable(verify, signed, anchors) && FaultOf(verify, log, anchors[k]).None?
    ensures anchors[k].content in signed
  {
    hide AnchorMessage, FindEvent;
    assert Signed(verify, anchors[k]);
    var c :| c in signed && AnchorMessage(c) == AnchorMessage(anchors[k].content);
    MessageDeterminesAnchor(c, anchors[k].content);
  }

  /** Anchors pin history. Take any log that `verifyChain` and `verifyAnchors`
      both accept, however it came about, and any anchor with an event in it. Up
      to that event it holds exactly the records the honest log holds there, in
      the same order and number, although ids are not hashed. The signed count
      bounds that number from above. */
  lemma AnchorsPinHistory(
      h: HashFunction, sign: Signer, verify: Verifier, actions: seq<Action>,
      log: seq<Row>, anchors: seq<AnchorRow>, k: nat)
    requires Linked(h, log) && Ordered(log) && PlainPayloads(log)
    requires Accepted(verify, log, anchors) && k < |anchors| && anchors[k].content.eventId > 0
    requires Unforgeable(verify, Run(h, sign, actions).signed, anchors)
    requires Sound(h, HashInputs(log) + HashInputs(Run(h, sign, actions).db.log))
    ensures var honest := Run(h, sign, actions).db.log;
            var id := anchors[k].content.eventId;
            && SameRecords(UpTo(log, id), UpTo(honest, id))
            && 0 < |UpTo(log, id)| <= anchors[k].content.eventCount
  {
    RunKeepsInv(h, sign, actions);
    AcceptedWasSigned(verify, Run(h, sign, actions).signed, log, anchors, k);
    AnchorPinsHistory(h, sign, verify, Run(h, sign, actions), log, anchors[k]);
  }

  lemma AnchorPinsHistory(
      h: HashFunction, sign: Signer, verify: Verifier, s: System, log: seq<Row>, a: AnchorRow)
    requires Inv(h, sign, s) && Linked(h, log) && Ordered(log) && PlainPayloads(log)
    requires FaultOf(verify, log, a).None? && a.content.eventId > 0
    requires a.content in s.signed && Sound(h, HashInputs(log) + HashInputs(s.db.log))
    ensures SameRecords(UpTo(log, a.content.eventId), UpTo(s.db.log, a.content.eventId))
    ensures 0 < |UpTo(log, a.content.eventId)| <= a.content.eventCount
  {
    var n := SignedPrefix(h, sign, s, a.content);
    var m := AnchoredPrefix(verify, log, a);
    PrefixesAgree(h, log, m, s.db.log, n);
  }

  /** The honest rows that a signed checkpoint covers. */
  lemma SignedPrefix(h: HashFunction, sign: Signer, s: System, c: AnchorContent) returns (n: nat)
    requires Inv(h, sign, s) && c in s.signed && c.eventId > 0
    ensures Linked(h, s.db.log) && PlainPayloads(s.db.log)
    ensures 0 < n <= |s.db.log| && n <= c.eventCount
    ensures UpTo(s.db.log, c.eventId) == s.db.log[..n] && TailHash(s.db.log[..n]) == c.chainHash
  {
    n := CoveredHead(s.db.log, c);
    UpToIsPrefix(s.db.log, n - 1);
  }

  lemma PrefixesAgree(h: HashFunction, a: seq<Row>, m: nat, b: seq<Row>, n: nat)
    requires Linked(h, a) && PlainPayloads(a) && m <= |a|
    requires Linked(h, b) && PlainPayloads(b) && n <= |b|
    requires Sound(h, HashInputs(a) + HashInputs(b))
    requires TailHash(a[..m]) == TailHash(b[..n])
    ensures SameRecords(a[..m], b[..n])
  {
    LinkedPrefix(h, a, m);
    LinkedPrefix(h, b, n);
    SoundPart(h, HashInputs(a) + HashInputs(b), HashInputs(a[..m]) + HashInputs(b[..n]));
    TailHashBindsHistory(h, a[..m], b[..n]);
  }

  // ----- one call

  /** The four statements of `createAnchor`, nobody else acting meanwhile. */
  function OneCall(h: HashFunction, sign: Signer, s: System, c: nat, createdAt: string): System
  {
    Do(h, sign, Do(h, sign, Do(h, sign, Do(h, sign, s, ReadHead(c)), ReadCount(c)), ReadLastAnchor(c)), Publish(c, createdAt))
  }

  /** The id and the hash of the last row. */
  function LastId(log: seq<Row>): int
  {
    if log == [] then 0 else log[|log| - 1].id
  }

  function LastHash(log: seq<Row>): string
  {
    if log == [] then GENESIS_HASH else log[|log| - 1].hash
  }

  /** There is an anchor, and nothing has been appended since the last one. */
  predicate UpToDate(s: System)
  {
    s.anchors != [] && s.anchors[|s.anchors| - 1].content.eventId == LastId(s.db.log)
    && s.anchors[|s.anchors| - 1].content.chainHash == LastHash(s.db.log)
  }

  /** Liveness of anchoring: in every reachable state an undisturbed call adds one row
      exactly if the last anchor, if any, is not of the log's head. The row has the next
      number, the head and the number of rows, and its own signature. */
  lemma CreateAnchorAddsOneIffBehind(h: HashFunction, sign: Signer, actions: seq<Action>, c: nat, createdAt: string)
    requires ProgressOf(Run(h, sign, actions), c).Idle?
    ensures var s := Run(h, sign, actions);
            var t := OneCall(h, sign, s, c, createdAt);
            var content := AnchorContent(|s.anchors| + 1, LastId(s.db.log), |s.db.log|, LastHash(s.db.log), createdAt);
            && t.db == s.db && t.calls == s.calls[c := Idle]
            && t.anchors == (if UpToDate(s) then s.anchors else s.anchors + [AnchorRow(content, sign(AnchorMessage(content)))])
            && t.signed == (if UpToDate(s) then s.signed else s.signed + {content})
            && (s.anchors != [] ==> |s.anchors| == s.anchors[|s.anchors| - 1].content.checkpointSeq)
  {
    hide Run, AnchorMessage, Covers, HeadAt;
    RunKeepsInv(h, sign, actions);
    var s := Run(h, sign, actions);
    NextNumberIsFree(h, sign, s);
    OneCallSteps(h, sign, s, c, createdAt);
  }

  lemma NextNumberIsFree(h: HashFunction, sign: Signer, s: System)
    requires Inv(h, sign, s)
    ensures !Taken(s.anchors, |s.anchors| + 1)
    ensures s.anchors != [] ==> |s.anchors| == s.anchors[|s.anchors| - 1].content.checkpointSeq
  {
    hide AnchorMessage, Covers, AppendProtocol.Inv;
    forall k | 0 <= k < |s.anchors|
      ensures s.anchors[k].content.checkpointSeq == k + 1
    {
      assert GoodAnchor(sign, s, k);
    }
  }

  lemma HeadAndCount(h: HashFunction, sign: Signer, s: System, c: nat)
    requires ProgressOf(s, c).Idle?
    ensures Do(h, sign, Do(h, sign, s, ReadHead(c)), ReadCount(c)) ==
            s.(calls := s.calls[c := Counted(LastId(s.db.log), |s.db.log|, LastHash(s.db.log))])
  {
  }

  lemma NumberOrStop(h: HashFunction, sign: Signer, s: System, t: System, c: nat)
    requires t == s.(calls := s.calls[c := Counted(LastId(s.db.log), |s.db.log|, LastHash(s.db.log))])
    requires s.anchors != [] ==> |s.anchors| == s.anchors[|s.anchors| - 1].content.checkpointSeq
    ensures Do(h, sign, t, ReadLastAnchor(c)) ==
            s.(calls := s.calls[c := if UpToDate(s) then Idle
                                     else Numbered(LastId(s.db.log), |s.db.log|, LastHash(s.db.log), |s.anchors| + 1)])
  {
  }

  lemma OneCallSteps(h: HashFunction, sign: Signer, s: System, c: nat, createdAt: string)
    requires ProgressOf(s, c).Idle? && !Taken(s.anchors, |s.anchors| + 1)
    requires s.anchors != [] ==> |s.anchors| == s.anchors[|s.anchors| - 1].content.checkpointSeq
    ensures var t := OneCall(h, sign, s, c, createdAt);
            var content := AnchorContent(|s.anchors| + 1, LastId(s.db.log), |s.db.log|, LastHash(s.db.log), createdAt);
            && t.db == s.db && t.calls == s.calls[c := Idle]
            && t.anchors == (if UpToDate(s) then s.anchors else s.anchors + [AnchorRow(content, sign(AnchorMessage(content)))])
            && t.signed == (if UpToDate(s) then s.signed else s.signed + {content})
  {
    hide AnchorMessage, Taken, UpToDate, LastId, LastHash;
    HeadAndCount(h, sign, s, c);
    NumberOrStop(h, sign, s, Do(h, sign, Do(h, sign, s, ReadHead(c)), ReadCount(c)), c);
  }

  // ----- the signed count

  /** The signed count is the number of rows up to the signed head exactly when
      the head is still the last row as the rows are counted. */
  lemma CountIsExactIffHeadIsLast(h: HashFunction, sign: Signer, s: System, c: nat)
    requires Inv(h, sign, s) && ProgressOf(s, c).HeadRead?
    ensures var p := ProgressOf(Do(h, sign, s, ReadCount(c)), c);
            && p.Counted? && s.db.log != []
            && (p.eventCount == |UpTo(s.db.log, p.eventId)| <==> s.db.log[|s.db.log| - 1].id == p.eventId)
  {
    var p := ProgressOf(s, c);
    assert CallCovers(s.db.log, p);
    var n := CoveredHead(s.db.log, AnchorContent(0, p.eventId, |s.db.log|, p.chainHash, ""));
    UpToIsPrefix(s.db.log, n - 1);
  }

  /** It need not be: an append that commits between the two reads is counted
      although it lies beyond the signed head. */
  lemma CountMayRunAhead(h: HashFunction, sign: Signer, s: System, c: nat, w: nat)
    requires Inv(h, sign, s) && ProgressOf(s, c).HeadRead? && s.db.log != []
    requires s.db.log[|s.db.log| - 1].id == ProgressOf(s, c).eventId
    requires AppendProtocol.PhaseOf(s.db, w).Inserted?
    ensures var t := Do(h, sign, Do(h, sign, s, Write(AppendProtocol.Commit(w))), ReadCount(c));
            var p := ProgressOf(t, c);
            p.Counted? && p.eventCount == |UpTo(t.db.log, p.eventId)| + 1
  {
    hide UpTo, Linked, Ordered, Covers, HeadAt, AnchorMessage, AppendProtocol.InsertById;
    AppendProtocol.CommitAppends(h, s.db, w);
    var row := AppendProtocol.PhaseOf(s.db, w).row;
    var t := Do(h, sign, s, Write(AppendProtocol.Commit(w)));
    assert t.db.log == s.db.log + [row] && ProgressOf(t, c) == ProgressOf(s, c);
    assert Ordered(s.db.log + [row]);
    UpToOldHead(s.db.log, row);
  }

  lemma UpToOldHead(log: seq<Row>, row: Row)
    requires Ordered(log + [row]) && log != []
    ensures UpTo(log + [row], log[|log| - 1].id) == log
  {
    UpToIsPrefix(log + [row], |log| - 1);
    assert (log + [row])[..|log|] == log;
  }

  lemma OneMoreAction(h: HashFunction, sign: Signer, actions: seq<Action>, a: Action)
    ensures Run(h, sign, actions + [a]) == Do(h, sign, Run(h, sign, actions), a)
  {
    hide Do;
    assert (actions + [a])[..|actions|] == actions;
  }

  /** Appending one event after another while no `createAnchor` moves. */
  lemma {:induction false} MoreEvents(h: HashFunction, sign: Signer, actions: seq<Action>, e: Event, n: nat)
    returns (more: seq<Action>)
    requires Run(h, sign, actions).db.lock.None? && Plain(e.payload)
    ensures var s, t := Run(h, sign, actions), Run(h, sign, more);
            && t.db.lock.None? && s.db.log <= t.db.log && |t.db.log| == |s.db.log| + n
            && t.calls == s.calls && t.anchors == s.anchors && t.signed == s.signed
  {
    hide Do, Run, AppendProtocol.Do, AppendProtocol.Inv;
    if n == 0 {
      more := actions;
    } else {
      more := MoreEvents(h, sign, actions, e, n - 1);
      var s := Run(h, sign, more);
      RunKeepsInv(h, sign, more);
      HonestDb(h, sign, s);
      AppendProtocol.AppendOne(h, s.db, e);
      more := OneWrite(h, sign, more, AppendProtocol.Lock(0));
      more := OneWrite(h, sign, more, AppendProtocol.ReadTail(0));
      more := OneWrite(h, sign, more, AppendProtocol.Insert(0, e, e.payload));
      more := OneWrite(h, sign, more, AppendProtocol.Commit(0));
    }
  }

  lemma HonestDb(h: HashFunction, sign: Signer, s: System)
    requires Inv(h, sign, s)
    ensures AppendProtocol.Inv(h, s.db)
  {
  }

  lemma OneWrite(h: HashFunction, sign: Signer, actions: seq<Action>, w: AppendProtocol.Action) returns (more: seq<Action>)
    ensures Run(h, sign, more) == Run(h, sign, actions).(db := AppendProtocol.Do(h, true, Run(h, sign, actions).db, w))
  {
    hide Run, AppendProtocol.Do;
    more := actions + [Write(w)];
    OneMoreAction(h, sign, actions, Write(w));
  }

  /** The steps of a call from the count to the signature, when there is no anchor yet. */
  lemma FirstAnchor(h: HashFunction, sign: Signer, actions: seq<Action>, createdAt: string) returns (more: seq<Action>)
    requires var s := Run(h, sign, actions); ProgressOf(s, 0).HeadRead? && s.anchors == []
    ensures var s, t := Run(h, sign, actions), Run(h, sign, more);
            var p := ProgressOf(s, 0);
            t.db == s.db && AnchorContent(1, p.eventId, |s.db.log|, p.chainHash, createdAt) in t.signed
  {
    hide Run, AnchorMessage;
    OneMoreAction(h, sign, actions, ReadCount(0));
    more := actions + [ReadCount(0)];
    OneMoreAction(h, sign, more, ReadLastAnchor(0));
    more := more + [ReadLastAnchor(0)];
    OneMoreAction(h, sign, more, Publish(0, createdAt));
    more := more + [Publish(0, createdAt)];
  }

  /** It does, in some run and by any number: a checkpoint gets signed whose count
      exceeds the rows up to its event by `n`. */
  lemma SignedCountRunsAhead(h: HashFunction, sign: Signer, e: Event, n: nat)
    returns (actions: seq<Action>, content: AnchorContent)
    requires Plain(e.payload)
    ensures var s := Run(h, sign, actions);
            content in s.signed && content.eventId > 0 && content.eventCount == |UpTo(s.db.log, content.eventId)| + n
  {
    hide Run, AnchorMessage, UpTo, AppendProtocol.Inv, Inv;
    assert Run(h, sign, []) == Initial by { StartOfRun(h, sign); }
    actions := MoreEvents(h, sign, [], e, 1);
    var log := Run(h, sign, actions).db.log;
    OneMoreAction(h, sign, actions, ReadHead(0));
    actions := actions + [ReadHead(0)];
    var p := ProgressOf(Run(h, sign, actions), 0);
    assert p == HeadRead(log[0].id, log[0].hash);
    actions := MoreEvents(h, sign, actions, e, n);
    actions := FirstAnchor(h, sign, actions, "");
    var s := Run(h, sign, actions);
    content := AnchorContent(1, p.eventId, n + 1, p.chainHash, "");
    RunKeepsInv(h, sign, actions);
    HonestOrder(h, sign, s);
    assert s.db.log[0] == log[0];
    UpToIsPrefix(s.db.log, 0);
  }

  lemma StartOfRun(h: HashFunction, sign: Signer)
    ensures Run(h, sign, []) == Initial
  {
  }

  lemma HonestOrder(h: HashFunction, sign: Signer, s: System)
    requires Inv(h, sign, s)
    ensures Ordered(s.db.log) && forall k :: 0 <= k < |s.db.log| ==> s.db.log[k].id > 0
  {
    hide HeadAt, Covers, AnchorMessage;
  }
}
