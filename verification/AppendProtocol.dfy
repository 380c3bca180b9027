/** Concurrent appends to the security log (`appendSecurityEvent` in
    `src/audit/securityLog.ts`): any number of transactions that lock, read the
    tail, insert and then commit or abort, in any interleaving.

    A statement reads what is committed when it starts. The id counter is not
    transactional, so an abort leaves a gap. `locking` says whether the advisory
    lock is taken at all; the shipped code is the instance `true`. */
module AppendProtocol {
  import opened Options
  import opened JsonText
  import opened CanonicalJson
  import opened SecurityLog

  /** How far a transaction has got. */
  datatype Phase =
    | Idle
    | Locked
    | TailRead(prevHash: string)
    | Inserted(row: Row)

  datatype Db = Db(log: seq<Row>, nextId: int, lock: Option<nat>, phases: map<nat, Phase>)

  /** `stored` is the payload as the `jsonb` column gives it back. */
  datatype Action =
    | Lock(w: nat)
    | ReadTail(w: nat)
    | Insert(w: nat, input: Event, stored: Json)
    | Commit(w: nat)
    | Abort(w: nat)

  const Initial := Db([], 1, None, map[])

  function PhaseOf(s: Db, w: nat): Phase
  {
    if w in s.phases then s.phases[w] else Idle
  }

  /** A committed row appears where `ORDER BY id` puts it. */
  function InsertById(log: seq<Row>, row: Row): seq<Row>
  {
    if log == [] || log[|log| - 1].id < row.id then log + [row]
    else InsertById(log[..|log| - 1], row) + [log[|log| - 1]]
  }

  predicate Enabled(locking: bool, s: Db, a: Action)
  {
    match a
    case Lock(w) => PhaseOf(s, w).Idle? && (locking ==> s.lock.None?)
    case ReadTail(w) => PhaseOf(s, w).Locked?
    case Insert(w, input, stored) =>
      PhaseOf(s, w).TailRead? && Plain(input.payload) && Plain(stored) && Meaning(stored) == Meaning(input.payload)
    case Commit(w) => PhaseOf(s, w).Inserted?
    case Abort(w) => !PhaseOf(s, w).Idle?
  }

  function Apply(h: HashFunction, s: Db, a: Action): Db
    requires Enabled(false, s, a)
  {
    match a
    case Lock(w) => s.(lock := Some(w), phases := s.phases[w := Locked])
    case ReadTail(w) => s.(phases := s.phases[w := TailRead(TailHash(s.log))])
    case Insert(w, input, stored) =>
      var prevHash := PhaseOf(s, w).prevHash;
      var row := Row(s.nextId, input.(payload := stored), prevHash, h(HashInput(prevHash, input)));
      s.(nextId := s.nextId + 1, phases := s.phases[w := Inserted(row)])
    case Commit(w) =>
      Db(InsertById(s.log, PhaseOf(s, w).row), s.nextId, None, s.phases[w := Idle])
    case Abort(w) => s.(lock := None, phases := s.phases[w := Idle])
  }

  /** A transaction that cannot take its step waits. */
  function Do(h: HashFunction, locking: bool, s: Db, a: Action): Db
  {
    if Enabled(locking, s, a) then Apply(h, s, a) else s
  }

  function Run(h: HashFunction, locking: bool, s: Db, actions: seq<Action>): Db
    decreases |actions|
  {
    if actions == [] then s
    else
      var n := |actions| - 1;
      Do(h, locking, Run(h, locking, s, actions[..n]), actions[n])
  }

  // ----- the invariant

  /** What the committed log looks like at any time. */
  ghost predicate GoodLog(h: HashFunction, log: seq<Row>, nextId: int)
  {
    && Linked(h, log)
    && Ordered(log)
    && PlainPayloads(log)
    && forall k :: 0 <= k < |log| ==> 1 <= log[k].id < nextId
  }

  /** What the lock holder has in hand still fits the end of the log. */
  ghost predicate FitsTail(h: HashFunction, s: Db, p: Phase)
  {
    match p
    case TailRead(prevHash) => prevHash == TailHash(s.log)
    case Inserted(row) =>
      && row.prevHash == TailHash(s.log)
      && row.hash == h(HashInput(row.prevHash, row.event))
      && Plain(row.event.payload)
      && 1 <= row.id < s.nextId
      && forall k :: 0 <= k < |s.log| ==> s.log[k].id < row.id
    case _ => true
  }

  ghost predicate Inv(h: HashFunction, s: Db)
  {
    && s.nextId >= 1
    && GoodLog(h, s.log, s.nextId)
    && (forall w: nat :: !PhaseOf(s, w).Idle? ==> s.lock == Some(w))
    && (forall w: nat :: FitsTail(h, s, PhaseOf(s, w)))
  }

  lemma InsertKeepsInv(h: HashFunction, s: Db, w: nat, input: Event, stored: Json)
    requires Inv(h, s) && Enabled(true, s, Insert(w, input, stored))
    ensures Inv(h, Apply(h, s, Insert(w, input, stored)))
  {
    ContentIffSameEvent(input, input.(payload := stored));
    var t := Apply(h, s, Insert(w, input, stored));
    forall v: nat
      ensures !PhaseOf(t, v).Idle? ==> t.lock == Some(v)
      ensures FitsTail(h, t, PhaseOf(t, v))
    {
      assert v != w ==> PhaseOf(t, v) == PhaseOf(s, v);
      assert FitsTail(h, s, PhaseOf(s, v));
      assert !PhaseOf(s, w).Idle?;
    }
  }

  /** A commit puts the row at the end, by id as by hash. */
  lemma CommitAppends(h: HashFunction, s: Db, w: nat)
    requires Inv(h, s) && PhaseOf(s, w).Inserted?
    ensures Apply(h, s, Commit(w)).log == s.log + [PhaseOf(s, w).row]
    ensures GoodLog(h, s.log + [PhaseOf(s, w).row], s.nextId)
  {
    var row := PhaseOf(s, w).row;
    assert FitsTail(h, s, Inserted(row));
    LinkedAppend(h, s.log, row);
  }

  lemma StepKeepsInv(h: HashFunction, s: Db, a: Action)
    requires Inv(h, s)
    ensures Inv(h, Do(h, true, s, a))
    ensures s.log <= Do(h, true, s, a).log
  {
    if Enabled(true, s, a) {
      match a
      case Insert(w, input, stored) => InsertKeepsInv(h, s, w, input, stored);
      case Commit(w) =>
        CommitAppends(h, s, w);
        var t := Apply(h, s, a);
        forall v: nat
          ensures PhaseOf(t, v).Idle?
        {
          assert v != w ==> PhaseOf(t, v) == PhaseOf(s, v);
          assert !PhaseOf(s, w).Idle?;
        }
      case _ => OtherStepsKeepInv(h, s, a);
    }
  }

  lemma OtherStepsKeepInv(h: HashFunction, s: Db, a: Action)
    requires Inv(h, s) && Enabled(true, s, a) && (a.Lock? || a.ReadTail? || a.Abort?)
    ensures Inv(h, Apply(h, s, a))
  {
    var t := Apply(h, s, a);
    forall v: nat
      ensures !PhaseOf(t, v).Idle? ==> t.lock == Some(v)
      ensures FitsTail(h, t, PhaseOf(t, v))
    {
      assert v != a.w ==> PhaseOf(t, v) == PhaseOf(s, v);
      assert FitsTail(h, s, PhaseOf(s, v));
      assert !PhaseOf(s, v).Idle? ==> s.lock == Some(v);
      assert !PhaseOf(s, a.w).Idle? ==> s.lock == Some(a.w);
    }
  }

  /** An undisturbed append. */
  lemma AppendOne(h: HashFunction, s: Db, e: Event)
    requires Inv(h, s) && s.lock.None? && Plain(e.payload)
    ensures var t := Do(h, true, Do(h, true, Do(h, true, Do(h, true, s, Lock(0)), ReadTail(0)), Insert(0, e, e.payload)), Commit(0));
            t.lock.None? && s.log <= t.log && |t.log| == |s.log| + 1
  {
    hide Linked, Ordered, InsertById, HashInput, Plain;
    assert PhaseOf(s, 0).Idle?;
    var s1 := Do(h, true, s, Lock(0));
    StepKeepsInv(h, s, Lock(0));
    var s2 := Do(h, true, s1, ReadTail(0));
    StepKeepsInv(h, s1, ReadTail(0));
    var s3 := Do(h, true, s2, Insert(0, e, e.payload));
    StepKeepsInv(h, s2, Insert(0, e, e.payload));
    CommitAppends(h, s3, 0);
    assert Do(h, true, s3, Commit(0)) == Apply(h, s3, Commit(0));
  }

  lemma InitialInv(h: HashFunction)
    ensures Inv(h, Initial)
  {
  }

  // ----- main results

  lemma {:induction false} RunKeepsInv(h: HashFunction, s: Db, actions: seq<Action>)
    requires Inv(h, s)
    ensures Inv(h, Run(h, true, s, actions)) && s.log <= Run(h, true, s, actions).log
    decreases |actions|
  {
    if actions != [] {
      var n := |actions| - 1;
      RunKeepsInv(h, s, actions[..n]);
      StepKeepsInv(h, Run(h, true, s, actions[..n]), actions[n]);
    }
  }

  /** Whatever the interleaving, the committed log is one well linked chain whose
      id order is its chain order. */
  lemma AppendsAreForkFree(h: HashFunction, actions: seq<Action>)
    ensures var s := Run(h, true, Initial, actions);
            Linked(h, s.log) && Ordered(s.log) && PlainPayloads(s.log)
  {
    InitialInv(h);
    RunKeepsInv(h, Initial, actions);
  }

  predicate Asked(e: Event, actions: seq<Action>)
  {
    exists i :: 0 <= i < |actions| && actions[i].Insert? && e == actions[i].input.(payload := actions[i].stored)
  }

  lemma StillAsked(e: Event, actions: seq<Action>)
    requires actions != [] && Asked(e, actions[..|actions| - 1])
    ensures Asked(e, actions)
  {
    var before := actions[..|actions| - 1];
    var i :| 0 <= i < |before| && before[i].Insert? && e == before[i].input.(payload := before[i].stored);
    assert actions[i] == before[i];
  }

  /** Where the rows of a step come from: the log, a row in flight, or what is asked now. */
  lemma StepAsks(h: HashFunction, s: Db, a: Action)
    requires Inv(h, s)
    ensures var t := Do(h, true, s, a);
            && (forall k :: 0 <= k < |t.log| ==>
                  t.log[k] in s.log || (PhaseOf(s, a.w).Inserted? && t.log[k] == PhaseOf(s, a.w).row))
            && (forall w: nat :: PhaseOf(t, w).Inserted? ==>
                  PhaseOf(t, w) == PhaseOf(s, w)
                  || (a.Insert? && PhaseOf(t, w).row.event == a.input.(payload := a.stored)))
  {
    hide Inv;
    if a.Commit? && Enabled(true, s, a) { CommitAppends(h, s, a.w); }
  }

  /** The log invents nothing: every row, committed or in flight, is an event
      some writer asked for. */
  lemma {:induction false} RowsWereAsked(h: HashFunction, actions: seq<Action>)
    ensures var s := Run(h, true, Initial, actions);
            && (forall k :: 0 <= k < |s.log| ==> Asked(s.log[k].event, actions))
            && (forall w: nat :: PhaseOf(s, w).Inserted? ==> Asked(PhaseOf(s, w).row.event, actions))
    decreases |actions|
  {
    if actions != [] {
      hide Do, Inv, Asked;
      var n := |actions| - 1;
      var s, a := Run(h, true, Initial, actions[..n]), actions[n];
      RowsWereAsked(h, actions[..n]);
      forall e | Asked(e, actions[..n])
        ensures Asked(e, actions)
      {
        StillAsked(e, actions);
      }
      InitialInv(h);
      RunKeepsInv(h, Initial, actions[..n]);
      StepAsks(h, s, a);
      if a.Insert? { AskedNow(actions); }
    }
  }

  lemma AskedNow(actions: seq<Action>)
    requires actions != [] && actions[|actions| - 1].Insert?
    ensures var a := actions[|actions| - 1]; Asked(a.input.(payload := a.stored), actions)
  {
  }

  lemma {:induction false} RunSplits(h: HashFunction, locking: bool, s: Db, first: seq<Action>, rest: seq<Action>)
    ensures Run(h, locking, s, first + rest) == Run(h, locking, Run(h, locking, s, first), rest)
    decreases |rest|
  {
    if rest == [] {
      assert first + rest == first;
    } else {
      var n := |rest| - 1;
      assert (first + rest)[..|first| + n] == first + rest[..n];
      RunSplits(h, locking, s, first, rest[..n]);
    }
  }

  /** Nothing committed is ever changed or lost by what happens later. */
  lemma CommittedStays(h: HashFunction, first: seq<Action>, rest: seq<Action>)
    ensures Run(h, true, Initial, first).log <= Run(h, true, Initial, first + rest).log
  {
    InitialInv(h);
    RunKeepsInv(h, Initial, first);
    RunKeepsInv(h, Run(h, true, Initial, first), rest);
    RunSplits(h, true, Initial, first, rest);
  }

  lemma RunTwoMore(h: HashFunction, actions: seq<Action>, s: Db, a: Action, b: Action)
    requires Run(h, false, Initial, actions) == s
    ensures Run(h, false, Initial, actions + [a, b]) == Do(h, false, Do(h, false, s, a), b)
  {
    var more := actions + [a, b];
    assert more[..|actions| + 1] == actions + [a];
    assert (actions + [a])[..|actions|] == actions;
    assert Run(h, false, Initial, actions + [a]) == Do(h, false, s, a);
  }

  function TwoReaders(): Db
  {
    Db([], 1, Some(1), map[0 := TailRead(GENESIS_HASH), 1 := TailRead(GENESIS_HASH)])
  }

  lemma TwoWritersRead(h: HashFunction)
    ensures Run(h, false, Initial, [Lock(0), Lock(1)] + [ReadTail(0), ReadTail(1)]) == TwoReaders()
  {
    var s2 := Do(h, false, Do(h, false, Initial, Lock(0)), Lock(1));
    RunTwoMore(h, [], Initial, Lock(0), Lock(1));
    assert [] + [Lock(0), Lock(1)] == [Lock(0), Lock(1)];
    RunTwoMore(h, [Lock(0), Lock(1)], s2, ReadTail(0), ReadTail(1));
    assert s2.phases == map[0 := Locked, 1 := Locked];
    assert s2.phases[0 := TailRead(GENESIS_HASH)][1 := TailRead(GENESIS_HASH)] == TwoReaders().phases;
  }

  /** The rows of the two writers: both link to the genesis value. */
  function ForkedRow(h: HashFunction, e: Event, id: int): Row
  {
    Row(id, e, GENESIS_HASH, h(HashInput(GENESIS_HASH, e)))
  }

  function BothInserted(h: HashFunction, e: Event): Db
  {
    Db([], 3, Some(1), map[0 := Inserted(ForkedRow(h, e, 1)), 1 := Inserted(ForkedRow(h, e, 2))])
  }

  lemma TwoWritersInsert(h: HashFunction, e: Event)
    requires Plain(e.payload)
    ensures Do(h, false, Do(h, false, TwoReaders(), Insert(0, e, e.payload)), Insert(1, e, e.payload)) ==
            BothInserted(h, e)
  {
    var s := Do(h, false, TwoReaders(), Insert(0, e, e.payload));
    var hash := h(HashInput(GENESIS_HASH, e));
    assert e.(payload := e.payload) == e;
    assert s.phases == map[0 := Inserted(Row(1, e, GENESIS_HASH, hash)), 1 := TailRead(GENESIS_HASH)];
    assert s.phases[1 := Inserted(Row(2, e, GENESIS_HASH, hash))] == BothInserted(h, e).phases;
  }

  lemma CommitsInOrder(h: HashFunction, s: Db, w: nat, row: Row)
    requires PhaseOf(s, w) == Inserted(row) && (s.log == [] || s.log[|s.log| - 1].id < row.id)
    ensures Do(h, false, s, Commit(w)) == Db(s.log + [row], s.nextId, None, s.phases[w := Idle])
  {
  }

  lemma ForkIsNotLinked(h: HashFunction, e: Event)
    requires h(HashInput(GENESIS_HASH, e)) != GENESIS_HASH
    ensures !Linked(h, [ForkedRow(h, e, 1), ForkedRow(h, e, 2)])
  {
    hide HashInput;
    assert !LinkedAt(h, [ForkedRow(h, e, 1), ForkedRow(h, e, 2)], 1);
  }

  lemma TwoWritersCommit(h: HashFunction, e: Event)
    requires h(HashInput(GENESIS_HASH, e)) != GENESIS_HASH
    ensures !Linked(h, Do(h, false, Do(h, false, BothInserted(h, e), Commit(0)), Commit(1)).log)
  {
    hide Linked, Do, HashInput, ForkedRow;
    var s, first, second := BothInserted(h, e), ForkedRow(h, e, 1), ForkedRow(h, e, 2);
    assert s.phases == map[0 := Inserted(first), 1 := Inserted(second)] && s.log == [] && first.id < second.id by {
      ForkedRows(h, e);
    }
    CommitsInOrder(h, s, 0, first);
    CommitsInOrder(h, Do(h, false, s, Commit(0)), 1, second);
    assert [] + [first] + [second] == [first, second];
    ForkIsNotLinked(h, e);
  }

  lemma ForkedRows(h: HashFunction, e: Event)
    ensures BothInserted(h, e).phases == map[0 := Inserted(ForkedRow(h, e, 1)), 1 := Inserted(ForkedRow(h, e, 2))]
    ensures ForkedRow(h, e, 1).id < ForkedRow(h, e, 2).id
  {
  }

  /** Two writers that do not lock both link to the same tail. */
  lemma ForkWithoutLock(h: HashFunction, e: Event) returns (actions: seq<Action>)
    requires Plain(e.payload) && h(HashInput(GENESIS_HASH, e)) != GENESIS_HASH
    ensures !Linked(h, Run(h, false, Initial, actions).log)
  {
    actions := [Lock(0), Lock(1)] + [ReadTail(0), ReadTail(1)];
    TwoWritersRead(h);
    var put0, put1 := Insert(0, e, e.payload), Insert(1, e, e.payload);
    RunTwoMore(h, actions, TwoReaders(), put0, put1);
    TwoWritersInsert(h, e);
    actions := actions + [put0, put1];
    RunTwoMore(h, actions, BothInserted(h, e), Commit(0), Commit(1));
    TwoWritersCommit(h, e);
    actions := actions + [Commit(0), Commit(1)];
  }

  /** The chain is safe from forks exactly because appends are serialised. */
  lemma ForkFreeIffLocking(h: HashFunction, locking: bool, e: Event)
    requires Plain(e.payload) && h(HashInput(GENESIS_HASH, e)) != GENESIS_HASH
    ensures (forall actions :: Linked(h, Run(h, locking, Initial, actions).log)) <==> locking
  {
    if locking {
      forall actions
        ensures Linked(h, Run(h, true, Initial, actions).log)
      {
        AppendsAreForkFree(h, actions);
      }
    } else {
      var actions := ForkWithoutLock(h, e);
      assert !Linked(h, Run(h, false, Initial, actions).log);
    }
  }
}
