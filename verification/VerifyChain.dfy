/** The offline verifier of the hash chain (`src/audit/verifyChain.ts`), and what
    its answer says about a log somebody has tampered with. */
module VerifyChain {
  import opened JsonText
  import opened SecurityLog

  datatype Reason = HashMismatch | PrevHashMismatch

  datatype ChainVerification =
    | Intact(length: nat)
    | Broken(length: nat, brokenAt: int, reason: Reason)

  /** Row `k` is the first bad one, and `reason` says which check it fails. */
  ghost predicate FirstFault(h: HashFunction, rows: seq<Row>, k: nat, reason: Reason)
  {
    && k < |rows|
    && Linked(h, rows[..k])
    && !LinkedAt(h, rows, k)
    && (reason == PrevHashMismatch <==> rows[k].prevHash != TailHash(rows[..k]))
  }

  /** The answers the verifier may give. */
  ghost predicate Reports(h: HashFunction, rows: seq<Row>, v: ChainVerification)
  {
    && v.length == |rows|
    && match v
       case Intact(_) => Linked(h, rows)
       case Broken(_, id, reason) => exists k: nat :: FirstFault(h, rows, k, reason) && rows[k].id == id
  }

  method VerifyChain(h: HashFunction, rows: seq<Row>) returns (v: ChainVerification)
    ensures Reports(h, rows, v)
    ensures v.Intact? <==> Linked(h, rows)
  {
    var prevHash := GENESIS_HASH;
    for i := 0 to |rows|
      invariant prevHash == TailHash(rows[..i])
      invariant Linked(h, rows[..i])
    {
      var row := rows[i];
      if row.prevHash != prevHash {
        assert FirstFault(h, rows, i, PrevHashMismatch);
        return Broken(|rows|, row.id, PrevHashMismatch);
      }
      var expected := h(HashInput(prevHash, row.event));
      if expected != row.hash {
        assert FirstFault(h, rows, i, HashMismatch);
        return Broken(|rows|, row.id, HashMismatch);
      }
      LinkedAppend(h, rows[..i], row);
      assert rows[..i + 1] == rows[..i] + [row];
      prevHash := expected;
    }
    assert rows[..|rows|] == rows;
    return Intact(|rows|);
  }

  lemma LinkedBefore(h: HashFunction, rows: seq<Row>, i: nat, k: nat)
    requires i <= |rows| && Linked(h, rows[..i]) && k < i
    ensures LinkedAt(h, rows, k)
  {
    assert LinkedAt(h, rows[..i], k) && rows[..i][..k] == rows[..k];
  }

  lemma FirstFaultUnique(h: HashFunction, rows: seq<Row>, i: nat, r: Reason, j: nat, q: Reason)
    requires FirstFault(h, rows, i, r) && FirstFault(h, rows, j, q)
    ensures i == j && r == q
  {
    if i < j { LinkedBefore(h, rows, j, i); }
    if j < i { LinkedBefore(h, rows, i, j); }
  }

  /** The verifier's answer, once the first fault of the log is known. */
  lemma FaultDecides(h: HashFunction, rows: seq<Row>, k: nat, reason: Reason, v: ChainVerification)
    requires FirstFault(h, rows, k, reason) && Reports(h, rows, v)
    ensures v == Broken(|rows|, rows[k].id, reason)
  {
    assert !Linked(h, rows);
    var j: nat :| FirstFault(h, rows, j, v.reason) && rows[j].id == v.brokenAt;
    FirstFaultUnique(h, rows, k, reason, j, v.reason);
  }

  // ----- locating a fault

  /** Taking a block of rows out of the middle is reported at its successor. */
  lemma RemovalIsLocated(h: HashFunction, log: seq<Row>, i: nat, j: nat, v: ChainVerification)
    requires Linked(h, log) && Sound(h, HashInputs(log)) && i < j < |log|
    requires Reports(h, log[..i] + log[j..], v)
    ensures v == Broken(|log| - (j - i), log[j].id, PrevHashMismatch)
  {
    var t := log[..i] + log[j..];
    LinkedPrefix(h, log, i);
    assert t[..i] == log[..i] && t[i] == log[j];
    TailsDiffer(h, log, i, j);
    assert LinkedAt(h, log, j);
    assert FirstFault(h, t, i, PrevHashMismatch);
    FaultDecides(h, t, i, PrevHashMismatch, v);
  }

  /** Chains of different length end in different hashes. */
  lemma TailsDiffer(h: HashFunction, log: seq<Row>, i: nat, j: nat)
    requires Linked(h, log) && Sound(h, HashInputs(log)) && i < j <= |log|
    ensures TailHash(log[..i]) != TailHash(log[..j])
  {
    TailOfPrefix(log, i);
    TailOfPrefix(log, j);
    if i == 0 { NotGenesis(h, log, j - 1); } else { HashesDistinct(h, log, i - 1, j - 1); }
  }

  lemma EditChangesHash(h: HashFunction, log: seq<Row>, k: nat, e: Event)
    requires Linked(h, log) && k < |log| && Plain(e.payload) && Plain(log[k].event.payload)
    requires Sound(h, HashInputs(log) + {HashInput(log[k].prevHash, e)})
    requires !SameEvent(e, log[k].event)
    ensures h(HashInput(log[k].prevHash, e)) != log[k].hash
  {
    assert LinkedAt(h, log, k) && HashInput(log[k].prevHash, log[k].event) in HashInputs(log);
    ContentIffSameEvent(e, log[k].event);
    if h(HashInput(log[k].prevHash, e)) == log[k].hash {
      HashInputUnique(log[k].prevHash, log[k].prevHash, e, log[k].event);
    }
  }

  /** A changed event is reported at its row; a mere change of key order passes. */
  lemma EditIsLocated(h: HashFunction, log: seq<Row>, k: nat, e: Event, v: ChainVerification)
    requires Linked(h, log) && k < |log| && Plain(e.payload) && Plain(log[k].event.payload)
    requires Sound(h, HashInputs(log) + {HashInput(log[k].prevHash, e)})
    requires Reports(h, log[k := log[k].(event := e)], v)
    ensures v == if SameEvent(e, log[k].event) then Intact(|log|) else Broken(|log|, log[k].id, HashMismatch)
  {
    var t := log[k := log[k].(event := e)];
    assert LinkedAt(h, log, k);
    LinkedPrefix(h, log, k);
    assert t[..k] == log[..k];
    if SameEvent(e, log[k].event) {
      ContentIffSameEvent(e, log[k].event);
      forall i | 0 <= i < |t|
        ensures LinkedAt(h, t, i)
      {
        assert LinkedAt(h, log, i);
        SameTails(log, t, i);
      }
    } else {
      EditChangesHash(h, log, k, e);
      assert FirstFault(h, t, k, HashMismatch);
      FaultDecides(h, t, k, HashMismatch, v);
    }
  }

  lemma SameTails(a: seq<Row>, b: seq<Row>, i: nat)
    requires |a| == |b| && i <= |a| && forall k :: 0 <= k < |a| ==> a[k].hash == b[k].hash
    ensures TailHash(a[..i]) == TailHash(b[..i])
  {
  }

  /** A well hashed row in the place of another leaves its successor dangling. */
  lemma ReplacedRow(h: HashFunction, log: seq<Row>, k: nat, row: Row)
    requires Linked(h, log) && k + 1 < |log|
    requires row.prevHash == log[k].prevHash && row.hash == h(HashInput(row.prevHash, row.event))
    requires row.hash != log[k].hash
    ensures FirstFault(h, log[k := row], k + 1, PrevHashMismatch)
  {
    var t := log[k := row];
    assert LinkedAt(h, log, k) && LinkedAt(h, log, k + 1);
    LinkedPrefix(h, log, k);
    LinkedAppend(h, log[..k], row);
    assert t[..k + 1] == log[..k] + [row];
    TailOfPrefix(t, k + 1);
    TailOfPrefix(log, k + 1);
  }

  /** Recomputing the hash of the changed row moves the report to the next row. */
  lemma RehashedEditIsLocated(h: HashFunction, log: seq<Row>, k: nat, e: Event, v: ChainVerification)
    requires Linked(h, log) && k + 1 < |log| && Plain(e.payload) && Plain(log[k].event.payload)
    requires Sound(h, HashInputs(log) + {HashInput(log[k].prevHash, e)})
    requires !SameEvent(e, log[k].event)
    requires Reports(h, log[k := log[k].(event := e, hash := h(HashInput(log[k].prevHash, e)))], v)
    ensures v == Broken(|log|, log[k + 1].id, PrevHashMismatch)
  {
    var row := log[k].(event := e, hash := h(HashInput(log[k].prevHash, e)));
    EditChangesHash(h, log, k, e);
    ReplacedRow(h, log, k, row);
    FaultDecides(h, log[k := row], k + 1, PrevHashMismatch, v);
  }

  // ----- what rearranging the rows can achieve

  predicate SameRow(r: Row, q: Row)
  {
    r.(id := 0) == q.(id := 0)
  }

  predicate Occurs(r: Row, log: seq<Row>)
  {
    exists j :: 0 <= j < |log| && SameRow(r, log[j])
  }

  /** `t` is put together from rows of `log`: dropped, repeated, reordered or
      renumbered at will. */
  predicate DrawnFrom(t: seq<Row>, log: seq<Row>)
  {
    forall k :: 0 <= k < |t| ==> Occurs(t[k], log)
  }

  predicate PrefixUpToIds(t: seq<Row>, log: seq<Row>)
  {
    |t| <= |log| && forall k :: 0 <= k < |t| ==> SameRow(t[k], log[k])
  }

  /** The rows of an accepted log can be rearranged into an accepted log in one
      way only: by dropping rows at the end. */
  lemma RearrangedIffPrefix(h: HashFunction, log: seq<Row>, t: seq<Row>)
    requires Linked(h, log) && Sound(h, HashInputs(log)) && DrawnFrom(t, log)
    ensures Linked(h, t) <==> PrefixUpToIds(t, log)
  {
    if Linked(h, t) { RearrangedIsPrefix(h, log, t); }
    if PrefixUpToIds(t, log) {
      forall k | 0 <= k < |t|
        ensures LinkedAt(h, t, k)
      {
        assert LinkedAt(h, log, k);
        assert SameRow(t[k], log[k]) && (k > 0 ==> SameRow(t[k - 1], log[k - 1]));
      }
    }
  }

  lemma {:induction false} RearrangedIsPrefix(h: HashFunction, log: seq<Row>, t: seq<Row>)
    requires Linked(h, log) && Sound(h, HashInputs(log)) && DrawnFrom(t, log) && Linked(h, t)
    ensures PrefixUpToIds(t, log)
  {
    if t != [] {
      var n := |t| - 1;
      var t' := t[..n];
      LinkedPrefix(h, t, n);
      assert forall k :: 0 <= k < n ==> t'[k] == t[k];
      RearrangedIsPrefix(h, log, t');
      NextRowUnique(h, log, t);
      assert forall k :: 0 <= k < n ==> SameRow(t'[k], log[k]);
    }
  }

  lemma NextRowUnique(h: HashFunction, log: seq<Row>, t: seq<Row>)
    requires Linked(h, log) && Sound(h, HashInputs(log)) && DrawnFrom(t, log) && Linked(h, t) && t != []
    requires PrefixUpToIds(t[..|t| - 1], log)
    ensures |t| <= |log| && SameRow(t[|t| - 1], log[|t| - 1])
  {
    var n := |t| - 1;
    assert LinkedAt(h, t, n);
    assert Occurs(t[n], log);
    var j: nat :| j < |log| && SameRow(t[n], log[j]);
    TailOfPrefix(t, n);
    TailOfPrefix(log, n);
    assert n > 0 ==> SameRow(t[..n][n - 1], log[n - 1]);
    assert LinkedAt(h, log, j);
    if j < n { TailsDiffer(h, log, j, n); }
    if n < j { TailsDiffer(h, log, n, j); }
  }
}
