/** The tamper-evident security event log (`src/audit/securityLog.ts`): what a
    row commits to, what a well linked chain is, and why the last hash of a chain
    pins its whole history.

    SHA-256 is a function `h` to 64 hexadecimal digits about which nothing is
    assumed but `Sound`: no collision, and no preimage of the genesis value, among
    the finitely many strings that the logs at hand hash. */
module SecurityLog {
  import opened Options
  import opened JsonText
  import opened CanonicalJson
  import JsonReader

  /** `'0'.repeat(n)` */
  function Zeros(n: nat): (s: string)
    ensures |s| == n && forall i :: 0 <= i < n ==> s[i] == '0'
  {
    if n == 0 then "" else "0" + Zeros(n - 1)
  }

  predicate HexDigest(s: string)
  {
    |s| == 64 && forall i :: 0 <= i < |s| ==> '0' <= s[i] <= '9' || 'a' <= s[i] <= 'f'
  }

  type Digest = s: string | HexDigest(s) witness Zeros(64)

  const GENESIS_HASH: Digest := Zeros(64)

  type HashFunction = string -> Digest

  /** The hashed columns of a row. `createdAt` is the ISO text of the time. */
  datatype Event = Event(
    orgId: Option<string>, eventType: string, severity: string, payload: Json, createdAt: string)

  /** A row of `security_events`. The id is not hashed. */
  datatype Row = Row(id: int, event: Event, prevHash: string, hash: string)

  function EventFields(e: Event): seq<Member>
  {
    [
      Member("orgId", match e.orgId case None => Null case Some(s) => Str(s)),
      Member("eventType", Str(e.eventType)),
      Member("severity", Str(e.severity)),
      Member("payload", e.payload),
      Member("createdAt", Str(e.createdAt))
    ]
  }

  /** `canonicalContent` */
  function Content(e: Event): string
  {
    CanonicalText(Obj(EventFields(e)))
  }

  /** Equal columns, the payload up to the order of object keys. */
  predicate SameEvent(e: Event, f: Event)
  {
    e.(payload := Null) == f.(payload := Null) && Meaning(e.payload) == Meaning(f.payload)
  }

  lemma EventIsPlain(e: Event)
    requires Plain(e.payload)
    ensures PlainMembers(EventFields(e))
  {
    RecordIsPlain(EventFields(e));
  }

  /** The content string commits to the event, and to nothing else. */
  lemma ContentIffSameEvent(e: Event, f: Event)
    requires Plain(e.payload) && Plain(f.payload)
    ensures Content(e) == Content(f) <==> SameEvent(e, f)
  {
    EventIsPlain(e);
    EventIsPlain(f);
    EventsAgree(e, f);
    RecordTextIffSameFields(EventFields(e), EventFields(f));
  }

  lemma EventsAgree(e: Event, f: Event)
    ensures SameFields(EventFields(e), EventFields(f)) <==> SameEvent(e, f)
  {
    var ms, ns := EventFields(e), EventFields(f);
    if SameFields(ms, ns) {
      assert Meaning(ms[0].value) == Meaning(ns[0].value) && Meaning(ms[1].value) == Meaning(ns[1].value);
      assert Meaning(ms[2].value) == Meaning(ns[2].value) && Meaning(ms[3].value) == Meaning(ns[3].value);
      assert Meaning(ms[4].value) == Meaning(ns[4].value);
    }
  }

  /** What is hashed is JSON: an object with exactly the five columns under their names. */
  lemma ContentParses(e: Event)
    requires Plain(e.payload)
    ensures var r := JsonReader.Parse(Content(e)); r.Some? && IsEventObject(Meaning(r.value), e)
  {
    hide JsonReader.Parse, CanonicalText, EventFields, IsEventObject;
    EventIsPlain(e);
    CanonicalTextParses(Obj(EventFields(e)));
    FieldsMean(e);
  }

  predicate IsEventObject(v: Value, e: Event)
  {
    && v.VObj?
    && (forall k :: k in v.members ==> k == "orgId" || k == "eventType" || k == "severity" || k == "payload" || k == "createdAt")
    && HasField(v.members, "orgId", match e.orgId case None => VNull case Some(s) => VStr(s))
    && HasField(v.members, "eventType", VStr(e.eventType))
    && HasField(v.members, "severity", VStr(e.severity))
    && HasField(v.members, "payload", Meaning(e.payload))
    && HasField(v.members, "createdAt", VStr(e.createdAt))
  }

  predicate HasField(m: map<string, Value>, key: string, v: Value)
  {
    key in m && m[key] == v
  }

  lemma FieldsMean(e: Event)
    requires Plain(e.payload)
    ensures IsEventObject(Meaning(Obj(EventFields(e))), e)
  {
    hide MeaningOfMembers, Keys;
    var ms := EventFields(e);
    EventIsPlain(e);
    RecordMeans(ms);
    FieldAt(ms, 0);
    FieldAt(ms, 1);
    FieldAt(ms, 2);
    FieldAt(ms, 3);
    FieldAt(ms, 4);
    forall k | k in MeaningOfMembers(ms)
      ensures k == "orgId" || k == "eventType" || k == "severity" || k == "payload" || k == "createdAt"
    {
      var i := KeyAt(ms, k);
      assert i == 0 || i == 1 || i == 2 || i == 3 || i == 4;
    }
  }

  lemma FieldAt(ms: seq<Member>, i: nat)
    requires PlainMembers(ms) && i < |ms|
    ensures HasField(MeaningOfMembers(ms), ms[i].key, Meaning(ms[i].value))
  {
    hide MeaningOfMembers;
    RecordMeans(ms);
  }

  lemma KeyAt(ms: seq<Member>, k: string) returns (i: nat)
    requires k in Keys(ms)
    ensures i < |ms| && ms[i].key == k
  {
    var m :| m in ms && m.key == k;
    i :| i < |ms| && ms[i] == m;
  }

  // ----- chains

  function HashInput(prevHash: string, e: Event): string
  {
    prevHash + "\n" + Content(e)
  }

  function TailHash(log: seq<Row>): string
  {
    if log == [] then GENESIS_HASH else log[|log| - 1].hash
  }

  /** Row `k` points at its predecessor and carries the hash of its content. */
  predicate LinkedAt(h: HashFunction, log: seq<Row>, k: nat)
    requires k < |log|
  {
    && log[k].prevHash == TailHash(log[..k])
    && log[k].hash == h(HashInput(log[k].prevHash, log[k].event))
  }

  predicate Linked(h: HashFunction, log: seq<Row>)
  {
    forall k :: 0 <= k < |log| ==> LinkedAt(h, log, k)
  }

  /** The log as `ORDER BY id` returns it. */
  predicate Ordered(log: seq<Row>)
  {
    forall i, j :: 0 <= i < j < |log| ==> log[i].id < log[j].id
  }

  predicate PlainPayloads(log: seq<Row>)
  {
    forall k :: 0 <= k < |log| ==> Plain(log[k].event.payload)
  }

  /** The strings hashed when a log is verified. */
  function HashInputs(log: seq<Row>): set<string>
  {
    set k | 0 <= k < |log| :: HashInput(log[k].prevHash, log[k].event)
  }

  /** What is assumed of SHA-256, on a finite set of inputs. */
  ghost predicate Sound(h: HashFunction, inputs: set<string>)
  {
    && (forall x, y :: x in inputs && y in inputs && h(x) == h(y) ==> x == y)
    && (forall x :: x in inputs ==> h(x) != GENESIS_HASH)
  }

  /** The same rows, ids apart, payloads up to key order. */
  predicate SameRecords(a: seq<Row>, b: seq<Row>)
  {
    && |a| == |b|
    && forall k :: 0 <= k < |a| ==>
         a[k].prevHash == b[k].prevHash && a[k].hash == b[k].hash && SameEvent(a[k].event, b[k].event)
  }

  lemma LinkedPrefix(h: HashFunction, log: seq<Row>, n: nat)
    requires Linked(h, log) && n <= |log|
    ensures Linked(h, log[..n]) && HashInputs(log[..n]) <= HashInputs(log)
  {
    forall k | 0 <= k < n
      ensures LinkedAt(h, log[..n], k)
    {
      assert LinkedAt(h, log, k);
      assert log[..n][..k] == log[..k];
    }
  }

  lemma LinkedAppend(h: HashFunction, log: seq<Row>, row: Row)
    requires Linked(h, log) && row.prevHash == TailHash(log) && row.hash == h(HashInput(row.prevHash, row.event))
    ensures Linked(h, log + [row])
  {
    var r := log + [row];
    forall k | 0 <= k < |r|
      ensures LinkedAt(h, r, k)
    {
      assert r[..k] == log[..k];
      assert k < |log| ==> LinkedAt(h, log, k);
    }
    assert log[..|log|] == log;
  }

  lemma TailIsDigest(h: HashFunction, log: seq<Row>)
    requires Linked(h, log)
    ensures |TailHash(log)| == 64
  {
    assert log != [] ==> LinkedAt(h, log, |log| - 1);
  }

  lemma HashInputUnique(p: string, q: string, e: Event, f: Event)
    requires |p| == |q| && HashInput(p, e) == HashInput(q, f)
    ensures p == q && Content(e) == Content(f)
  {
    assert p == HashInput(p, e)[..|p|] && q == HashInput(q, f)[..|q|];
    assert Content(e) == HashInput(p, e)[|p| + 1..] && Content(f) == HashInput(q, f)[|q| + 1..];
  }

  /** The last rows of two chains with the same last hash record the same. */
  lemma TailHashBindsLastRow(h: HashFunction, a: seq<Row>, b: seq<Row>)
    requires Linked(h, a) && Linked(h, b) && a != [] && b != []
    requires Sound(h, HashInputs(a) + HashInputs(b)) && TailHash(a) == TailHash(b)
    requires Plain(a[|a| - 1].event.payload) && Plain(b[|b| - 1].event.payload)
    ensures a[|a| - 1].prevHash == TailHash(a[..|a| - 1]) == TailHash(b[..|b| - 1]) == b[|b| - 1].prevHash
    ensures SameEvent(a[|a| - 1].event, b[|b| - 1].event)
  {
    var m, n := |a| - 1, |b| - 1;
    assert LinkedAt(h, a, m) && HashInput(a[m].prevHash, a[m].event) in HashInputs(a);
    assert LinkedAt(h, b, n) && HashInput(b[n].prevHash, b[n].event) in HashInputs(b);
    LinkedPrefix(h, a, m);
    LinkedPrefix(h, b, n);
    TailIsDigest(h, a[..m]);
    TailIsDigest(h, b[..n]);
    HashInputUnique(a[m].prevHash, b[n].prevHash, a[m].event, b[n].event);
    ContentIffSameEvent(a[m].event, b[n].event);
  }

  /** Only the empty chain ends in the genesis value. */
  lemma GenesisTail(h: HashFunction, log: seq<Row>)
    requires Linked(h, log) && Sound(h, HashInputs(log)) && log != []
    ensures TailHash(log) != GENESIS_HASH
  {
    var m := |log| - 1;
    assert LinkedAt(h, log, m) && HashInput(log[m].prevHash, log[m].event) in HashInputs(log);
  }

  lemma SoundPart(h: HashFunction, inputs: set<string>, part: set<string>)
    requires Sound(h, inputs) && part <= inputs
    ensures Sound(h, part)
  {
  }

  /** Two verified logs that end in the same hash. */
  ghost predicate SameEnd(h: HashFunction, a: seq<Row>, b: seq<Row>)
  {
    && Linked(h, a) && PlainPayloads(a)
    && Linked(h, b) && PlainPayloads(b)
    && Sound(h, HashInputs(a) + HashInputs(b))
    && TailHash(a) == TailHash(b)
  }

  lemma SameEndBefore(h: HashFunction, a: seq<Row>, b: seq<Row>)
    requires SameEnd(h, a, b) && a != [] && b != []
    ensures SameEnd(h, a[..|a| - 1], b[..|b| - 1])
  {
    var a', b' := a[..|a| - 1], b[..|b| - 1];
    TailHashBindsLastRow(h, a, b);
    LinkedPrefix(h, a, |a| - 1);
    LinkedPrefix(h, b, |b| - 1);
    SoundPart(h, HashInputs(a) + HashInputs(b), HashInputs(a') + HashInputs(b'));
  }

  lemma SameEndEmpty(h: HashFunction, a: seq<Row>, b: seq<Row>)
    requires SameEnd(h, a, b)
    ensures a == [] <==> b == []
  {
    SoundPart(h, HashInputs(a) + HashInputs(b), HashInputs(a));
    SoundPart(h, HashInputs(a) + HashInputs(b), HashInputs(b));
    if a != [] { GenesisTail(h, a); }
    if b != [] { GenesisTail(h, b); }
  }

  /** Chain binding, by induction from the last row backwards: whoever presents
      a well linked chain with the same last hash presents the same history. */
  lemma {:induction false} TailHashBindsHistory(h: HashFunction, a: seq<Row>, b: seq<Row>)
    requires SameEnd(h, a, b)
    ensures SameRecords(a, b)
  {
    SameEndEmpty(h, a, b);
    if a != [] {
      var a', b', r, q := a[..|a| - 1], b[..|b| - 1], a[|a| - 1], b[|b| - 1];
      assert a == a' + [r] && b == b' + [q];
      SameEndBefore(h, a, b);
      TailHashBindsHistory(h, a', b');
      TailHashBindsLastRow(h, a, b);
      assert r.hash == q.hash;
      SameRecordsAppend(a', b', r, q);
    }
  }

  lemma SameRecordsAppend(a: seq<Row>, b: seq<Row>, r: Row, q: Row)
    requires SameRecords(a, b)
    requires r.prevHash == q.prevHash && r.hash == q.hash && SameEvent(r.event, q.event)
    ensures SameRecords(a + [r], b + [q])
  {
  }

  lemma NotGenesis(h: HashFunction, log: seq<Row>, k: nat)
    requires Linked(h, log) && Sound(h, HashInputs(log)) && k < |log|
    ensures log[k].hash != GENESIS_HASH
  {
    assert LinkedAt(h, log, k) && HashInput(log[k].prevHash, log[k].event) in HashInputs(log);
  }

  lemma TailOfPrefix(log: seq<Row>, n: nat)
    requires n <= |log|
    ensures TailHash(log[..n]) == if n == 0 then GENESIS_HASH else log[n - 1].hash
  {
  }

  /** Every hash of a chain occurs once, and none is the genesis value. */
  lemma {:induction false} HashesDistinct(h: HashFunction, log: seq<Row>, i: nat, j: nat)
    requires Linked(h, log) && Sound(h, HashInputs(log)) && i < j < |log|
    ensures log[i].hash != log[j].hash && log[i].hash != GENESIS_HASH
  {
    assert LinkedAt(h, log, i) && LinkedAt(h, log, j);
    var x, y := HashInput(log[i].prevHash, log[i].event), HashInput(log[j].prevHash, log[j].event);
    assert x in HashInputs(log) && y in HashInputs(log);
    assert LinkedAt(h, log, j - 1);
    assert HashInput(log[j - 1].prevHash, log[j - 1].event) in HashInputs(log);
    if log[i].hash == log[j].hash {
      LinkedPrefix(h, log, i);
      LinkedPrefix(h, log, j);
      TailIsDigest(h, log[..i]);
      TailIsDigest(h, log[..j]);
      HashInputUnique(log[i].prevHash, log[j].prevHash, log[i].event, log[j].event);
      if i > 0 {
        HashesDistinct(h, log, i - 1, j - 1);
      }
    }
  }

  // ----- one append, as one transaction

  class EventStore {
    var log: seq<Row>
    /** The `bigserial` counter: the next id. */
    var nextId: int
    const h: HashFunction

    ghost predicate Valid()
      reads this
    {
      && Linked(h, log)
      && Ordered(log)
      && forall k :: 0 <= k < |log| ==> log[k].id < nextId
    }

    constructor (h: HashFunction)
      ensures Valid() && log == [] && nextId == 1 && this.h == h
    {
      this.h := h;
      log := [];
      nextId := 1;
    }

    /** `appendSecurityEvent`, run without interference. */
    method AppendSecurityEvent(orgId: Option<string>, eventType: string, severity: string, payload: Json, now: string)
      returns (id: int, hash: string)
      requires Valid()
      modifies this
      ensures Valid()
      ensures id == old(nextId) && nextId == id + 1 && hash == TailHash(log)
      ensures |log| == |old(log)| + 1 && log[..|old(log)|] == old(log)
      ensures log[|old(log)|].id == id
      ensures log[|old(log)|].event == Event(orgId, eventType, severity, payload, now)
    {
      var prevHash := if log == [] then GENESIS_HASH else log[|log| - 1].hash;
      var event := Event(orgId, eventType, severity, payload, now);
      hash := h(HashInput(prevHash, event));
      var row := Row(nextId, event, prevHash, hash);
      LinkedAppend(h, log, row);
      id := nextId;
      log, nextId := log + [row], nextId + 1;
    }
  }
}
