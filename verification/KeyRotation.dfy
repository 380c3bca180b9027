/** Envelope key rotation (`src/admin/encryption.ts`): each organisation has a
    versioned data key, and rotating it re-encrypts, page by page, every chunk and
    message that the caller's row policies show. */
module KeyRotation {
  import opened Arithmetic
  import opened Options

  type Key = string

  /** AES-256-GCM and the base64 around it, with the random initialisation vector as
      an argument. Opening can fail. */
  datatype Crypto = Crypto(seal: (string, Key, nat) -> string, open: (string, Key) -> Option<string>)

  ghost predicate Inverts(c: Crypto)
  {
    forall p: string, k: Key, iv: nat :: c.open(c.seal(p, k, iv), k) == Some(p)
  }

  /** What one key has sealed no other opens. */
  ghost predicate Authentic(c: Crypto)
  {
    forall p: string, k: Key, j: Key, iv: nat :: j != k ==> c.open(c.seal(p, k, iv), j).None?
  }

  /** A key written so that no key's code starts with another's. */
  function Code(k: Key): string
  {
    if k == "" then "." else ['+', k[0]] + Code(k[1..])
  }

  lemma {:induction false} CodesDiffer(k: Key, j: Key, p: string)
    requires Code(j) <= Code(k) + p
    ensures j == k
  {
    if k != "" && j != "" {
      assert Code(j)[1] == (Code(k) + p)[1];
      assert Code(k)[2..] == Code(k[1..]) && (Code(k) + p)[2..] == Code(k[1..]) + p;
      assert Code(j)[2..] == Code(j[1..]);
      CodesDiffer(k[1..], j[1..], p);
      assert k == [k[0]] + k[1..] && j == [j[0]] + j[1..];
    } else {
      assert Code(j)[0] == (Code(k) + p)[0];
    }
  }

  /** The assumptions on the cipher can be met together. */
  lemma AssumptionsAreConsistent()
    ensures exists c :: Inverts(c) && Authentic(c)
  {
    var c := Crypto(
      (p: string, k: Key, iv: nat) => Code(k) + p,
      (blob: string, k: Key) => if Code(k) <= blob then Some(blob[|Code(k)|..]) else None);
    forall p: string, k: Key, j: Key, iv: nat | j != k
      ensures c.open(c.seal(p, k, iv), j).None?
    {
      if Code(j) <= Code(k) + p { CodesDiffer(k, j, p); }
    }
    forall p: string, k: Key, iv: nat
      ensures c.open(c.seal(p, k, iv), k) == Some(p)
    {
      assert (Code(k) + p)[|Code(k)|..] == p;
    }
    assert Inverts(c) && Authentic(c);
  }

  /** A chunk, with the rank of its classification, or a message. */
  datatype Row = Row(id: nat, orgId: nat, rank: Option<int>, content: string)

  datatype KeyRow = KeyRow(orgId: nat, keyVersion: nat, keyEncrypted: string, active: bool)

  datatype Context = Context(orgId: nat, clearance: int)

  // ----- the tables

  /** Tables are listed in the order of their unique ids. */
  predicate Table(rows: seq<Row>)
  {
    forall i, j :: 0 <= i < j < |rows| ==> rows[i].id < rows[j].id
  }

  /** The row policies. */
  predicate Visible(row: Row, ctx: Context)
  {
    row.orgId == ctx.orgId && (row.rank.Some? ==> row.rank.value <= ctx.clearance)
  }

  function Shown(rows: seq<Row>, ctx: Context): (r: seq<Row>)
    ensures |r| <= |rows|
  {
    if rows == [] then []
    else
      var n := |rows| - 1;
      Shown(rows[..n], ctx) + if Visible(rows[n], ctx) then [rows[n]] else []
  }

  /** `ORDER BY id LIMIT .. OFFSET ..` */
  function Page(rows: seq<Row>, ctx: Context, limit: nat, offset: nat): seq<Row>
  {
    var all := Shown(rows, ctx);
    all[Min(offset, |all|)..Min(offset + limit, |all|)]
  }

  /** `UPDATE .. WHERE id = ..` */
  function SetContent(rows: seq<Row>, id: nat, content: string): (r: seq<Row>)
    ensures |r| == |rows|
    ensures forall i :: 0 <= i < |rows| ==> r[i] == if rows[i].id == id then rows[i].(content := content) else rows[i]
  {
    if rows == [] then []
    else
      var n := |rows| - 1;
      SetContent(rows[..n], id, content) + [if rows[n].id == id then rows[n].(content := content) else rows[n]]
  }

  // ----- what re-encrypting does

  /** From which key to which, for whom, and the random draws, from the `base`-th on. */
  datatype Job = Job(c: Crypto, from: Key, to: Key, ctx: Context, draw: nat -> nat, base: nat)

  predicate Readable(row: Row, job: Job)
  {
    job.c.open(row.content, job.from).Some?
  }

  predicate AllReadable(rows: seq<Row>, job: Job)
  {
    forall i :: 0 <= i < |rows| && Visible(rows[i], job.ctx) ==> Readable(rows[i], job)
  }

  function Rekeyed(row: Row, job: Job, iv: nat): Row
    requires Readable(row, job)
  {
    row.(content := job.c.seal(job.c.open(row.content, job.from).value, job.to, iv))
  }

  /** How many visible rows come before the `i`-th row. */
  function Place(rows: seq<Row>, i: nat, ctx: Context): nat
    requires i <= |rows|
  {
    |Shown(rows[..i], ctx)|
  }

  function After(row: Row, place: nat, k: nat, job: Job): Row
  {
    if Visible(row, job.ctx) && Readable(row, job) && place < k then Rekeyed(row, job, job.draw(job.base + place)) else row
  }

  /** The table once its first `k` visible rows have been re-encrypted, each with a
      draw of its own. */
  function RekeyedTo(rows: seq<Row>, k: nat, job: Job): (r: seq<Row>)
    ensures |r| == |rows|
  {
    if rows == [] then []
    else
      var n := |rows| - 1;
      RekeyedTo(rows[..n], k, job) + [After(rows[n], Place(rows, n, job.ctx), k, job)]
  }

  lemma {:induction false} RekeyedAt(rows: seq<Row>, k: nat, job: Job, i: nat)
    requires i < |rows|
    ensures RekeyedTo(rows, k, job)[i] == After(rows[i], Place(rows, i, job.ctx), k, job)
  {
    hide After, Shown;
    var n := |rows| - 1;
    if i < n {
      RekeyedAt(rows[..n], k, job, i);
      assert rows[..n][..i] == rows[..i];
    }
  }

  function RekeyedAll(rows: seq<Row>, job: Job): (r: seq<Row>)
    ensures |r| == |rows|
  {
    RekeyedTo(rows, |Shown(rows, job.ctx)|, job)
  }

  // ----- the paging loop

  lemma {:induction false} PlacesIncrease(rows: seq<Row>, i: nat, j: nat, ctx: Context)
    requires i < j <= |rows|
    ensures Place(rows, i, ctx) <= Place(rows, j, ctx) <= |Shown(rows, ctx)|
    ensures Visible(rows[i], ctx) ==> Place(rows, i, ctx) < Place(rows, j, ctx)
  {
    if j < |rows| {
      assert rows[..|rows| - 1][..i] == rows[..i] && rows[..|rows| - 1][..j] == rows[..j];
      PlacesIncrease(rows[..|rows| - 1], i, j, ctx);
    } else if i < |rows| - 1 {
      assert rows[..|rows|] == rows && rows[..|rows| - 1][..i] == rows[..i];
      assert rows[..|rows| - 1][..|rows| - 1] == rows[..|rows| - 1];
      PlacesIncrease(rows[..|rows| - 1], i, |rows| - 1, ctx);
    } else {
      assert rows[..|rows|] == rows;
    }
  }

  /** The row at a place of the visible list. */
  lemma {:induction false} RowAt(rows: seq<Row>, k: nat, ctx: Context) returns (i: nat)
    requires k < |Shown(rows, ctx)|
    ensures i < |rows| && Visible(rows[i], ctx) && Place(rows, i, ctx) == k && Shown(rows, ctx)[k] == rows[i]
  {
    var n := |rows| - 1;
    if k < |Shown(rows[..n], ctx)| {
      i := RowAt(rows[..n], k, ctx);
      assert rows[..n][..i] == rows[..i];
    } else {
      i := n;
    }
  }

  /** Re-encrypting keeps the visible list but for the contents at its start. */
  lemma {:induction false} ShownOfRekeyed(rows: seq<Row>, k: nat, job: Job)
    ensures var a, b := Shown(RekeyedTo(rows, k, job), job.ctx), Shown(rows, job.ctx);
            |a| == |b| && forall q :: k <= q < |b| ==> a[q] == b[q]
  {
    if rows != [] {
      var n := |rows| - 1;
      ShownOfRekeyed(rows[..n], k, job);
      assert RekeyedTo(rows, k, job)[..n] == RekeyedTo(rows[..n], k, job);
      AfterStep(rows[n], Place(rows, n, job.ctx), k, job);
    }
  }

  /** One update does the next visible row and no other. */
  lemma NextRow(rows: seq<Row>, k: nat, job: Job)
    requires Table(rows) && k < |Shown(rows, job.ctx)| && Readable(Shown(rows, job.ctx)[k], job)
    ensures var row := Shown(rows, job.ctx)[k];
            SetContent(RekeyedTo(rows, k, job), row.id, Rekeyed(row, job, job.draw(job.base + k)).content) ==
            RekeyedTo(rows, k + 1, job)
  {
    hide Shown, RekeyedTo, SetContent, After, Rekeyed;
    var p := RowAt(rows, k, job.ctx);
    var next := Rekeyed(rows[p], job, job.draw(job.base + k));
    assert next == rows[p].(content := next.content) by { RekeyedContent(rows[p], job, job.draw(job.base + k)); }
    var a := SetContent(RekeyedTo(rows, k, job), rows[p].id, next.content);
    forall i | 0 <= i < |rows|
      ensures a[i] == RekeyedTo(rows, k + 1, job)[i]
    {
      RekeyedAt(rows, k, job, i);
      RekeyedAt(rows, k + 1, job, i);
      AfterStep(rows[i], Place(rows, i, job.ctx), k, job);
      if i < p { PlacesIncrease(rows, i, p, job.ctx); }
      if i > p { PlacesIncrease(rows, p, i, job.ctx); }
    }
  }

  lemma RekeyedContent(row: Row, job: Job, iv: nat)
    requires Readable(row, job)
    ensures Rekeyed(row, job, iv) == row.(content := Rekeyed(row, job, iv).content)
  {
  }

  lemma AfterStep(row: Row, place: nat, k: nat, job: Job)
    ensures After(row, place, k, job).id == row.id
    ensures !Visible(row, job.ctx) || place != k ==> After(row, place, k + 1, job) == After(row, place, k, job)
    ensures place == k ==> After(row, place, k, job) == row
    ensures place == k && Visible(row, job.ctx) && Readable(row, job) ==>
              After(row, place, k + 1, job) == Rekeyed(row, job, job.draw(job.base + k))
  {
  }

  lemma {:induction false} NothingYet(rows: seq<Row>, job: Job)
    ensures RekeyedTo(rows, 0, job) == rows
  {
    hide Shown, Visible, Readable;
    if rows != [] { NothingYet(rows[..|rows| - 1], job); }
  }

  lemma PageOf(rows: seq<Row>, k: nat, job: Job)
    requires k <= |Shown(rows, job.ctx)|
    ensures var page := Page(RekeyedTo(rows, k, job), job.ctx, BATCH, k);
            && |page| == Min(BATCH, |Shown(rows, job.ctx)| - k)
            && forall q :: 0 <= q < |page| ==> page[q] == Shown(rows, job.ctx)[k + q]
  {
    hide Shown, RekeyedTo;
    ShownOfRekeyed(rows, k, job);
  }

  const BATCH: nat := 100

  /** The batch loop, the same for chunks and messages. It fails, to roll the whole
      transaction back, exactly if a visible row does not open; else it has done every
      visible row once, whatever the number of pages, and counted them. */
  method Reencrypt(table: seq<Row>, job: Job) returns (r: Option<(seq<Row>, nat)>)
    requires Table(table)
    ensures r.Some? <==> AllReadable(table, job)
    ensures r.Some? ==> r.value == (RekeyedAll(table, job), |Shown(table, job.ctx)|)
  {
    hide Shown, RekeyedTo, SetContent;
    var rows, total, offset := table, 0, 0;
    NothingYet(table, job);
    while true
      invariant total == offset <= |Shown(table, job.ctx)|
      invariant rows == RekeyedTo(table, total, job)
      invariant forall q :: 0 <= q < total ==> Readable(Shown(table, job.ctx)[q], job)
      decreases |Shown(table, job.ctx)| - offset
    {
      PageOf(table, total, job);
      var page := Page(rows, job.ctx, BATCH, offset);
      if |page| == 0 { break; }
      for q := 0 to |page|
        invariant total == offset + q
        invariant rows == RekeyedTo(table, total, job)
        invariant forall z :: 0 <= z < total ==> Readable(Shown(table, job.ctx)[z], job)
      {
        var plain := job.c.open(page[q].content, job.from);
        if plain.None? {
          var i := RowAt(table, total, job.ctx);
          return None;
        }
        NextRow(table, total, job);
        rows := SetContent(rows, page[q].id, job.c.seal(plain.value, job.to, job.draw(job.base + total)));
        total := total + 1;
      }
      if |page| < BATCH { break; }
      offset := offset + BATCH;
    }
    forall i | 0 <= i < |table| && Visible(table[i], job.ctx)
      ensures Readable(table[i], job)
    {
      PlaceOf(table, i, job.ctx);
    }
    return Some((rows, total));
  }

  /** A visible row is in the visible list, at its place. */
  lemma {:induction false} PlaceOf(rows: seq<Row>, i: nat, ctx: Context)
    requires i < |rows| && Visible(rows[i], ctx)
    ensures Place(rows, i, ctx) < |Shown(rows, ctx)| && Shown(rows, ctx)[Place(rows, i, ctx)] == rows[i]
  {
    var n := |rows| - 1;
    if i < n {
      PlaceOf(rows[..n], i, ctx);
      assert rows[..n][..i] == rows[..i];
    }
  }

  lemma RekeyedKeepsIds(rows: seq<Row>, job: Job)
    requires Table(rows)
    ensures Table(RekeyedAll(rows, job))
  {
    hide Shown, RekeyedTo;
    var k := |Shown(rows, job.ctx)|;
    forall i | 0 <= i < |rows|
      ensures RekeyedAll(rows, job)[i].id == rows[i].id
    {
      RekeyedAt(rows, k, job, i);
    }
  }

  // ----- key versions

  datatype Store = Store(chunks: seq<Row>, messages: seq<Row>, keys: seq<KeyRow>)

  /** The cipher, the master key that wraps data keys, and the tenant keys that data
      was sealed with before the first version. */
  datatype Env = Env(c: Crypto, kek: Key, legacy: nat -> Key)

  predicate IsActive(key: KeyRow, orgId: nat)
  {
    key.orgId == orgId && key.active
  }

  /** `WHERE active LIMIT 1` */
  function ActiveIndex(keys: seq<KeyRow>, orgId: nat): (r: Option<nat>)
    ensures r.Some? ==> r.value < |keys| && IsActive(keys[r.value], orgId)
    ensures r.None? ==> forall i :: 0 <= i < |keys| ==> !IsActive(keys[i], orgId)
  {
    if keys == [] then None
    else
      var n := |keys| - 1;
      if IsActive(keys[n], orgId) then Some(n) else ActiveIndex(keys[..n], orgId)
  }

  /** `UNIQUE (org_id, key_version)` would be violated. */
  predicate Taken(keys: seq<KeyRow>, orgId: nat, version: nat)
  {
    exists i :: 0 <= i < |keys| && keys[i].orgId == orgId && keys[i].keyVersion == version
  }

  function ActiveDek(keys: seq<KeyRow>, orgId: nat, env: Env): Option<Key>
  {
    match ActiveIndex(keys, orgId)
    case None => None
    case Some(i) => env.c.open(keys[i].keyEncrypted, env.kek)
  }

  /** The keys once version 1 wraps the tenant key, unless there is an active one. */
  function Ensured(keys: seq<KeyRow>, orgId: nat, legacyDek: Key, iv: nat, env: Env): seq<KeyRow>
  {
    if ActiveIndex(keys, orgId).Some? || Taken(keys, orgId, 1) then keys
    else keys + [KeyRow(orgId, 1, env.c.seal(legacyDek, env.kek, iv), true)]
  }

  datatype Outcome = Rotated(rotated: nat, newKeyVersion: nat) | NoActiveKey | Undecryptable | VersionTaken

  function ChunkJob(from: Key, to: Key, ctx: Context, draw: nat -> nat, env: Env): Job
  {
    Job(env.c, from, to, ctx, draw, 0)
  }

  function MessageJob(s: Store, from: Key, to: Key, ctx: Context, draw: nat -> nat, env: Env): Job
  {
    Job(env.c, from, to, ctx, draw, |Shown(s.chunks, ctx)|)
  }

  function Retired(keys: seq<KeyRow>, i: nat, newKey: KeyRow): seq<KeyRow>
    requires i < |keys|
  {
    keys[i := keys[i].(active := false)] + [newKey]
  }

  /** What a rotation does; everything but a success leaves the store as it was. */
  function Rotate(s: Store, ctx: Context, newDek: Key, draw: nat -> nat, env: Env): (Store, Outcome)
  {
    match ActiveIndex(s.keys, ctx.orgId)
    case None => (s, NoActiveKey)
    case Some(i) =>
      var dek := env.c.open(s.keys[i].keyEncrypted, env.kek);
      if dek.None? then (s, Undecryptable) else
      var chunks := ChunkJob(dek.value, newDek, ctx, draw, env);
      var messages := MessageJob(s, dek.value, newDek, ctx, draw, env);
      if !AllReadable(s.chunks, chunks) || !AllReadable(s.messages, messages) then (s, Undecryptable)
      else
        var version := s.keys[i].keyVersion + 1;
        var rotated := |Shown(s.chunks, ctx)| + |Shown(s.messages, ctx)|;
        if Taken(s.keys, ctx.orgId, version) then (s, VersionTaken)
        else
          var newKey := KeyRow(ctx.orgId, version, env.c.seal(newDek, env.kek, draw(rotated)), true);
          (Store(RekeyedAll(s.chunks, chunks), RekeyedAll(s.messages, messages), Retired(s.keys, i, newKey)),
           Rotated(rotated, version))
  }

  /** The keys of an organisation have different versions. */
  predicate Unique(keys: seq<KeyRow>)
  {
    forall i, j :: 0 <= i < j < |keys| && keys[i].orgId == keys[j].orgId ==> keys[i].keyVersion != keys[j].keyVersion
  }

  /** No creation or rotation gives a version twice, whatever keys there are. */
  lemma VersionsStayUnique(s: Store, ctx: Context, dek: Key, iv: nat, draw: nat -> nat, env: Env)
    requires Unique(s.keys)
    ensures Unique(Ensured(s.keys, ctx.orgId, dek, iv, env))
    ensures Unique(Rotate(s, ctx, dek, draw, env).0.keys)
  {
    hide AllReadable, RekeyedAll, Shown, ActiveIndex;
  }

  /** The visible rows of a table, each re-encrypted with a draw of its own between the
      `lo`-th and the `hi`-th. */
  predicate Drawn(rows: seq<Row>, next: seq<Row>, ns: seq<nat>, lo: nat, hi: nat, job: Job)
  {
    && |rows| == |next| == |ns|
    && (forall i :: 0 <= i < |rows| && Visible(rows[i], job.ctx) ==>
          lo <= ns[i] < hi && Readable(rows[i], job)
          && next[i] == rows[i].(content := job.c.seal(job.c.open(rows[i].content, job.from).value, job.to, job.draw(ns[i]))))
    && (forall i, j :: 0 <= i < j < |rows| && Visible(rows[i], job.ctx) && Visible(rows[j], job.ctx) ==> ns[i] < ns[j])
  }

  function Places(rows: seq<Row>, n: nat, job: Job): (ns: seq<nat>)
    requires n <= |rows|
    ensures |ns| == n && forall i :: 0 <= i < n ==> ns[i] == job.base + Place(rows, i, job.ctx)
  {
    if n == 0 then [] else Places(rows, n - 1, job) + [job.base + Place(rows, n - 1, job.ctx)]
  }

  lemma PlacesAreDrawn(rows: seq<Row>, job: Job)
    requires AllReadable(rows, job)
    ensures Drawn(rows, RekeyedAll(rows, job), Places(rows, |rows|, job), job.base, job.base + |Shown(rows, job.ctx)|, job)
  {
    hide Shown, RekeyedTo, Place, Readable;
    forall i | 0 <= i < |rows| && Visible(rows[i], job.ctx)
      ensures Place(rows, i, job.ctx) < |Shown(rows, job.ctx)|
      ensures RekeyedAll(rows, job)[i] == Rekeyed(rows[i], job, job.draw(job.base + Place(rows, i, job.ctx)))
    {
      PlacesIncrease(rows, i, |rows|, job.ctx);
      RekeyedAt(rows, |Shown(rows, job.ctx)|, job, i);
    }
    forall i, j | 0 <= i < j < |rows| && Visible(rows[i], job.ctx)
      ensures Place(rows, i, job.ctx) < Place(rows, j, job.ctx)
    {
      PlacesIncrease(rows, i, j, job.ctx);
    }
  }

  /** No two encryptions of a rotation share an initialisation vector by design: the
      chunks take the first draws, the messages the next, and the new key the last. */
  lemma EachSealHasItsOwnDraw(s: Store, ctx: Context, newDek: Key, draw: nat -> nat, env: Env)
    requires Rotate(s, ctx, newDek, draw, env).1.Rotated?
    ensures var (next, outcome) := Rotate(s, ctx, newDek, draw, env);
            var dek := ActiveDek(s.keys, ctx.orgId, env);
            && dek.Some? && next.keys != []
            && var job := Job(env.c, dek.value, newDek, ctx, draw, 0);
               && (exists cs: seq<nat>, ms: seq<nat>, m: nat ::
                     Drawn(s.chunks, next.chunks, cs, 0, m, job) && Drawn(s.messages, next.messages, ms, m, outcome.rotated, job))
               && next.keys[|next.keys| - 1].keyEncrypted == env.c.seal(newDek, env.kek, draw(outcome.rotated))
  {
    hide Shown, RekeyedAll, AllReadable, Taken, ActiveIndex, Drawn, Places;
    var dek := ActiveDek(s.keys, ctx.orgId, env).value;
    var job := Job(env.c, dek, newDek, ctx, draw, 0);
    var chunks, messages := ChunkJob(dek, newDek, ctx, draw, env), MessageJob(s, dek, newDek, ctx, draw, env);
    PlacesAreDrawn(s.chunks, chunks);
    PlacesAreDrawn(s.messages, messages);
    var next, m := Rotate(s, ctx, newDek, draw, env).0, |Shown(s.chunks, ctx)|;
    var cs, ms := Places(s.chunks, |s.chunks|, chunks), Places(s.messages, |s.messages|, messages);
    assert Drawn(s.chunks, next.chunks, cs, 0, m, job);
    SameDraws(s.messages, next.messages, ms, m, m + |Shown(s.messages, ctx)|, messages, job);
  }

  lemma SameDraws(rows: seq<Row>, next: seq<Row>, ns: seq<nat>, lo: nat, hi: nat, job: Job, other: Job)
    requires Drawn(rows, next, ns, lo, hi, job) && other == job.(base := 0)
    ensures Drawn(rows, next, ns, lo, hi, other)
  {
  }

  datatype RotationEvent = RotationEvent(orgId: nat, newKeyVersion: nat, rotated: nat)

  /** The database. Each method is one transaction, so it writes its tables at the end
      or not at all. */
  class Database {
    const env: Env
    var chunks: seq<Row>
    var messages: seq<Row>
    var keys: seq<KeyRow>
    var log: seq<RotationEvent>

    constructor (env: Env)
      ensures State() == Store([], [], []) && log == [] && this.env == env
    {
      this.env := env;
      chunks, messages, keys, log := [], [], [], [];
    }

    function State(): Store
      reads this
    {
      Store(chunks, messages, keys)
    }

    method GetActiveDek(ctx: Context) returns (dek: Option<Key>)
      ensures dek == ActiveDek(keys, ctx.orgId, env)
      ensures dek.Some? ==> exists i :: 0 <= i < |keys| && IsActive(keys[i], ctx.orgId) && env.c.open(keys[i].keyEncrypted, env.kek) == dek
    {
      var i := ActiveIndex(keys, ctx.orgId);
      if i.None? { return None; }
      dek := env.c.open(keys[i.value].keyEncrypted, env.kek);
    }

    /** Fails if the active key does not unwrap, and then changes nothing. */
    method EnsureKeyVersion(ctx: Context, legacyDek: Key, iv: nat) returns (dek: Option<Key>)
      modifies this`keys
      ensures dek == ActiveDek(Ensured(old(keys), ctx.orgId, legacyDek, iv, env), ctx.orgId, env)
      ensures keys == if dek.Some? then Ensured(old(keys), ctx.orgId, legacyDek, iv, env) else old(keys)
    {
      var active := ActiveIndex(keys, ctx.orgId);
      if active.Some? {
        dek := env.c.open(keys[active.value].keyEncrypted, env.kek);
        return;
      }
      var inserted := keys;
      if !Taken(keys, ctx.orgId, 1) {
        inserted := keys + [KeyRow(ctx.orgId, 1, env.c.seal(legacyDek, env.kek, iv), true)];
      }
      var created := ActiveIndex(inserted, ctx.orgId);
      dek := if created.None? then None else env.c.open(inserted[created.value].keyEncrypted, env.kek);
      if dek.Some? { keys := inserted; }
    }

    method RotateKey(ctx: Context, newDek: Key, draw: nat -> nat) returns (outcome: Outcome)
      requires Table(chunks) && Table(messages)
      modifies this
      ensures (State(), outcome) == Rotate(old(State()), ctx, newDek, draw, env)
      ensures Table(chunks) && Table(messages)
      ensures log == old(log) +
                     if outcome.Rotated? then [RotationEvent(ctx.orgId, outcome.newKeyVersion, outcome.rotated)] else []
    {
      hide Shown, RekeyedAll, AllReadable, Taken, Table, ActiveIndex, Retired;
      var current := ActiveIndex(keys, ctx.orgId);
      if current.None? { return NoActiveKey; }
      var oldDek := env.c.open(keys[current.value].keyEncrypted, env.kek);
      if oldDek.None? { return Undecryptable; }
      var newVersion := keys[current.value].keyVersion + 1;
      var c := Reencrypt(chunks, ChunkJob(oldDek.value, newDek, ctx, draw, env));
      if c.None? { return Undecryptable; }
      var rotated := c.value.1;
      var m := Reencrypt(messages, MessageJob(State(), oldDek.value, newDek, ctx, draw, env));
      if m.None? { return Undecryptable; }
      rotated := rotated + m.value.1;
      if Taken(keys, ctx.orgId, newVersion) { return VersionTaken; }
      var newKey := KeyRow(ctx.orgId, newVersion, env.c.seal(newDek, env.kek, draw(rotated)), true);
      RekeyedKeepsIds(chunks, ChunkJob(oldDek.value, newDek, ctx, draw, env));
      RekeyedKeepsIds(messages, MessageJob(State(), oldDek.value, newDek, ctx, draw, env));
      chunks, messages, keys := c.value.0, m.value.0, Retired(keys, current.value, newKey);
      log := log + [RotationEvent(ctx.orgId, newVersion, rotated)];
      return Rotated(rotated, newVersion);
    }
  }
}
