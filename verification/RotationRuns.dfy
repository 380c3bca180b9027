/** Rotations do not show: over any run of key creations, rotations, writes and
    deletions, a reader with the active key sees a store of plain texts on which
    only the writes and deletions act. */
module RotationRuns {
  import opened Options
  import opened KeyRotation

  /** The key a reader or writer of an organisation uses: the active one or, before
      there is one, the tenant key. */
  function Dek(keys: seq<KeyRow>, orgId: nat, env: Env): Option<Key>
  {
    if ActiveIndex(keys, orgId).None? then Some(env.legacy(orgId)) else ActiveDek(keys, orgId, env)
  }

  // ----- the abstract store

  datatype PlainRow = PlainRow(id: nat, orgId: nat, rank: Option<int>, text: string)

  datatype PlainStore = PlainStore(chunks: seq<PlainRow>, messages: seq<PlainRow>)

  /** The row is the text sealed with this key. */
  ghost predicate SealedWith(row: Row, text: string, key: Key, env: Env)
  {
    exists iv: nat :: row.content == env.c.seal(text, key, iv)
  }

  ghost predicate ShowsRow(row: Row, plain: PlainRow, keys: seq<KeyRow>, env: Env)
  {
    && row.id == plain.id && row.orgId == plain.orgId && row.rank == plain.rank
    && Dek(keys, row.orgId, env).Some?
    && SealedWith(row, plain.text, Dek(keys, row.orgId, env).value, env)
  }

  ghost predicate ShowsTable(rows: seq<Row>, plain: seq<PlainRow>, keys: seq<KeyRow>, env: Env)
  {
    |rows| == |plain| && forall i :: 0 <= i < |rows| ==> ShowsRow(rows[i], plain[i], keys, env)
  }

  ghost predicate Shows(s: Store, a: PlainStore, env: Env)
  {
    ShowsTable(s.chunks, a.chunks, s.keys, env) && ShowsTable(s.messages, a.messages, s.keys, env)
  }

  // ----- key versions

  /** The versions of an organisation count up, and exactly the last is active; active
      ones unwrap. */
  ghost predicate KeysOk(keys: seq<KeyRow>, env: Env)
  {
    && (forall i, j :: 0 <= i < j < |keys| && keys[i].orgId == keys[j].orgId
                       ==> keys[i].keyVersion < keys[j].keyVersion && !keys[i].active)
    && (forall i :: 0 <= i < |keys| && keys[i].active ==> env.c.open(keys[i].keyEncrypted, env.kek).Some?)
    && (forall i :: 0 <= i < |keys| ==> ActiveIndex(keys, keys[i].orgId).Some?)
  }

  /** Retiring the active key for a new one. */
  lemma RetiredKeys(keys: seq<KeyRow>, i: nat, newKey: KeyRow, env: Env)
    requires KeysOk(keys, env) && i < |keys| && keys[i].active
    requires newKey.orgId == keys[i].orgId && newKey.active && newKey.keyVersion == keys[i].keyVersion + 1
    requires env.c.open(newKey.keyEncrypted, env.kek).Some?
    ensures KeysOk(Retired(keys, i, newKey), env)
    ensures Dek(Retired(keys, i, newKey), newKey.orgId, env) == env.c.open(newKey.keyEncrypted, env.kek)
    ensures forall org :: org != newKey.orgId ==> Dek(Retired(keys, i, newKey), org, env) == Dek(keys, org, env)
  {
    hide ActiveIndex;
    var next := Retired(keys, i, newKey);
    LastActive(next);
    forall org | org != newKey.orgId
      ensures Dek(next, org, env) == Dek(keys, org, env)
    {
      OthersActive(keys, i, newKey, org);
    }
    forall k | 0 <= k < |next|
      ensures ActiveIndex(next, next[k].orgId).Some?
    {
      if next[k].orgId != newKey.orgId { OthersActive(keys, i, newKey, next[k].orgId); }
    }
  }

  lemma LastActive(keys: seq<KeyRow>)
    requires keys != [] && keys[|keys| - 1].active
    ensures ActiveIndex(keys, keys[|keys| - 1].orgId) == Some(|keys| - 1)
  {
  }

  lemma {:induction false} ActiveAfterUpdate(keys: seq<KeyRow>, i: nat, key: KeyRow, org: nat)
    requires i < |keys| && keys[i].orgId != org && key.orgId != org
    ensures ActiveIndex(keys[i := key], org) == ActiveIndex(keys, org)
  {
    var n := |keys| - 1;
    if i < n {
      assert keys[i := key][..n] == keys[..n][i := key];
      ActiveAfterUpdate(keys[..n], i, key, org);
    } else {
      assert keys[i := key][..n] == keys[..n];
    }
  }

  lemma OthersActive(keys: seq<KeyRow>, i: nat, newKey: KeyRow, org: nat)
    requires i < |keys| && keys[i].orgId != org && newKey.orgId != org
    ensures ActiveIndex(Retired(keys, i, newKey), org) == ActiveIndex(keys, org)
    ensures ActiveIndex(keys, org).Some? ==> Retired(keys, i, newKey)[ActiveIndex(keys, org).value] == keys[ActiveIndex(keys, org).value]
  {
    ActiveAfterUpdate(keys, i, keys[i].(active := false), org);
    var next := Retired(keys, i, newKey);
    assert next[..|keys|] == keys[i := keys[i].(active := false)];
  }

  // ----- one rotation

  /** A message, or a chunk that the clearance covers. */
  predicate Covered(row: Row, ctx: Context)
  {
    match row.rank
    case None => true
    case Some(rank) => ctx.clearance >= rank
  }

  /** The caller's clearance covers every row of the organisation. */
  predicate SeesAll(rows: seq<Row>, ctx: Context)
  {
    forall i :: 0 <= i < |rows| && rows[i].orgId == ctx.orgId ==> Covered(rows[i], ctx)
  }

  /** What is sealed opens with the same key. */
  lemma SealedOpens(row: Row, text: string, key: Key, env: Env)
    requires Inverts(env.c) && SealedWith(row, text, key, env)
    ensures env.c.open(row.content, key) == Some(text)
  {
  }

  lemma ShownRowsAreReadable(rows: seq<Row>, plain: seq<PlainRow>, keys: seq<KeyRow>, job: Job, env: Env)
    requires Inverts(env.c)
    requires ShowsTable(rows, plain, keys, env) && job.c == env.c && Dek(keys, job.ctx.orgId, env) == Some(job.from)
    ensures AllReadable(rows, job)
  {
    hide Dek, Inverts, SealedWith;
    forall i | 0 <= i < |rows| && Visible(rows[i], job.ctx)
      ensures Readable(rows[i], job)
    {
      assert ShowsRow(rows[i], plain[i], keys, env);
      SealedOpens(rows[i], plain[i].text, job.from, env);
    }
  }

  /** What happens to the rows of a table. */
  lemma RekeyedRow(rows: seq<Row>, job: Job, i: nat)
    requires i < |rows| && AllReadable(rows, job)
    ensures var row, next := rows[i], RekeyedAll(rows, job)[i];
            && next.id == row.id && next.orgId == row.orgId && next.rank == row.rank
            && if Visible(row, job.ctx)
               then exists iv: nat :: next.content == job.c.seal(job.c.open(row.content, job.from).value, job.to, iv)
               else next == row
  {
    hide Shown, RekeyedTo;
    var k := |Shown(rows, job.ctx)|;
    RekeyedAt(rows, k, job, i);
    if Visible(rows[i], job.ctx) {
      PlaceOf(rows, i, job.ctx);
      var iv := job.draw(job.base + Place(rows, i, job.ctx));
      var text := job.c.open(rows[i].content, job.from).value;
      assert RekeyedAll(rows, job)[i].content == job.c.seal(text, job.to, iv);
    }
  }

  lemma RekeyedTableShows(rows: seq<Row>, plain: seq<PlainRow>, keys: seq<KeyRow>, next: seq<KeyRow>, job: Job, env: Env)
    requires Inverts(env.c) && job.c == env.c && ShowsTable(rows, plain, keys, env)
    requires SeesAll(rows, job.ctx)
    requires Dek(keys, job.ctx.orgId, env) == Some(job.from) && Dek(next, job.ctx.orgId, env) == Some(job.to)
    requires forall org :: org != job.ctx.orgId ==> Dek(next, org, env) == Dek(keys, org, env)
    ensures ShowsTable(RekeyedAll(rows, job), plain, next, env)
  {
    hide Dek, RekeyedAll, Inverts, AllReadable;
    ShownRowsAreReadable(rows, plain, keys, job, env);
    forall i | 0 <= i < |rows|
      ensures ShowsRow(RekeyedAll(rows, job)[i], plain[i], next, env)
    {
      assert ShowsRow(rows[i], plain[i], keys, env);
      if rows[i].orgId == job.ctx.orgId { SealedOpens(rows[i], plain[i].text, job.from, env); }
      RekeyedRow(rows, job, i);
    }
  }

  /** A rotation with an active key by a caller who sees every row of the organisation
      always succeeds, counts exactly the rows of the organisation, moves to the next
      version and changes no plain text, of this organisation or another. */
  lemma RotationDoesNotShow(s: Store, a: PlainStore, ctx: Context, newDek: Key, draw: nat -> nat, env: Env)
    requires Inverts(env.c) && KeysOk(s.keys, env) && Shows(s, a, env)
    requires ActiveIndex(s.keys, ctx.orgId).Some? && SeesAll(s.chunks, ctx) && SeesAll(s.messages, ctx)
    ensures var (next, outcome) := Rotate(s, ctx, newDek, draw, env);
            && Shows(next, a, env) && KeysOk(next.keys, env)
            && Dek(next.keys, ctx.orgId, env) == Some(newDek)
            && outcome == Rotated(OfOrg(s.chunks, ctx.orgId) + OfOrg(s.messages, ctx.orgId),
                                  s.keys[ActiveIndex(s.keys, ctx.orgId).value].keyVersion + 1)
  {
    hide AllReadable, RekeyedAll, Shown, ShowsTable, SeesAll, KeysOk, Retired, Inverts, ActiveIndex;
    var i := ActiveIndex(s.keys, ctx.orgId).value;
    var dek := ActiveDek(s.keys, ctx.orgId, env);
    ActiveUnwraps(s.keys, i, env);
    var chunks, messages := ChunkJob(dek.value, newDek, ctx, draw, env), MessageJob(s, dek.value, newDek, ctx, draw, env);
    ShownRowsAreReadable(s.chunks, a.chunks, s.keys, chunks, env);
    ShownRowsAreReadable(s.messages, a.messages, s.keys, messages, env);
    var rotated := |Shown(s.chunks, ctx)| + |Shown(s.messages, ctx)|;
    var newKey := KeyRow(ctx.orgId, s.keys[i].keyVersion + 1, env.c.seal(newDek, env.kek, draw(rotated)), true);
    Unwraps(newDek, draw(rotated), env);
    RetiredKeys(s.keys, i, newKey, env);
    RekeyedTableShows(s.chunks, a.chunks, s.keys, Retired(s.keys, i, newKey), chunks, env);
    RekeyedTableShows(s.messages, a.messages, s.keys, Retired(s.keys, i, newKey), messages, env);
    ShownAreOfOrg(s.chunks, ctx);
    ShownAreOfOrg(s.messages, ctx);
  }

  lemma ActiveUnwraps(keys: seq<KeyRow>, i: nat, env: Env)
    requires KeysOk(keys, env) && i < |keys| && keys[i].active
    ensures env.c.open(keys[i].keyEncrypted, env.kek).Some?
    ensures !Taken(keys, keys[i].orgId, keys[i].keyVersion + 1)
  {
  }

  lemma Unwraps(dek: Key, iv: nat, env: Env)
    requires Inverts(env.c)
    ensures env.c.open(env.c.seal(dek, env.kek, iv), env.kek) == Some(dek)
  {
  }

  /** How many rows an organisation has. */
  function OfOrg(rows: seq<Row>, orgId: nat): nat
  {
    if rows == [] then 0
    else OfOrg(rows[..|rows| - 1], orgId) + if rows[|rows| - 1].orgId == orgId then 1 else 0
  }

  lemma {:induction false} ShownAreOfOrg(rows: seq<Row>, ctx: Context)
    requires SeesAll(rows, ctx)
    ensures |Shown(rows, ctx)| == OfOrg(rows, ctx.orgId)
  {
    if rows != [] { ShownAreOfOrg(rows[..|rows| - 1], ctx); }
  }

  // ----- runs

  /** Which table a write or deletion concerns. */
  datatype Kind = ChunkRow | MessageRow

  datatype Step =
    | EnsureKey(ctx: Context, iv: nat)
    | RotateKey(ctx: Context, newDek: Key, draw: nat -> nat)
    | Put(kind: Kind, at: nat, plain: PlainRow, iv: nat)
    | Drop(kind: Kind, at: nat)

  function InsertAt<T>(rows: seq<T>, at: nat, row: T): seq<T>
  {
    if at <= |rows| then rows[..at] + [row] + rows[at..] else rows
  }

  function RemoveAt<T>(rows: seq<T>, at: nat): seq<T>
  {
    if at < |rows| then rows[..at] + rows[at + 1..] else rows
  }

  function SealedRow(plain: PlainRow, key: Key, iv: nat, env: Env): Row
  {
    Row(plain.id, plain.orgId, plain.rank, env.c.seal(plain.text, key, iv))
  }

  function Do(s: Store, step: Step, env: Env): Store
  {
    match step
    case EnsureKey(ctx, iv) => s.(keys := Ensured(s.keys, ctx.orgId, env.legacy(ctx.orgId), iv, env))
    case RotateKey(ctx, newDek, draw) => Rotate(s, ctx, newDek, draw, env).0
    case Put(kind, at, plain, iv) =>
      var dek := Dek(s.keys, plain.orgId, env);
      if dek.None? then s
      else if kind == ChunkRow then s.(chunks := InsertAt(s.chunks, at, SealedRow(plain, dek.value, iv, env)))
      else s.(messages := InsertAt(s.messages, at, SealedRow(plain, dek.value, iv, env)))
    case Drop(kind, at) =>
      if kind == ChunkRow then s.(chunks := RemoveAt(s.chunks, at)) else s.(messages := RemoveAt(s.messages, at))
  }

  /** The store of plain texts knows no keys. */
  function DoPlain(a: PlainStore, step: Step): PlainStore
  {
    match step
    case Put(kind, at, plain, _) =>
      if kind == ChunkRow then a.(chunks := InsertAt(a.chunks, at, plain)) else a.(messages := InsertAt(a.messages, at, plain))
    case Drop(kind, at) =>
      if kind == ChunkRow then a.(chunks := RemoveAt(a.chunks, at)) else a.(messages := RemoveAt(a.messages, at))
    case _ => a
  }

  /** Whoever rotates sees every row of the organisation. */
  predicate FullClearance(s: Store, step: Step)
  {
    step.RotateKey? ==> SeesAll(s.chunks, step.ctx) && SeesAll(s.messages, step.ctx)
  }

  function Run(s: Store, steps: seq<Step>, env: Env): Store
  {
    if steps == [] then s else Do(Run(s, steps[..|steps| - 1], env), steps[|steps| - 1], env)
  }

  function RunPlain(a: PlainStore, steps: seq<Step>): PlainStore
  {
    if steps == [] then a else DoPlain(RunPlain(a, steps[..|steps| - 1]), steps[|steps| - 1])
  }

  predicate AllCleared(s: Store, steps: seq<Step>, env: Env)
  {
    steps != [] ==>
      AllCleared(s, steps[..|steps| - 1], env) && FullClearance(Run(s, steps[..|steps| - 1], env), steps[|steps| - 1])
  }

  /** Creating version 1 does not show either, and doing it twice changes nothing. */
  lemma EnsuringDoesNotShow(keys: seq<KeyRow>, orgId: nat, iv: nat, env: Env)
    requires Inverts(env.c) && KeysOk(keys, env)
    ensures var next := Ensured(keys, orgId, env.legacy(orgId), iv, env);
            && KeysOk(next, env)
            && ActiveIndex(next, orgId).Some?
            && (forall org :: Dek(next, org, env) == Dek(keys, org, env))
            && (forall legacyDek, again :: Ensured(next, orgId, legacyDek, again, env) == next)
  {
    hide ActiveIndex, KeysOk, Taken, Inverts;
    if ActiveIndex(keys, orgId).None? {
      var key := KeyRow(orgId, 1, env.c.seal(env.legacy(orgId), env.kek, iv), true);
      Unwraps(env.legacy(orgId), iv, env);
      FirstKey(keys, key, env);
      LastActive(keys + [key]);
      forall org | org != orgId
        ensures Dek(keys + [key], org, env) == Dek(keys, org, env)
      {
        ActiveOfAppend(keys, key, org);
      }
    }
  }

  lemma ActiveOfAppend(keys: seq<KeyRow>, key: KeyRow, org: nat)
    requires key.orgId != org
    ensures ActiveIndex(keys + [key], org) == ActiveIndex(keys, org)
  {
    assert (keys + [key])[..|keys|] == keys;
  }

  lemma FirstKey(keys: seq<KeyRow>, key: KeyRow, env: Env)
    requires KeysOk(keys, env) && ActiveIndex(keys, key.orgId).None?
    requires key.active && env.c.open(key.keyEncrypted, env.kek).Some?
    ensures !Taken(keys, key.orgId, 1) && KeysOk(keys + [key], env)
  {
    hide ActiveIndex;
    var next := keys + [key];
    LastActive(next);
    forall k | 0 <= k < |next|
      ensures ActiveIndex(next, next[k].orgId).Some?
    {
      if next[k].orgId != key.orgId { ActiveOfAppend(keys, key, next[k].orgId); }
    }
  }

  lemma {:induction false} DekExists(keys: seq<KeyRow>, orgId: nat, env: Env)
    requires KeysOk(keys, env)
    ensures Dek(keys, orgId, env).Some?
  {
  }

  lemma TableWithRow(rows: seq<Row>, plain: seq<PlainRow>, at: nat, row: Row, p: PlainRow, keys: seq<KeyRow>, env: Env)
    requires ShowsTable(rows, plain, keys, env) && ShowsRow(row, p, keys, env)
    ensures ShowsTable(InsertAt(rows, at, row), InsertAt(plain, at, p), keys, env)
  {
    hide ShowsRow;
  }

  lemma TableWithoutRow(rows: seq<Row>, plain: seq<PlainRow>, at: nat, keys: seq<KeyRow>, env: Env)
    requires ShowsTable(rows, plain, keys, env)
    ensures ShowsTable(RemoveAt(rows, at), RemoveAt(plain, at), keys, env)
  {
    hide ShowsRow;
  }

  lemma PutShows(plain: PlainRow, keys: seq<KeyRow>, iv: nat, env: Env)
    requires Dek(keys, plain.orgId, env).Some?
    ensures ShowsRow(SealedRow(plain, Dek(keys, plain.orgId, env).value, iv, env), plain, keys, env)
  {
    hide Dek;
  }

  lemma SameDeks(rows: seq<Row>, plain: seq<PlainRow>, keys: seq<KeyRow>, next: seq<KeyRow>, env: Env)
    requires ShowsTable(rows, plain, keys, env) && forall org :: Dek(next, org, env) == Dek(keys, org, env)
    ensures ShowsTable(rows, plain, next, env)
  {
    hide Dek, SealedWith;
    forall i | 0 <= i < |rows|
      ensures ShowsRow(rows[i], plain[i], next, env)
    {
      assert ShowsRow(rows[i], plain[i], keys, env);
    }
  }

  lemma StepDoesNotShow(s: Store, a: PlainStore, step: Step, env: Env)
    requires Inverts(env.c) && KeysOk(s.keys, env) && Shows(s, a, env) && FullClearance(s, step)
    ensures KeysOk(Do(s, step, env).keys, env) && Shows(Do(s, step, env), DoPlain(a, step), env)
  {
    hide Inverts, KeysOk, ShowsTable, SeesAll, Ensured, ActiveIndex, Dek, InsertAt, RemoveAt, SealedRow, ShowsRow;
    match step
    case EnsureKey(ctx, iv) =>
      EnsuringDoesNotShow(s.keys, ctx.orgId, iv, env);
      var next := Ensured(s.keys, ctx.orgId, env.legacy(ctx.orgId), iv, env);
      SameDeks(s.chunks, a.chunks, s.keys, next, env);
      SameDeks(s.messages, a.messages, s.keys, next, env);
    case RotateKey(ctx, newDek, draw) =>
      if ActiveIndex(s.keys, ctx.orgId).Some? { RotationDoesNotShow(s, a, ctx, newDek, draw, env); }
    case Put(kind, at, plain, iv) =>
      DekExists(s.keys, plain.orgId, env);
      PutShows(plain, s.keys, iv, env);
      var row := SealedRow(plain, Dek(s.keys, plain.orgId, env).value, iv, env);
      if kind == ChunkRow {
        TableWithRow(s.chunks, a.chunks, at, row, plain, s.keys, env);
      } else {
        TableWithRow(s.messages, a.messages, at, row, plain, s.keys, env);
      }
    case Drop(kind, at) =>
      TableWithoutRow(s.chunks, a.chunks, at, s.keys, env);
      TableWithoutRow(s.messages, a.messages, at, s.keys, env);
  }

  /** Key rotation preserves meaning: whatever keys are created and rotated in a run,
      what the active keys open is what the plain store holds. */
  lemma {:induction false} RotationsDoNotShow(s: Store, a: PlainStore, steps: seq<Step>, env: Env)
    requires Inverts(env.c) && KeysOk(s.keys, env) && Shows(s, a, env) && AllCleared(s, steps, env)
    ensures KeysOk(Run(s, steps, env).keys, env) && Shows(Run(s, steps, env), RunPlain(a, steps), env)
  {
    hide Inverts, KeysOk, Shows, FullClearance, Do, DoPlain;
    if steps != [] {
      var n := |steps| - 1;
      RotationsDoNotShow(s, a, steps[..n], env);
      StepDoesNotShow(Run(s, steps[..n], env), RunPlain(a, steps[..n]), steps[n], env);
    }
  }

  /** The key `getActiveDek` returns opens every row of the organisation, to its text. */
  ghost predicate OpensAll(rows: seq<Row>, plain: seq<PlainRow>, orgId: nat, key: Key, env: Env)
  {
    |rows| == |plain| && forall i :: 0 <= i < |rows| && rows[i].orgId == orgId ==>
      env.c.open(rows[i].content, key) == Some(plain[i].text)
  }

  lemma DekOpensAll(rows: seq<Row>, plain: seq<PlainRow>, orgId: nat, keys: seq<KeyRow>, env: Env)
    requires Inverts(env.c) && ShowsTable(rows, plain, keys, env) && Dek(keys, orgId, env).Some?
    ensures OpensAll(rows, plain, orgId, Dek(keys, orgId, env).value, env)
  {
    hide Dek, Inverts, SealedWith;
    forall i | 0 <= i < |rows| && rows[i].orgId == orgId
      ensures env.c.open(rows[i].content, Dek(keys, orgId, env).value) == Some(plain[i].text)
    {
      assert ShowsRow(rows[i], plain[i], keys, env);
      SealedOpens(rows[i], plain[i].text, Dek(keys, orgId, env).value, env);
    }
  }

  /** At any time of such a run an organisation has an active key exactly once a version
      has been created, and then the active key opens every chunk and message of the
      organisation to the text that was written; until then the tenant key does. */
  lemma ActiveKeyOpensEverything(s: Store, a: PlainStore, steps: seq<Step>, orgId: nat, env: Env)
    requires Inverts(env.c) && KeysOk(s.keys, env) && Shows(s, a, env) && AllCleared(s, steps, env)
    ensures var t, b := Run(s, steps, env), RunPlain(a, steps);
            var dek := ActiveDek(t.keys, orgId, env);
            && (dek.Some? <==> exists i :: 0 <= i < |t.keys| && t.keys[i].orgId == orgId)
            && OpensAll(t.chunks, b.chunks, orgId, dek.GetOr(env.legacy(orgId)), env)
            && OpensAll(t.messages, b.messages, orgId, dek.GetOr(env.legacy(orgId)), env)
  {
    hide Inverts, Run, RunPlain, ShowsTable, OpensAll;
    RotationsDoNotShow(s, a, steps, env);
    var t, b := Run(s, steps, env), RunPlain(a, steps);
    DekIsActive(t.keys, orgId, env);
    DekOpensAll(t.chunks, b.chunks, orgId, t.keys, env);
    DekOpensAll(t.messages, b.messages, orgId, t.keys, env);
  }

  lemma DekIsActive(keys: seq<KeyRow>, orgId: nat, env: Env)
    requires KeysOk(keys, env)
    ensures Dek(keys, orgId, env) == Some(ActiveDek(keys, orgId, env).GetOr(env.legacy(orgId)))
    ensures ActiveDek(keys, orgId, env).Some? <==> exists i :: 0 <= i < |keys| && keys[i].orgId == orgId
  {
  }

  // ----- and when it would show

  lemma OtherKeyDoesNotOpen(row: Row, text: string, key: Key, other: Key, env: Env)
    requires Authentic(env.c) && SealedWith(row, text, key, env) && other != key
    ensures env.c.open(row.content, other).None?
  {
  }

  /** A rotation by a caller who does not see every row leaves the hidden ones under the
      retired key: clearance for all of the organisation is exactly what it takes. */
  lemma RotationShowsIffRowsHidden(s: Store, a: PlainStore, ctx: Context, newDek: Key, draw: nat -> nat, env: Env)
    requires Inverts(env.c) && Authentic(env.c) && KeysOk(s.keys, env) && Shows(s, a, env)
    requires ActiveIndex(s.keys, ctx.orgId).Some? && Dek(s.keys, ctx.orgId, env) != Some(newDek)
    ensures Shows(Rotate(s, ctx, newDek, draw, env).0, a, env) <==> SeesAll(s.chunks, ctx) && SeesAll(s.messages, ctx)
  {
    hide AllReadable, RekeyedAll, Shown, ShowsTable, KeysOk, Retired, Inverts, Authentic, SeesAll, ActiveIndex;
    if SeesAll(s.chunks, ctx) && SeesAll(s.messages, ctx) {
      RotationDoesNotShow(s, a, ctx, newDek, draw, env);
    } else {
      var i := ActiveIndex(s.keys, ctx.orgId).value;
      var dek := ActiveDek(s.keys, ctx.orgId, env);
      ActiveUnwraps(s.keys, i, env);
      var chunks, messages := ChunkJob(dek.value, newDek, ctx, draw, env), MessageJob(s, dek.value, newDek, ctx, draw, env);
      ShownRowsAreReadable(s.chunks, a.chunks, s.keys, chunks, env);
      ShownRowsAreReadable(s.messages, a.messages, s.keys, messages, env);
      var rotated := |Shown(s.chunks, ctx)| + |Shown(s.messages, ctx)|;
      var newKey := KeyRow(ctx.orgId, s.keys[i].keyVersion + 1, env.c.seal(newDek, env.kek, draw(rotated)), true);
      Unwraps(newDek, draw(rotated), env);
      RetiredKeys(s.keys, i, newKey, env);
      var next := Retired(s.keys, i, newKey);
      if !SeesAll(s.chunks, ctx) { HiddenRowShows(s.chunks, a.chunks, s.keys, next, chunks, env); }
      if !SeesAll(s.messages, ctx) { HiddenRowShows(s.messages, a.messages, s.keys, next, messages, env); }
    }
  }

  lemma HiddenRowShows(rows: seq<Row>, plain: seq<PlainRow>, keys: seq<KeyRow>, next: seq<KeyRow>, job: Job, env: Env)
    requires Inverts(env.c) && Authentic(env.c) && job.c == env.c && ShowsTable(rows, plain, keys, env)
    requires !SeesAll(rows, job.ctx) && AllReadable(rows, job) && job.from != job.to
    requires Dek(keys, job.ctx.orgId, env) == Some(job.from) && Dek(next, job.ctx.orgId, env) == Some(job.to)
    ensures !ShowsTable(RekeyedAll(rows, job), plain, next, env)
  {
    hide Dek, RekeyedAll, Inverts, Authentic, AllReadable, SealedWith;
    var i :| 0 <= i < |rows| && rows[i].orgId == job.ctx.orgId && !Visible(rows[i], job.ctx);
    assert ShowsRow(rows[i], plain[i], keys, env);
    RekeyedRow(rows, job, i);
    SealedOpens(rows[i], plain[i].text, job.from, env);
    if ShowsRow(RekeyedAll(rows, job)[i], plain[i], next, env) {
      OtherKeyDoesNotOpen(rows[i], plain[i].text, job.to, job.from, env);
    }
  }

  /** Search, chat and export open rows with the tenant key (`src/documents/search.ts`):
      it opens a row exactly while it is still the organisation's key. */
  lemma TenantKeyOpensIffNotRotated(s: Store, a: PlainStore, i: nat, env: Env)
    requires Inverts(env.c) && Authentic(env.c) && Shows(s, a, env) && i < |s.chunks|
    ensures var org := s.chunks[i].orgId;
            env.c.open(s.chunks[i].content, env.legacy(org)).Some? <==> Dek(s.keys, org, env) == Some(env.legacy(org))
  {
    hide Dek, Inverts, Authentic, SealedWith;
    var row, org := s.chunks[i], s.chunks[i].orgId;
    assert ShowsRow(row, a.chunks[i], s.keys, env);
    var key := Dek(s.keys, org, env).value;
    SealedOpens(row, a.chunks[i].text, key, env);
    if key != env.legacy(org) { OtherKeyDoesNotOpen(row, a.chunks[i].text, key, env.legacy(org), env); }
  }

  /** Ingest seals with the tenant key (`src/documents/ingest.ts:83`) whatever the
      active one is. Among rows that show and chunks so ingested, a rotation goes
      through exactly if the caller sees none of the latter; else it fails as a whole. */
  lemma IngestBlocksRotation(s: Store, a: PlainStore, ctx: Context, ingested: Row, at: nat, text: string, newDek: Key,
                             draw: nat -> nat, env: Env)
    requires Inverts(env.c) && Authentic(env.c) && KeysOk(s.keys, env) && Shows(s, a, env)
    requires ActiveIndex(s.keys, ctx.orgId).Some? && Dek(s.keys, ctx.orgId, env) != Some(env.legacy(ctx.orgId))
    requires ingested.orgId == ctx.orgId && SealedWith(ingested, text, env.legacy(ctx.orgId), env) && at <= |s.chunks|
    ensures var mixed := s.(chunks := InsertAt(s.chunks, at, ingested));
            && (Rotate(mixed, ctx, newDek, draw, env).1.Rotated? <==> !Covered(ingested, ctx))
            && (Covered(ingested, ctx) ==> Rotate(mixed, ctx, newDek, draw, env) == (mixed, Undecryptable))
  {
    hide RekeyedAll, Shown, ShowsTable, KeysOk, Retired, Inverts, Authentic, ActiveIndex, SealedWith, Taken;
    var mixed := s.(chunks := InsertAt(s.chunks, at, ingested));
    var i := ActiveIndex(s.keys, ctx.orgId).value;
    var dek := ActiveDek(s.keys, ctx.orgId, env);
    ActiveUnwraps(s.keys, i, env);
    var chunks, messages := ChunkJob(dek.value, newDek, ctx, draw, env), MessageJob(mixed, dek.value, newDek, ctx, draw, env);
    ShownRowsAreReadable(s.chunks, a.chunks, s.keys, chunks, env);
    ShownRowsAreReadable(s.messages, a.messages, s.keys, messages, env);
    OtherKeyDoesNotOpen(ingested, text, env.legacy(ctx.orgId), dek.value, env);
    assert mixed.chunks[at] == ingested;
    forall k | 0 <= k < |mixed.chunks| && k != at
      ensures mixed.chunks[k] in s.chunks
    {
      assert mixed.chunks[k] == s.chunks[if k < at then k else k - 1];
    }
    assert AllReadable(mixed.chunks, chunks) <==> !Visible(ingested, ctx);
  }
}
