/** Runs of uploads, new versions, holds, deletions and erasures: version families,
    permanence of removal, and holds. */
module DocumentRuns {
  import opened Options
  import opened Ranking
  import opened Documents
  import opened DocumentAccess
  import DocumentEffects

  /** The store, and what callers have read of documents they may upload versions to:
      reading and uploading are two transactions, with others in between. */
  datatype World = World(db: Docs, infos: set<(nat, VersionInfo)>)

  datatype Step =
    | Read(ctx: Context, id: nat)
    | AddDocument(upload: Upload)
    | Delete(ctx: Context, id: nat)
    | Hold(ctx: Context, id: nat, hold: bool)
    | EraseAccount(ctx: Context, user: nat)

  /** An upload uses a file name of its own, and a base that a caller of the same
      organisation has read. */
  predicate Possible(w: World, u: Upload)
  {
    u.path !in w.db.files && (u.base.Some? ==> (u.ctx.orgId, u.base.value) in w.infos)
  }

  function Do(w: World, step: Step): World
  {
    match step
    case Read(ctx, id) =>
      var info := NextVersionFor(w.db, ctx, id);
      if info.None? then w else w.(infos := w.infos + {(ctx.orgId, info.value)})
    case AddDocument(u) => if Possible(w, u) then w.(db := Ingest(w.db, u).0) else w
    case Delete(ctx, id) => w.(db := SoftDelete(w.db, ctx, id).0)
    case Hold(ctx, id, hold) => w.(db := SetHold(w.db, ctx, id, hold).0)
    case EraseAccount(ctx, user) => w.(db := Erase(w.db, ctx, user))
  }

  function Run(w: World, steps: seq<Step>): World
  {
    if steps == [] then w else Do(Run(w, steps[..|steps| - 1]), steps[|steps| - 1])
  }

  const Start := World(EMPTY, {})

  // ----- what no step changes of a document

  /** `b` has the documents of `a`, but for holds, deletion and uploaders, and maybe more. */
  predicate Extends(a: map<nat, Document>, b: map<nat, Document>)
  {
    forall i :: i in a ==> i in b && SameIdentity(a[i], b[i]) && (a[i].deleted ==> b[i].deleted)
  }

  predicate SameIdentity(d: Document, e: Document)
  {
    && d.orgId == e.orgId && d.parentId == e.parentId && d.version == e.version
    && d.classification == e.classification && d.storagePath == e.storagePath
  }

  lemma EraseExtends(db: Docs, ctx: Context, user: nat)
    ensures Extends(db.documents, Erase(db, ctx, user).documents)
    ensures Erase(db, ctx, user).documents.Keys == db.documents.Keys
  {
    hide Anonymized, ChunksOf, DocumentsOf, MessagesOf;
  }

  lemma IngestExtends(db: Docs, u: Upload)
    ensures Extends(db.documents, Ingest(db, u).0.documents)
  {
    hide WithChunks, ClassificationRank;
  }

  lemma StepExtends(w: World, step: Step)
    ensures Extends(w.db.documents, Do(w, step).db.documents)
    ensures !step.AddDocument? ==> Do(w, step).db.documents.Keys == w.db.documents.Keys
    ensures w.infos <= Do(w, step).infos
  {
    hide Ingest, Erase, NextVersionFor;
    match step
    case AddDocument(u) => IngestExtends(w.db, u);
    case EraseAccount(ctx, user) => EraseExtends(w.db, ctx, user);
    case _ =>
  }

  lemma {:induction false} RunExtends(w: World, steps: seq<Step>)
    ensures Extends(w.db.documents, Run(w, steps).db.documents)
  {
    hide Do, SameIdentity;
    if steps != [] {
      RunExtends(w, steps[..|steps| - 1]);
      var mid := Run(w, steps[..|steps| - 1]);
      StepExtends(mid, steps[|steps| - 1]);
      Transitive(w.db.documents, mid.db.documents, Run(w, steps).db.documents);
    } else {
      Reflexive(w.db.documents);
    }
  }

  lemma Reflexive(a: map<nat, Document>)
    ensures Extends(a, a)
  {
  }

  lemma Transitive(a: map<nat, Document>, b: map<nat, Document>, c: map<nat, Document>)
    requires Extends(a, b) && Extends(b, c)
    ensures Extends(a, c)
  {
  }

  // ----- version families

  /** Some document of the family has this version. */
  ghost predicate HasVersion(documents: map<nat, Document>, root: nat, version: int)
  {
    exists i :: i in documents && Root(documents, i) == root && documents[i].version == version
  }

  predicate IsRoot(documents: map<nat, Document>, i: nat, orgId: nat)
  {
    i in documents && documents[i].parentId.None? && documents[i].orgId == orgId
  }

  ghost predicate FamilyOk(documents: map<nat, Document>, i: nat)
    requires i in documents
  {
    match documents[i].parentId
    case None => documents[i].version == 1
    case Some(p) =>
      && IsRoot(documents, p, documents[i].orgId)
      && documents[i].version >= 2 && HasVersion(documents, p, documents[i].version - 1)
  }

  ghost predicate FamiliesOk(w: World)
  {
    && (forall i :: i in w.db.documents ==> FamilyOk(w.db.documents, i))
    && (forall info :: info in w.infos ==>
          && IsRoot(w.db.documents, info.1.parentId, info.0)
          && info.1.version >= 2 && HasVersion(w.db.documents, info.1.parentId, info.1.version - 1))
  }

  lemma VersionStays(a: map<nat, Document>, b: map<nat, Document>, root: nat, version: int)
    requires Extends(a, b) && HasVersion(a, root, version)
    ensures HasVersion(b, root, version)
  {
    var i :| i in a && Root(a, i) == root && a[i].version == version;
    assert i in b && Root(b, i) == root;
  }

  lemma FamilyStays(a: map<nat, Document>, b: map<nat, Document>, i: nat)
    requires Extends(a, b) && i in a && FamilyOk(a, i)
    ensures FamilyOk(b, i)
  {
    hide HasVersion;
    assert SameIdentity(a[i], b[i]);
    if a[i].parentId.Some? {
      VersionStays(a, b, a[i].parentId.value, a[i].version - 1);
      assert SameIdentity(a[a[i].parentId.value], b[a[i].parentId.value]);
    }
  }

  lemma ReadIsOk(w: World, ctx: Context, id: nat)
    requires FamiliesOk(w) && Sees(w.db, id, ctx)
    ensures var info := NextVersionFor(w.db, ctx, id).value;
            && IsRoot(w.db.documents, info.parentId, ctx.orgId)
            && info.version >= 2 && HasVersion(w.db.documents, info.parentId, info.version - 1)
  {
    assert FamilyOk(w.db.documents, id);
    assert Root(w.db.documents, id) == NextVersionFor(w.db, ctx, id).value.parentId;
  }

  lemma AddedIsOk(w: World, u: Upload)
    requires FamiliesOk(w) && Possible(w, u) && u.newId in Ingest(w.db, u).0.documents && u.newId !in w.db.documents
    ensures FamilyOk(Ingest(w.db, u).0.documents, u.newId)
  {
    hide WithChunks, HasVersion;
    var next := Ingest(w.db, u).0.documents;
    StepExtends(w, AddDocument(u));
    if u.base.Some? {
      var info := (u.ctx.orgId, u.base.value);
      assert info in w.infos;
      VersionStays(w.db.documents, next, info.1.parentId, info.1.version - 1);
    }
  }

  lemma StepKeepsFamilies(w: World, step: Step)
    requires FamiliesOk(w)
    ensures FamiliesOk(Do(w, step))
  {
    hide HasVersion, WithChunks, Anonymized, MarkDeleted, Unlinked, DocumentsOf, ChunksOf, FamilyOk;
    var next := Do(w, step);
    StepExtends(w, step);
    forall i | i in next.db.documents
      ensures FamilyOk(next.db.documents, i)
    {
      if i in w.db.documents {
        FamilyStays(w.db.documents, next.db.documents, i);
      } else {
        AddedIsOk(w, step.upload);
      }
    }
    forall info | info in next.infos
      ensures IsRoot(next.db.documents, info.1.parentId, info.0)
      ensures info.1.version >= 2 && HasVersion(next.db.documents, info.1.parentId, info.1.version - 1)
    {
      if info !in w.infos { ReadIsOk(w, step.ctx, step.id); }
      VersionStays(w.db.documents, next.db.documents, info.1.parentId, info.1.version - 1);
      assert SameIdentity(w.db.documents[info.1.parentId], next.db.documents[info.1.parentId]);
    }
  }

  lemma {:induction false} FamiliesAreOk(steps: seq<Step>)
    ensures FamiliesOk(Run(Start, steps))
  {
    hide FamiliesOk, Do;
    if steps == [] {
      StartIsOk();
    } else {
      FamiliesAreOk(steps[..|steps| - 1]);
      StepKeepsFamilies(Run(Start, steps[..|steps| - 1]), steps[|steps| - 1]);
    }
  }

  lemma StartIsOk()
    ensures FamiliesOk(Start)
  {
  }

  lemma {:induction false} NoGaps(w: World, i: nat, version: nat)
    requires FamiliesOk(w) && i in w.db.documents && 1 <= version <= w.db.documents[i].version
    ensures HasVersion(w.db.documents, Root(w.db.documents, i), version)
    decreases w.db.documents[i].version
  {
    assert FamilyOk(w.db.documents, i);
    if version < w.db.documents[i].version {
      var j :| j in w.db.documents && Root(w.db.documents, j) == Root(w.db.documents, i) &&
               w.db.documents[j].version == w.db.documents[i].version - 1;
      NoGaps(w, j, version);
    }
  }

  predicate NotAfter(db: Docs, i: nat, j: nat)
  {
    i in db.documents && j in db.documents && db.documents[i].version <= db.documents[j].version
  }

  /** Document families. In every reachable state the parent of a document is a root of
      the same organisation, a family has every version from 1 up to the highest, and
      the version history of a document lists exactly the visible documents of its
      family, in the order of their versions, so that it is the same from each of them. */
  lemma VersionsAreTheFamily(steps: seq<Step>, ctx: Context, id: nat)
    requires id in Run(Start, steps).db.documents
    ensures var db := Run(Start, steps).db;
            && (db.documents[id].parentId.Some? ==> IsRoot(db.documents, db.documents[id].parentId.value, db.documents[id].orgId))
            && (forall v :: 1 <= v <= db.documents[id].version ==> HasVersion(db.documents, Root(db.documents, id), v))
            && (!MayRead(db, id, ctx) ==> GetVersions(db, ctx, id) == [])
            && (MayRead(db, id, ctx) ==>
                  && (forall j :: j in GetVersions(db, ctx, id) <==> MayRead(db, j, ctx) && SameFamily(db.documents, j, id))
                  && (forall k, l :: 0 <= k < l < |GetVersions(db, ctx, id)| ==>
                        && GetVersions(db, ctx, id)[k] != GetVersions(db, ctx, id)[l]
                        && NotAfter(db, GetVersions(db, ctx, id)[k], GetVersions(db, ctx, id)[l])))
  {
    hide Ranked, Do, HasVersion;
    FamiliesAreOk(steps);
    var w := Run(Start, steps);
    assert FamilyOk(w.db.documents, id);
    forall v | 1 <= v <= w.db.documents[id].version
      ensures HasVersion(w.db.documents, Root(w.db.documents, id), v)
    {
      NoGaps(w, id, v);
    }
    if Sees(w.db, id, ctx) { HistoryIsTheFamily(w, ctx, id); }
  }

  lemma HistoryIsTheFamily(w: World, ctx: Context, id: nat)
    requires FamiliesOk(w) && Sees(w.db, id, ctx)
    ensures var db, h := w.db, GetVersions(w.db, ctx, id);
            && (forall j :: j in h <==> MayRead(db, j, ctx) && SameFamily(db.documents, j, id))
            && (forall k, l :: 0 <= k < l < |h| ==> h[k] != h[l] && NotAfter(db, h[k], h[l]))
  {
    hide Ranked, HasVersion, Cleared, ClassificationRank;
    var db, root := w.db, Root(w.db.documents, id);
    assert FamilyOk(db.documents, id);
    var family := FamilySeen(db, ctx, root);
    forall j
      ensures j in family <==> MayRead(db, j, ctx) && SameFamily(db.documents, j, id)
    {
      SeesIffMayRead(db, j, ctx);
      if j in db.documents { assert FamilyOk(db.documents, j); }
    }
    RankedRanks(family, VersionKey(db));
    var h := GetVersions(db, ctx, id);
    forall k, l | 0 <= k < l < |h|
      ensures h[k] != h[l] && NotAfter(db, h[k], h[l])
    {
      assert Before(h[k], h[l], VersionKey(db)) && h[k] in family && h[l] in family;
    }
  }

  /** Whoever may read a document can, in two steps, add the next version to its history. */
  lemma VersionCanBeAdded(w: World, ctx: Context, id: nat, u: Upload)
    requires MayRead(w.db, id, ctx) && u.ctx == ctx && u.path !in w.db.files && Ingest(w.db, u).1.Ingested?
    requires u.base == Some(VersionInfo(w.db.documents[id].parentId.GetOr(id), w.db.documents[id].version + 1))
    ensures var next := Run(w, [Read(ctx, id), AddDocument(u)]).db;
            && u.newId in GetVersions(next, ctx, id) && u.newId in next.documents
            && next.documents[u.newId].version == w.db.documents[id].version + 1
  {
    hide Ranked, GetVersions, Ingest, Cleared;
    var steps := [Read(ctx, id), AddDocument(u)];
    assert steps[..1] == [Read(ctx, id)] && [Read(ctx, id)][..0] == [];
    DocumentEffects.NewVersionJoins(w.db, ctx, id, u);
    DocumentEffects.UploadStores(w.db, u);
    assert Run(w, []) == w && Run(w, steps[..1]) == Do(w, Read(ctx, id));
  }

  // ----- chunks follow their documents

  lemma {:induction false} ChunksAdded(chunks: map<nat, Chunk>, u: Upload, n: nat)
    requires n <= |u.pieces|
    ensures forall i :: i in WithChunks(chunks, u, n) ==>
              (i in chunks && WithChunks(chunks, u, n)[i] == chunks[i]) ||
              (exists k :: 0 <= k < n && WithChunks(chunks, u, n)[i] == NewChunk(u, k))
  {
    if n > 0 { ChunksAdded(chunks, u, n - 1); }
  }

  lemma StepKeepsChunks(w: World, step: Step)
    requires ChunksFollowDocuments(w.db)
    ensures ChunksFollowDocuments(Do(w, step).db)
  {
    hide WithChunks, Anonymized, MarkDeleted, Unlinked, DocumentsOf;
    var next := Do(w, step);
    StepExtends(w, step);
    if step.AddDocument? { ChunksAdded(w.db.chunks, step.upload, |step.upload.pieces|); }
    forall i | i in next.db.chunks
      ensures var c := next.db.chunks[i];
              && c.documentId in next.db.documents
              && next.db.documents[c.documentId].orgId == c.orgId
              && next.db.documents[c.documentId].classification == c.classification
    {
      if i in w.db.chunks && next.db.chunks[i] == w.db.chunks[i] {
        var d := w.db.chunks[i].documentId;
        assert SameIdentity(w.db.documents[d], next.db.documents[d]);
      }
    }
  }

  /** In every reachable state every chunk has the organisation and the classification
      of its document, so that the policies agree (`LayersSelectTheSame`). */
  lemma {:induction false} ChunksAlwaysFollow(steps: seq<Step>)
    ensures ChunksFollowDocuments(Run(Start, steps).db)
  {
    hide Do;
    if steps != [] {
      ChunksAlwaysFollow(steps[..|steps| - 1]);
      StepKeepsChunks(Run(Start, steps[..|steps| - 1]), steps[|steps| - 1]);
    }
  }

  // ----- removal

  predicate Gone(db: Docs, id: nat)
  {
    id in db.documents && db.documents[id].deleted
  }

  lemma GoneIsNotFound(db: Docs, ctx: Context, distance: Vector -> real, limit: nat, offset: nat, id: nat)
    requires Gone(db, id)
    ensures id !in ListDocuments(db, ctx, limit, offset)
    ensures forall k :: 0 <= k < |SearchDocuments(db, ctx, distance, limit)| ==>
              SearchDocuments(db, ctx, distance, limit)[k].documentId != id
  {
    hide Ranked;
    RankedRanks(Listed(db, ctx), NewestFirst(db));
    SearchIsTopK(db, ctx, distance, limit);
    var all := Ranked(Listed(db, ctx), NewestFirst(db));
    assert forall i :: i in all ==> i != id;
    assert forall i :: i in ListDocuments(db, ctx, limit, offset) ==> i in all;
  }

  /** Removal is permanent: once a deletion has succeeded, or an erasure has found the
      document, no caller's list or search returns it in any later state. */
  lemma RemovedStaysRemoved(w: World, step: Step, later: seq<Step>, id: nat,
                            ctx: Context, distance: Vector -> real, limit: nat, offset: nat)
    requires || (step.Delete? && step.id == id && SoftDelete(w.db, step.ctx, id).1.Deleted?)
             || (step.EraseAccount? && id in DocumentsOf(w.db, step.ctx, step.user))
    ensures var db := Run(Do(w, step), later).db;
            && id !in ListDocuments(db, ctx, limit, offset)
            && forall k :: 0 <= k < |SearchDocuments(db, ctx, distance, limit)| ==>
                 SearchDocuments(db, ctx, distance, limit)[k].documentId != id
  {
    hide ListDocuments, SearchDocuments, Anonymized;
    assert Gone(Do(w, step).db, id);
    RunExtends(Do(w, step), later);
    GoneIsNotFound(Run(Do(w, step), later).db, ctx, distance, limit, offset, id);
  }

  /** An erasure removes every document of the user in the organisation exactly if the
      caller sees all of them that were not deleted before. */
  lemma ErasureIsCompleteIff(db: Docs, ctx: Context, user: nat)
    ensures (forall i :: i in db.documents && db.documents[i].orgId == ctx.orgId && db.documents[i].uploadedBy == Some(user)
                         ==> Gone(Erase(db, ctx, user), i))
            <==> (forall i :: i in db.documents && db.documents[i].orgId == ctx.orgId && db.documents[i].uploadedBy == Some(user)
                              ==> MayRead(db, i, ctx) || db.documents[i].deleted)
  {
    hide Anonymized, ChunksOf;
    forall i | i in db.documents && db.documents[i].orgId == ctx.orgId && db.documents[i].uploadedBy == Some(user)
      ensures Gone(Erase(db, ctx, user), i) <==> MayRead(db, i, ctx) || db.documents[i].deleted
    {
    }
  }

  /** Uploads in the name of an account need the account. */
  predicate NoUploadsBy(steps: seq<Step>, user: nat)
  {
    forall k :: 0 <= k < |steps| && steps[k].AddDocument? ==> steps[k].upload.ctx.userId != user
  }

  predicate NoneBy(documents: map<nat, Document>, user: nat)
  {
    forall i :: i in documents ==> documents[i].uploadedBy != Some(user)
  }

  lemma StepAddsNone(w: World, step: Step, user: nat)
    requires NoneBy(w.db.documents, user) && NoUploadsBy([step], user)
    ensures NoneBy(Do(w, step).db.documents, user)
  {
    hide WithChunks, Anonymized, ChunksOf, MessagesOf, DocumentsOf;
    assert [step][0] == step;
  }

  lemma {:induction false} RunAddsNone(w: World, steps: seq<Step>, user: nat)
    requires NoneBy(w.db.documents, user) && NoUploadsBy(steps, user)
    ensures NoneBy(Run(w, steps).db.documents, user)
  {
    hide Do, NoneBy;
    if steps != [] {
      var n := |steps| - 1;
      RunAddsNone(w, steps[..n], user);
      StepAddsNone(Run(w, steps[..n]), steps[n], user);
    }
  }

  /** What an erasure has missed stays missed: in no later state does an erasure of the
      same user, whoever asks for it, find a document. */
  lemma MissedIsMissedForGood(w: World, ctx: Context, user: nat, later: seq<Step>, again: Context)
    requires NoUploadsBy(later, user)
    ensures DocumentsOf(Run(Do(w, EraseAccount(ctx, user)), later).db, again, user) == {}
  {
    hide Anonymized, ChunksOf, MessagesOf, Run;
    RunAddsNone(Do(w, EraseAccount(ctx, user)), later, user);
  }

  lemma {:induction false} AnonymizedRow(log: seq<Access>, user: nat, k: nat)
    requires k < |log|
    ensures Anonymized(log, user)[k] == if log[k].userId == Some(user) then log[k].(userId := None) else log[k]
  {
    if k < |log| - 1 { AnonymizedRow(log[..|log| - 1], user, k); }
  }

  /** After an erasure no document and no log row of any organisation refers to the
      user, the account is gone, and the access log has lost nothing else. Exactly the
      chunks of the documents that were found are gone, and exactly the user's messages
      of this organisation. */
  lemma ErasureForgetsTheUser(db: Docs, ctx: Context, user: nat)
    requires ChunksFollowDocuments(db)
    ensures var next := Erase(db, ctx, user);
            && (forall i :: i in next.documents ==> next.documents[i].uploadedBy != Some(user))
            && (forall k :: 0 <= k < |next.log| ==> next.log[k].userId != Some(user))
            && |next.log| == |db.log|
            && (forall k :: 0 <= k < |next.log| ==>
                  next.log[k].(userId := None) == db.log[k].(userId := None)
                  && (db.log[k].userId != Some(user) ==> next.log[k] == db.log[k]))
            && (forall i :: i in next.chunks <==> i in db.chunks && db.chunks[i].documentId !in DocumentsOf(db, ctx, user))
            && user !in next.users && next.users == db.users - {user}
            && (forall i :: i in next.messages <==>
                  i in db.messages && !(db.messages[i].orgId == ctx.orgId && db.messages[i].userId == Some(user)))
  {
    hide Anonymized;
    forall k | 0 <= k < |db.log|
      ensures Anonymized(db.log, user)[k] == if db.log[k].userId == Some(user) then db.log[k].(userId := None) else db.log[k]
    {
      AnonymizedRow(db.log, user, k);
    }
  }

  // ----- legal hold

  predicate NoHeldDeleted(db: Docs)
  {
    forall i :: i in db.documents ==> !(db.documents[i].legalHold && db.documents[i].deleted)
  }

  lemma StepKeepsHolds(w: World, step: Step)
    requires NoHeldDeleted(w.db) && !step.EraseAccount?
    ensures NoHeldDeleted(Do(w, step).db)
  {
    hide WithChunks;
  }

  /** Without erasures no document is ever both held and deleted. */
  lemma {:induction false} HeldIsNotDeleted(steps: seq<Step>)
    requires forall k :: 0 <= k < |steps| ==> !steps[k].EraseAccount?
    ensures NoHeldDeleted(Run(Start, steps).db)
  {
    hide Do;
    if steps != [] {
      HeldIsNotDeleted(steps[..|steps| - 1]);
      StepKeepsHolds(Run(Start, steps[..|steps| - 1]), steps[|steps| - 1]);
    }
  }

  predicate IsHeld(db: Docs, id: nat)
  {
    id in db.documents && db.documents[id].legalHold && !db.documents[id].deleted
  }

  /** The steps that end a hold. */
  predicate Ends(step: Step, id: nat)
  {
    step.EraseAccount? || (step.Hold? && step.id == id && !step.hold)
  }

  lemma StepKeepsHeld(w: World, step: Step, id: nat)
    requires IsHeld(w.db, id) && !Ends(step, id)
    ensures IsHeld(Do(w, step).db, id)
  {
    hide WithChunks;
  }

  /** Once a hold was set the document stays, whatever deletions are tried, until the hold
      is released or an account is erased. */
  lemma {:induction false} HeldSurvives(w: World, ctx: Context, id: nat, later: seq<Step>)
    requires MayRead(w.db, id, ctx) && !w.db.documents[id].deleted
    requires forall k :: 0 <= k < |later| ==> !Ends(later[k], id)
    ensures IsHeld(Run(Do(w, Hold(ctx, id, true)), later).db, id)
  {
    if later == [] {
      SeesIffMayRead(w.db, id, ctx);
    } else {
      hide Do, IsHeld, Ends;
      var n := |later| - 1;
      HeldSurvives(w, ctx, id, later[..n]);
      StepKeepsHeld(Run(Do(w, Hold(ctx, id, true)), later[..n]), later[n], id);
    }
  }

  /** An erasure respects holds exactly if it finds no held document. */
  lemma ErasureKeepsHoldsIff(db: Docs, ctx: Context, user: nat)
    requires NoHeldDeleted(db)
    ensures NoHeldDeleted(Erase(db, ctx, user)) <==>
            forall i :: i in DocumentsOf(db, ctx, user) ==> !db.documents[i].legalHold
  {
    hide Anonymized, ChunksOf;
    forall i | i in db.documents
      ensures Erase(db, ctx, user).documents[i].legalHold && Erase(db, ctx, user).documents[i].deleted
              <==> db.documents[i].legalHold && i in DocumentsOf(db, ctx, user)
    {
    }
  }

  // ----- files

  /** Each document has its own file, and there are no others. */
  predicate FilesOk(db: Docs)
  {
    && (forall i :: i in db.documents ==> db.documents[i].storagePath in db.files)
    && (forall i, j :: i in db.documents && j in db.documents && i != j
                       ==> db.documents[i].storagePath != db.documents[j].storagePath)
    && |db.files| == |db.documents|
  }

  lemma StepKeepsFiles(w: World, step: Step)
    requires FilesOk(w.db)
    ensures FilesOk(Do(w, step).db)
  {
    StepExtends(w, step);
    FilesOfStep(w, step);
    if step.AddDocument? {
      AddedFile(w, step.upload);
    } else {
      hide Do;
      SameFiles(w.db, Do(w, step).db);
    }
  }

  lemma FilesOfStep(w: World, step: Step)
    ensures !step.AddDocument? ==> Do(w, step).db.files == w.db.files
  {
  }

  lemma SameFiles(a: Docs, b: Docs)
    requires FilesOk(a) && Extends(a.documents, b.documents) && a.documents.Keys == b.documents.Keys && a.files == b.files
    ensures FilesOk(b)
  {
    assert |a.documents| == |a.documents.Keys| && |b.documents| == |b.documents.Keys|;
    assert forall i :: i in a.documents ==> SameIdentity(a.documents[i], b.documents[i]);
  }

  lemma AddedFile(w: World, u: Upload)
    requires FilesOk(w.db)
    ensures FilesOk(Do(w, AddDocument(u)).db)
  {
    hide WithChunks;
  }

  /** Uploads that fail leave no file behind: in every reachable state the files are
      those of the documents, one each. */
  lemma {:induction false} FilesAreOk(steps: seq<Step>)
    ensures FilesOk(Run(Start, steps).db)
  {
    hide Do;
    if steps != [] {
      FilesAreOk(steps[..|steps| - 1]);
      StepKeepsFiles(Run(Start, steps[..|steps| - 1]), steps[|steps| - 1]);
    }
  }
}
