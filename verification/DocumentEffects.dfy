/** What listing shows, and what uploads, deletions, holds and erasures change of what
    each caller may list and find, in terms of organisations and clearances. */
module DocumentEffects {
  import opened Arithmetic
  import opened Options
  import opened Ranking
  import opened Documents
  import opened DocumentAccess

  // ----- listing

  function Listable(db: Docs, ctx: Context): set<nat>
  {
    set i | i in db.documents && MayRead(db, i, ctx) && !db.documents[i].deleted
  }

  predicate Newer(db: Docs, i: nat, j: nat)
  {
    && i in db.documents && j in db.documents
    && (db.documents[i].createdAt > db.documents[j].createdAt ||
        (db.documents[i].createdAt == db.documents[j].createdAt && i < j))
  }

  function NewerThan(db: Docs, ctx: Context, j: nat): set<nat>
  {
    set i | i in Listable(db, ctx) && Newer(db, i, j)
  }

  lemma ListedIsListable(db: Docs, ctx: Context)
    ensures Listed(db, ctx) == Listable(db, ctx)
  {
  }

  lemma NewerIsAhead(db: Docs, ctx: Context, j: nat)
    requires j in db.documents
    ensures NewerThan(db, ctx, j) == Ahead(Listed(db, ctx), NewestFirst(db), j)
  {
  }

  /** A page of at most 200 holds documents of the organisation within the clearance that
      are not deleted; before the k-th of them come exactly `offset + k` newer ones. */
  lemma PageIsNewest(db: Docs, ctx: Context, limit: nat, offset: nat)
    ensures var page, n := ListDocuments(db, ctx, limit, offset), |Listable(db, ctx)|;
            && |page| == (if offset >= n then 0 else Min(n - offset, Min(limit, 200)))
            && forall k :: 0 <= k < |page| ==>
                 page[k] in Listable(db, ctx) && |NewerThan(db, ctx, page[k])| == offset + k
  {
    hide Ranked, Listed, NewestFirst, Newer, Listable, NewerThan;
    ListedIsListable(db, ctx);
    var page, all := ListDocuments(db, ctx, limit, offset), Ranked(Listed(db, ctx), NewestFirst(db));
    forall k | 0 <= k < |page|
      ensures page[k] in Listable(db, ctx) && |NewerThan(db, ctx, page[k])| == offset + k
    {
      assert page[k] == all[offset + k];
      RankIsCount(Listed(db, ctx), NewestFirst(db), offset + k);
      ListableIsDocument(db, ctx, page[k]);
      NewerIsAhead(db, ctx, page[k]);
    }
  }

  lemma ListableIsDocument(db: Docs, ctx: Context, i: nat)
    requires i in Listable(db, ctx)
    ensures i in db.documents
  {
  }

  // ----- uploads

  /** The checks, in the order in which they decide. */
  lemma UploadOutcome(db: Docs, u: Upload)
    ensures var o, cleared := Ingest(db, u).1, Cleared(u.classification, u.ctx.clearance);
            && (o == Refused(UnsupportedType) <==> !u.supported)
            && (o == Refused(ExceedsClearance) <==> u.supported && !cleared)
            && (o == Refused(Infected) <==> u.supported && cleared && !u.clean)
            && (o == Refused(Empty) <==> u.supported && cleared && u.clean && u.pieces == [])
            && (o == DatabaseError <==> u.supported && cleared && u.clean && u.pieces != [] && !Insertable(db, u))
            && (o == Ingested(u.newId, |u.pieces|)
                <==> u.supported && cleared && u.clean && u.pieces != [] && Insertable(db, u))
            && (u.newId in db.documents || (u.base.Some? && u.base.value.parentId !in db.documents) ==> !o.Ingested?)
            && ((exists k :: 0 <= k < |u.pieces| && u.pieces[k].id in db.chunks) ==> !o.Ingested?)
            && (!o.Ingested? ==> Ingest(db, u).0 == db)
  {
  }

  function FirstIds(u: Upload, n: nat): set<nat>
    requires n <= |u.pieces|
  {
    set k | 0 <= k < n :: u.pieces[k].id
  }

  function PieceIds(u: Upload): set<nat>
  {
    FirstIds(u, |u.pieces|)
  }

  lemma {:induction false} ChunksStored(chunks: map<nat, Chunk>, u: Upload, n: nat)
    requires n <= |u.pieces| && forall i, j :: 0 <= i < j < |u.pieces| ==> u.pieces[i].id != u.pieces[j].id
    ensures var after := WithChunks(chunks, u, n);
            && after.Keys == chunks.Keys + FirstIds(u, n)
            && (forall k :: 0 <= k < n ==> after[u.pieces[k].id] == NewChunk(u, k))
            && (forall i :: i in chunks && i !in FirstIds(u, n) ==> after[i] == chunks[i])
  {
    hide NewChunk, WithChunks, FirstIds;
    NoChunks(chunks, u);
    if n > 0 {
      ChunksStored(chunks, u, n - 1);
      OneMoreChunk(chunks, u, n);
      OneMoreId(u, n);
    }
  }

  lemma NoChunks(chunks: map<nat, Chunk>, u: Upload)
    ensures WithChunks(chunks, u, 0) == chunks && FirstIds(u, 0) == {}
  {
  }

  lemma OneMoreChunk(chunks: map<nat, Chunk>, u: Upload, n: nat)
    requires 0 < n <= |u.pieces|
    ensures WithChunks(chunks, u, n) == WithChunks(chunks, u, n - 1)[u.pieces[n - 1].id := NewChunk(u, n - 1)]
  {
  }

  lemma OneMoreId(u: Upload, n: nat)
    requires 0 < n <= |u.pieces|
    ensures FirstIds(u, n) == FirstIds(u, n - 1) + {u.pieces[n - 1].id}
  {
  }

  predicate Reaches(u: Upload, reader: Context)
  {
    reader.orgId == u.ctx.orgId && Cleared(u.classification, reader.clearance)
  }

  /** What an upload stores: the document as given, a first version or the version read,
      and a chunk for each piece, nothing else changed. */
  lemma UploadStores(db: Docs, u: Upload)
    requires Ingest(db, u).1.Ingested?
    ensures var next, c := Ingest(db, u).0, u.ctx;
            && next.documents.Keys == db.documents.Keys + {u.newId} && u.newId !in db.documents
            && (forall i :: i in db.documents ==> next.documents[i] == db.documents[i])
            && next.documents[u.newId].orgId == c.orgId && next.documents[u.newId].uploadedBy == Some(c.userId)
            && next.documents[u.newId].title == u.title && next.documents[u.newId].storagePath == u.path
            && next.documents[u.newId].classification == u.classification && next.documents[u.newId].createdAt == u.now
            && !next.documents[u.newId].deleted && !next.documents[u.newId].legalHold
            && (u.base.None? ==> next.documents[u.newId].version == 1 && next.documents[u.newId].parentId == None)
            && (u.base.Some? ==> next.documents[u.newId].version == u.base.value.version
                                 && next.documents[u.newId].parentId == Some(u.base.value.parentId))
            && next.chunks.Keys == db.chunks.Keys + PieceIds(u) && db.chunks.Keys !! PieceIds(u)
            && (forall i :: i in db.chunks ==> next.chunks[i] == db.chunks[i])
            && (forall k :: 0 <= k < |u.pieces| ==> StoresPiece(next, u, k))
            && next.log == db.log + [Access(c.orgId, "UPLOAD", Some(u.newId), Some(c.userId))]
            && next.files == db.files + {u.path}
  {
    hide WithChunks;
    ChunksStored(db.chunks, u, |u.pieces|);
  }

  predicate StoresPiece(db: Docs, u: Upload, k: nat)
    requires k < |u.pieces|
  {
    && u.pieces[k].id in db.chunks
    && var c, p := db.chunks[u.pieces[k].id], u.pieces[k];
       && c.orgId == u.ctx.orgId && c.documentId == u.newId && c.chunkIndex == k && c.content == p.content
       && c.embedding == p.embedding && c.classification == u.classification
  }

  /** After an upload exactly the callers of the organisation with the clearance may list
      the document and find all its pieces, and nobody's view of other rows changes. */
  lemma UploadReaches(db: Docs, u: Upload, reader: Context)
    requires ChunksFollowDocuments(db) && Ingest(db, u).1.Ingested?
    ensures var next := Ingest(db, u).0;
            && Listable(next, reader) == Listable(db, reader) + (if Reaches(u, reader) then {u.newId} else {})
            && Findable(next, reader) == Findable(db, reader) + (if Reaches(u, reader) then PieceIds(u) else {})
  {
    hide Ingest, Cleared, StoresPiece;
    var next := Ingest(db, u).0;
    UploadStores(db, u);
    forall i | i in PieceIds(u)
      ensures MayFind(next, i, reader) <==> Reaches(u, reader)
    {
      var k :| 0 <= k < |u.pieces| && u.pieces[k].id == i;
      PieceIsFound(next, u, k, reader);
    }
    forall i | i in db.chunks
      ensures MayFind(next, i, reader) <==> MayFind(db, i, reader)
    {
      assert db.chunks[i].documentId in db.documents;
    }
  }

  lemma PieceIsFound(next: Docs, u: Upload, k: nat, reader: Context)
    requires k < |u.pieces| && StoresPiece(next, u, k)
    requires u.newId in next.documents && next.documents[u.newId].orgId == u.ctx.orgId
    requires next.documents[u.newId].classification == u.classification && !next.documents[u.newId].deleted
    ensures MayFind(next, u.pieces[k].id, reader) <==> Reaches(u, reader)
  {
    hide Cleared;
  }

  /** A caller whom the upload reaches and who asks for enough gets each piece, with the
      text, place and title under which it was uploaded. */
  lemma UploadIsSearchable(db: Docs, u: Upload, reader: Context, distance: Vector -> real, limit: nat, k: nat)
    requires ChunksFollowDocuments(db) && Ingest(db, u).1.Ingested? && Reaches(u, reader) && k < |u.pieces|
    requires limit >= |Findable(Ingest(db, u).0, reader)|
    ensures var p := u.pieces[k];
            SearchResult(p.id, u.newId, u.title, k, p.content, 1.0 - distance(p.embedding), u.classification)
            in SearchDocuments(Ingest(db, u).0, reader, distance, limit)
  {
    hide Ingest, Findable, Cleared, MayFind, SearchDocuments, Closer, Reaches, IsAnswer;
    var next := Ingest(db, u).0;
    var r := SearchDocuments(next, reader, distance, limit);
    UploadStores(db, u);
    PieceIsFound(next, u, k, reader);
    SearchIsTopK(next, reader, distance, limit);
    AllAreReturned(next, reader, distance, limit, r, u.pieces[k].id);
  }

  /** With a limit that covers them, an answer holds every chunk the caller may find. */
  lemma AllAreReturned(db: Docs, ctx: Context, distance: Vector -> real, limit: nat, r: seq<SearchResult>, i: nat)
    requires IsAnswer(db, ctx, distance, limit, r) && MayFind(db, i, ctx) && limit >= |Findable(db, ctx)|
    ensures exists l :: 0 <= l < |r| && r[l].chunkId == i && Shows(db, distance, r[l])
  {
    hide Closer, MayFind, Shows, Findable, Eligible;
    EligibleIsFindable(db, ctx);
    AnswerRows(db, ctx, distance, limit, r);
    TopOfAll(ChunkIds(r), Findable(db, ctx), DistanceKey(db, distance), limit);
    var l :| 0 <= l < |r| && ChunkIds(r)[l] == i;
    assert r[l].chunkId == i;
  }

  lemma TopOfAll(rows: seq<nat>, ids: set<nat>, key: nat -> real, limit: nat)
    requires IsTop(rows, ids, key, limit) && limit >= |ids|
    ensures forall i :: i in rows <==> i in ids
  {
    CountElements(rows, key);
    assert Elements(rows) <= ids;
    SubsetIsAll(Elements(rows), ids);
  }

  lemma SubsetIsAll(a: set<nat>, b: set<nat>)
    requires a <= b && |a| == |b|
    ensures a == b
  {
    assert |b - a| == |b| - |a|;
    assert b == a + (b - a);
  }

  /** A caller may add a version exactly to a document it may read. What it uploads then
      is of the same family, one version on, and in the history that it reads. */
  lemma NewVersionJoins(db: Docs, ctx: Context, id: nat, u: Upload)
    ensures NextVersionFor(db, ctx, id).Some? <==> MayRead(db, id, ctx)
    ensures u.ctx == ctx && u.base.Some? && u.base == NextVersionFor(db, ctx, id) && Ingest(db, u).1.Ingested? ==>
              var next := Ingest(db, u).0;
              && id in next.documents && u.newId in next.documents && SameFamily(next.documents, u.newId, id)
              && next.documents[u.newId].version == next.documents[id].version + 1
              && u.newId in GetVersions(next, ctx, id)
  {
    hide Ranked, Ingest, Cleared, ClassificationRank;
    SeesIffMayRead(db, id, ctx);
    if u.ctx == ctx && u.base.Some? && u.base == NextVersionFor(db, ctx, id) && Ingest(db, u).1.Ingested? {
      var next := Ingest(db, u).0;
      UploadStores(db, u);
      UploadOutcome(db, u);
      SeesIffMayRead(next, id, ctx);
      SeesIffMayRead(next, u.newId, ctx);
      assert Cleared(u.classification, ctx.clearance);
      RankedRanks(FamilySeen(next, ctx, Root(next.documents, id)), VersionKey(next));
    }
  }

  // ----- deletion and holds

  /** The chunks of a document. */
  function ChunksWith(db: Docs, id: nat): set<nat>
  {
    set i | i in db.chunks && db.chunks[i].documentId == id
  }

  /** A deletion succeeds exactly for a document that the caller may read and that is not
      held. It then takes the document and its chunks from everyone, nothing else from
      anyone, and is logged. */
  lemma DeletionEffect(db: Docs, ctx: Context, id: nat, reader: Context)
    ensures var (next, o) := SoftDelete(db, ctx, id);
            && (o == NotFound <==> !MayRead(db, id, ctx))
            && (o == LegalHold <==> MayRead(db, id, ctx) && db.documents[id].legalHold)
            && (o == Deleted <==> MayRead(db, id, ctx) && !db.documents[id].legalHold)
            && (o != Deleted ==> next == db)
            && (o == Deleted ==>
                  && Listable(next, reader) == Listable(db, reader) - {id}
                  && Findable(next, reader) == Findable(db, reader) - ChunksWith(db, id)
                  && next.log == db.log + [Access(ctx.orgId, "DELETE", Some(id), Some(ctx.userId))])
  {
    hide Cleared;
    SeesIffMayRead(db, id, ctx);
    var next := SoftDelete(db, ctx, id).0;
    forall i | i in db.documents
      ensures MayRead(next, i, reader) <==> MayRead(db, i, reader)
    {
    }
  }

  /** A hold is set or released exactly on a document that the caller may read and that
      is not deleted. While it is set, no caller's deletion succeeds; once released, that
      of every caller who may read the document does. */
  lemma HoldGuards(db: Docs, ctx: Context, id: nat, hold: bool, other: Context)
    ensures var (next, done) := SetHold(db, ctx, id, hold);
            && (done <==> MayRead(db, id, ctx) && !db.documents[id].deleted)
            && (!done ==> next == db)
            && (done ==> SoftDelete(next, other, id).1 ==
                         if !MayRead(db, id, other) then NotFound else if hold then LegalHold else Deleted)
            && Listable(next, other) == Listable(db, other) && Findable(next, other) == Findable(db, other)
  {
    hide Cleared;
    SeesIffMayRead(db, id, ctx);
    var next := SetHold(db, ctx, id, hold).0;
    SeesIffMayRead(next, id, other);
    forall i | i in db.documents
      ensures MayRead(next, i, other) <==> MayRead(db, i, other)
    {
    }
  }

  // ----- erasure

  function OwnedAndReadable(db: Docs, ctx: Context, user: nat): set<nat>
  {
    set i | i in db.documents && MayRead(db, i, ctx) && db.documents[i].uploadedBy == Some(user)
  }

  function TheirChunks(db: Docs, ctx: Context, ids: set<nat>): set<nat>
  {
    set i | i in db.chunks && HasChunk(db, i, ctx) && db.chunks[i].documentId in ids
  }

  function TheirMessages(db: Docs, ctx: Context, user: nat): set<nat>
  {
    set i | i in db.messages && db.messages[i].orgId == ctx.orgId && db.messages[i].userId == Some(user)
  }

  /** An erasure takes exactly the user's documents that the caller may read from every
      listing, and the audit row counts what it removed. */
  lemma ErasureEffect(db: Docs, ctx: Context, user: nat, reader: Context)
    ensures var next, found := Erase(db, ctx, user), OwnedAndReadable(db, ctx, user);
            && Listable(next, reader) == Listable(db, reader) - found
            && next.documents.Keys == db.documents.Keys
            && (forall i :: i in db.documents ==> (next.documents[i].deleted <==> db.documents[i].deleted || i in found))
            && next.chunks.Keys == db.chunks.Keys - TheirChunks(db, ctx, found)
            && next.messages.Keys == db.messages.Keys - TheirMessages(db, ctx, user)
            && next.audit == db.audit + [Erasure(ctx.orgId, ctx.userId, user, |found|, |TheirChunks(db, ctx, found)|,
                                                 |TheirMessages(db, ctx, user)|)]
  {
    hide Cleared, ClassificationRank, Anonymized, SeesDocument, SeesChunk;
    forall i
      ensures Sees(db, i, ctx) <==> MayRead(db, i, ctx)
      ensures i in db.chunks ==> (SeesChunk(db.chunks[i], ctx) <==> HasChunk(db, i, ctx))
    {
      SeesIffMayRead(db, i, ctx);
      if i in db.chunks { SeesIffHas(db, i, ctx); }
    }
    var found := OwnedAndReadable(db, ctx, user);
    assert DocumentsOf(db, ctx, user) == found by {
      assert forall i :: i in db.documents ==> (SeesDocument(db.documents[i], ctx) <==> Sees(db, i, ctx));
    }
    assert ChunksOf(db, ctx, found) == TheirChunks(db, ctx, found);
    assert MessagesOf(db, ctx, user) == TheirMessages(db, ctx, user);
  }

  lemma SeesIffHas(db: Docs, i: nat, ctx: Context)
    requires i in db.chunks
    ensures SeesChunk(db.chunks[i], ctx) <==> HasChunk(db, i, ctx)
  {
  }
}
