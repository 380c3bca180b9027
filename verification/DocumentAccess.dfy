/** What search, listing and version queries of `Documents` return, and what they
    cannot depend on. */
module DocumentAccess {
  import opened Arithmetic
  import opened Options
  import opened Ranking
  import opened Documents

  /** Every chunk has a document, of its organisation and classification. */
  predicate ChunksFollowDocuments(db: Docs)
  {
    forall i :: i in db.chunks ==>
      && db.chunks[i].documentId in db.documents
      && db.documents[db.chunks[i].documentId].orgId == db.chunks[i].orgId
      && db.documents[db.chunks[i].documentId].classification == db.chunks[i].classification
  }

  /** Versions of one document, the first or later ones. */
  predicate SameFamily(documents: map<nat, Document>, i: nat, j: nat)
  {
    && i in documents && j in documents
    && (i == j || documents[i].parentId == Some(j) || documents[j].parentId == Some(i)
        || (documents[i].parentId.Some? && documents[i].parentId == documents[j].parentId))
  }

  predicate Live(db: Docs, i: nat)
    requires i in db.chunks
  {
    db.chunks[i].documentId in db.documents && !db.documents[db.chunks[i].documentId].deleted
  }

  /** The chunk policy, the document policy, and the search's own predicate within the
      organisation all select the same chunks: any one of them could be missing. */
  lemma LayersSelectTheSame(db: Docs, ctx: Context, i: nat)
    requires ChunksFollowDocuments(db) && i in db.chunks && Live(db, i)
    ensures MayFind(db, i, ctx) <==> SeesChunk(db.chunks[i], ctx)
    ensures MayFind(db, i, ctx) <==> Sees(db, db.chunks[i].documentId, ctx)
    ensures MayFind(db, i, ctx) <==> db.chunks[i].orgId == ctx.orgId && Cleared(db.chunks[i].classification, ctx.clearance)
  {
    assert ChunksFollowDocuments(db);
  }

  /** Search returns, once each and closest first, as many of the live chunks within the
      caller's organisation and clearance as asked for and there are, and leaves out none
      that is closer than one it returns. */
  lemma SearchIsTopK(db: Docs, ctx: Context, distance: Vector -> real, limit: nat)
    ensures IsAnswer(db, ctx, distance, limit, SearchDocuments(db, ctx, distance, limit))
  {
    hide Top, Eligible, IsTop;
    var e, key := Eligible(db, ctx), DistanceKey(db, distance);
    var ids, r := Top(e, key, limit), SearchDocuments(db, ctx, distance, limit);
    TopIsTop(e, key, limit);
    RowsAreEligible(db, ctx, key, limit, ids);
    assert forall k :: 0 <= k < |r| ==> IsResult(db, distance, ids[k], r[k]);
    RowsAnswer(db, ctx, distance, limit, ids, r);
  }

  /** There is one answer: what the method `Search` returns is this. */
  lemma AnswerIsUnique(db: Docs, ctx: Context, distance: Vector -> real, limit: nat, r: seq<SearchResult>)
    requires IsAnswer(db, ctx, distance, limit, r)
    ensures r == SearchDocuments(db, ctx, distance, limit)
  {
    hide Top, Eligible, IsTop, IsAnswer;
    var e, key := Eligible(db, ctx), DistanceKey(db, distance);
    var ids, s := Top(e, key, limit), SearchDocuments(db, ctx, distance, limit);
    AnswerRows(db, ctx, distance, limit, r);
    TopIsUnique(ChunkIds(r), e, key, limit);
    assert |s| == |ids|;
    assert forall k :: 0 <= k < |r| ==> IsResult(db, distance, ids[k], r[k]);
    assert forall k :: 0 <= k < |s| ==> s[k] == ResultOf(db, distance, ids[k]);
  }

  // ----- non-interference

  /** The two states have the same rows within the caller's organisation and clearance. */
  ghost predicate LookAlike(a: Docs, b: Docs, ctx: Context)
  {
    && (forall i :: MayRead(a, i, ctx) <==> MayRead(b, i, ctx))
    && (forall i :: MayRead(a, i, ctx) ==> a.documents[i] == b.documents[i])
    && (forall i :: HasChunk(a, i, ctx) <==> HasChunk(b, i, ctx))
    && (forall i :: HasChunk(a, i, ctx) ==> a.chunks[i] == b.chunks[i])
  }

  predicate HasChunk(db: Docs, i: nat, ctx: Context)
  {
    i in db.chunks && db.chunks[i].orgId == ctx.orgId && Cleared(db.chunks[i].classification, ctx.clearance)
  }

  lemma SameDocument(a: Docs, b: Docs, ctx: Context, i: nat)
    requires LookAlike(a, b, ctx)
    ensures Sees(a, i, ctx) <==> Sees(b, i, ctx)
    ensures Sees(a, i, ctx) ==> a.documents[i] == b.documents[i]
  {
    SeesIffMayRead(a, i, ctx);
    SeesIffMayRead(b, i, ctx);
  }

  lemma SameChunk(a: Docs, b: Docs, ctx: Context, i: nat)
    requires LookAlike(a, b, ctx)
    ensures i in a.chunks && SeesChunk(a.chunks[i], ctx) <==> i in b.chunks && SeesChunk(b.chunks[i], ctx)
    ensures i in a.chunks && SeesChunk(a.chunks[i], ctx) ==> a.chunks[i] == b.chunks[i]
  {
    assert i in a.chunks && SeesChunk(a.chunks[i], ctx) <==> HasChunk(a, i, ctx);
    assert i in b.chunks && SeesChunk(b.chunks[i], ctx) <==> HasChunk(b, i, ctx);
  }

  lemma SameRanking(ids: set<nat>, key: nat -> real, other: nat -> real)
    requires forall i :: i in ids ==> key(i) == other(i)
    ensures Ranked(ids, key) == Ranked(ids, other)
  {
    RankedRanks(ids, key);
    RankedRanks(ids, other);
    RankingIsUnique(Ranked(ids, key), Ranked(ids, other), ids, key, other);
  }

  lemma SameEligible(a: Docs, b: Docs, ctx: Context)
    requires LookAlike(a, b, ctx)
    ensures Eligible(a, ctx) == Eligible(b, ctx)
    ensures forall i :: i in Eligible(a, ctx) ==>
              && i in a.chunks && i in b.chunks && a.chunks[i] == b.chunks[i]
              && a.chunks[i].documentId in a.documents && a.chunks[i].documentId in b.documents
              && a.documents[a.chunks[i].documentId] == b.documents[a.chunks[i].documentId]
  {
    hide LookAlike;
    forall i
      ensures i in Eligible(a, ctx) <==> i in Eligible(b, ctx)
      ensures i in Eligible(a, ctx) ==>
                && i in a.chunks && i in b.chunks && a.chunks[i] == b.chunks[i]
                && a.chunks[i].documentId in a.documents && a.chunks[i].documentId in b.documents
                && a.documents[a.chunks[i].documentId] == b.documents[a.chunks[i].documentId]
    {
      SameChunk(a, b, ctx, i);
      if i in a.chunks { SameDocument(a, b, ctx, a.chunks[i].documentId); }
      if i in b.chunks { SameDocument(a, b, ctx, b.chunks[i].documentId); }
    }
  }

  /** Non-interference: rows of other organisations or above the caller's clearance
      change nothing in what search, listing and version history return. */
  lemma HiddenRowsDoNotInterfere(a: Docs, b: Docs, ctx: Context, distance: Vector -> real, limit: nat, offset: nat, id: nat)
    requires LookAlike(a, b, ctx)
    ensures SearchDocuments(a, ctx, distance, limit) == SearchDocuments(b, ctx, distance, limit)
    ensures ListDocuments(a, ctx, limit, offset) == ListDocuments(b, ctx, limit, offset)
    ensures GetVersions(a, ctx, id) == GetVersions(b, ctx, id)
    ensures NextVersionFor(a, ctx, id) == NextVersionFor(b, ctx, id)
  {
    hide LookAlike, Ranked;
    SameDocument(a, b, ctx, id);
    SameSearch(a, b, ctx, distance, limit);
    forall i
      ensures i in Listed(a, ctx) <==> i in Listed(b, ctx)
      ensures Sees(a, i, ctx) <==> Sees(b, i, ctx)
      ensures Sees(a, i, ctx) ==> a.documents[i] == b.documents[i]
    {
      SameDocument(a, b, ctx, i);
    }
    assert Listed(a, ctx) == Listed(b, ctx);
    SameRanking(Listed(a, ctx), NewestFirst(a), NewestFirst(b));
    if Sees(a, id, ctx) {
      var root := Root(a.documents, id);
      assert FamilySeen(a, ctx, root) == FamilySeen(b, ctx, root);
      SameRanking(FamilySeen(a, ctx, root), VersionKey(a), VersionKey(b));
    }
  }

  lemma SameSearch(a: Docs, b: Docs, ctx: Context, distance: Vector -> real, limit: nat)
    requires LookAlike(a, b, ctx)
    ensures SearchDocuments(a, ctx, distance, limit) == SearchDocuments(b, ctx, distance, limit)
  {
    hide LookAlike, Ranked, Eligible;
    SameEligible(a, b, ctx);
    var e := Eligible(a, ctx);
    SameRanking(e, DistanceKey(a, distance), DistanceKey(b, distance));
    TopIsClosest(e, DistanceKey(a, distance), limit);
    var ids := Top(e, DistanceKey(a, distance), limit);
    assert ids == Top(e, DistanceKey(b, distance), limit);
    assert forall k :: 0 <= k < |ids| ==> ids[k] in ids;
    var r, s := SearchDocuments(a, ctx, distance, limit), SearchDocuments(b, ctx, distance, limit);
    assert forall k :: 0 <= k < |ids| ==> r[k] == ResultOf(a, distance, ids[k]) == ResultOf(b, distance, ids[k]) == s[k];
  }
}
