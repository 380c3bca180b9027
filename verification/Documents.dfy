/** Documents and their chunks (`src/documents`, with the row policies of
    `src/db/sql/0004_documents.sql`): ingest, versions, legal hold, deletion, erasure,
    listing and search. Tables are maps from ids to rows. */
module Documents {
  import opened Arithmetic
  import opened Options
  import opened Ranking

  datatype Classification = Public | Internal | Confidential | Secret

  function ClassificationRank(c: Classification): int
  {
    match c
    case Public => 0
    case Internal => 1
    case Confidential => 2
    case Secret => 3
  }

  type Vector = seq<real>

  datatype Document = Document(orgId: nat, uploadedBy: Option<nat>, title: string, storagePath: nat,
                               classification: Classification, version: nat, parentId: Option<nat>,
                               legalHold: bool, deleted: bool, createdAt: int)

  datatype Chunk = Chunk(orgId: nat, documentId: nat, chunkIndex: nat, content: string, embedding: Vector,
                         classification: Classification)

  datatype Access = Access(orgId: nat, action: string, documentId: Option<nat>, userId: Option<nat>)

  datatype Message = Message(orgId: nat, userId: Option<nat>, content: string)

  /** The `gdpr.user.erased` row of the audit log. */
  datatype Erasure = Erasure(orgId: nat, actor: nat, target: nat,
                             deletedDocuments: nat, deletedChunks: nat, deletedMessages: nat)

  datatype Docs = Docs(documents: map<nat, Document>, chunks: map<nat, Chunk>, log: seq<Access>, files: set<nat>,
                       messages: map<nat, Message>, users: set<nat>, audit: seq<Erasure>)

  const EMPTY := Docs(map[], map[], [], {}, map[], {}, [])

  datatype Context = Context(orgId: nat, userId: nat, clearance: int)

  // ----- what the row policies show

  predicate SeesDocument(d: Document, ctx: Context)
  {
    d.orgId == ctx.orgId && ClassificationRank(d.classification) <= ctx.clearance
  }

  predicate SeesChunk(c: Chunk, ctx: Context)
  {
    c.orgId == ctx.orgId && ClassificationRank(c.classification) <= ctx.clearance
  }

  predicate Sees(db: Docs, id: nat, ctx: Context)
  {
    id in db.documents && SeesDocument(db.documents[id], ctx)
  }

  // ----- the same, in numbers

  /** Who may read what: a clearance of 0 opens what is public, 3 what is secret, and
      one below 0 nothing. */
  predicate Cleared(c: Classification, clearance: int)
  {
    match c
    case Public => clearance >= 0
    case Internal => clearance >= 1
    case Confidential => clearance >= 2
    case Secret => clearance >= 3
  }

  predicate MayRead(db: Docs, id: nat, ctx: Context)
  {
    && id in db.documents && db.documents[id].orgId == ctx.orgId
    && Cleared(db.documents[id].classification, ctx.clearance)
  }

  /** The chunk and its document are the organisation's and within the clearance, and
      the document is not deleted. */
  predicate MayFind(db: Docs, i: nat, ctx: Context)
  {
    && i in db.chunks && db.chunks[i].orgId == ctx.orgId && Cleared(db.chunks[i].classification, ctx.clearance)
    && MayRead(db, db.chunks[i].documentId, ctx) && !db.documents[db.chunks[i].documentId].deleted
  }

  function Findable(db: Docs, ctx: Context): set<nat>
  {
    set i | i in db.chunks && MayFind(db, i, ctx)
  }

  lemma SeesIffMayRead(db: Docs, id: nat, ctx: Context)
    ensures Sees(db, id, ctx) <==> MayRead(db, id, ctx)
  {
  }

  // ----- ingest

  /** What `nextVersionFor` reads, from the document that a new version is uploaded to. */
  datatype VersionInfo = VersionInfo(parentId: nat, version: nat)

  function NextVersionFor(db: Docs, ctx: Context, id: nat): Option<VersionInfo>
  {
    if !Sees(db, id, ctx) then None
    else Some(VersionInfo(db.documents[id].parentId.GetOr(id), db.documents[id].version + 1))
  }

  datatype IngestError = UnsupportedType | ExceedsClearance | Infected | Empty

  /** A chunk's text and vector, and the id it is to get. */
  datatype Piece = Piece(id: nat, content: string, embedding: Vector)

  /** `pieces` is the chunked text; `newId` and `path` are the random names of the row
      and the file. */
  datatype Upload = Upload(ctx: Context, title: string, supported: bool, clean: bool, classification: Classification,
                           pieces: seq<Piece>, base: Option<VersionInfo>, newId: nat, path: nat, now: int)

  datatype IngestOutcome = Ingested(documentId: nat, chunkCount: nat) | Refused(error: IngestError) | DatabaseError

  function Refusal(u: Upload): Option<IngestError>
  {
    if !u.supported then Some(UnsupportedType)
    else if ClassificationRank(u.classification) > u.ctx.clearance then Some(ExceedsClearance)
    else if !u.clean then Some(Infected)
    else if u.pieces == [] then Some(Empty)
    else None
  }

  function NewDocument(u: Upload): Document
  {
    Document(u.ctx.orgId, Some(u.ctx.userId), u.title, u.path, u.classification,
             if u.base.Some? then u.base.value.version else 1,
             if u.base.Some? then Some(u.base.value.parentId) else None, false, false, u.now)
  }

  function NewChunk(u: Upload, i: nat): Chunk
    requires i < |u.pieces|
  {
    Chunk(u.ctx.orgId, u.newId, i, u.pieces[i].content, u.pieces[i].embedding, u.classification)
  }

  /** The chunk table with the first `n` chunks of an upload. */
  function WithChunks(chunks: map<nat, Chunk>, u: Upload, n: nat): map<nat, Chunk>
    requires n <= |u.pieces|
  {
    if n == 0 then chunks else WithChunks(chunks, u, n - 1)[u.pieces[n - 1].id := NewChunk(u, n - 1)]
  }

  /** Primary keys and the foreign key of the parent hold. */
  predicate Insertable(db: Docs, u: Upload)
  {
    && u.newId !in db.documents
    && (u.base.Some? ==> u.base.value.parentId in db.documents)
    && (forall i :: 0 <= i < |u.pieces| ==> u.pieces[i].id !in db.chunks)
    && (forall i, j :: 0 <= i < j < |u.pieces| ==> u.pieces[i].id != u.pieces[j].id)
  }

  function Ingest(db: Docs, u: Upload): (Docs, IngestOutcome)
  {
    if Refusal(u).Some? then (db, Refused(Refusal(u).value))
    else if !Insertable(db, u) then (db, DatabaseError)
    else
      (db.(documents := db.documents[u.newId := NewDocument(u)], chunks := WithChunks(db.chunks, u, |u.pieces|),
           log := db.log + [Access(u.ctx.orgId, "UPLOAD", Some(u.newId), Some(u.ctx.userId))], files := db.files + {u.path}),
       Ingested(u.newId, |u.pieces|))
  }

  // ----- life cycle

  datatype DeleteOutcome = Deleted | NotFound | LegalHold

  function SoftDelete(db: Docs, ctx: Context, id: nat): (Docs, DeleteOutcome)
  {
    if !Sees(db, id, ctx) then (db, NotFound)
    else if db.documents[id].legalHold then (db, LegalHold)
    else
      (db.(documents := db.documents[id := db.documents[id].(deleted := true)],
           log := db.log + [Access(ctx.orgId, "DELETE", Some(id), Some(ctx.userId))]), Deleted)
  }

  function SetHold(db: Docs, ctx: Context, id: nat, hold: bool): (Docs, bool)
  {
    if Sees(db, id, ctx) && !db.documents[id].deleted
    then (db.(documents := db.documents[id := db.documents[id].(legalHold := hold)]), true)
    else (db, false)
  }

  // ----- erasure

  /** The documents that an erasure finds: those of the user which the row policies show. */
  function DocumentsOf(db: Docs, ctx: Context, user: nat): set<nat>
  {
    set i | i in db.documents && SeesDocument(db.documents[i], ctx) && db.documents[i].uploadedBy == Some(user)
  }

  function ChunksOf(db: Docs, ctx: Context, ids: set<nat>): set<nat>
  {
    set i | i in db.chunks && SeesChunk(db.chunks[i], ctx) && db.chunks[i].documentId in ids
  }

  function MarkDeleted(documents: map<nat, Document>, ids: set<nat>): map<nat, Document>
  {
    map i | i in documents :: documents[i].(deleted := documents[i].deleted || i in ids)
  }

  /** Deleting an account sets every reference to it to null. */
  function Unlinked(documents: map<nat, Document>, user: nat): map<nat, Document>
  {
    map i | i in documents ::
      documents[i].(uploadedBy := if documents[i].uploadedBy == Some(user) then None else documents[i].uploadedBy)
  }

  function Anonymized(log: seq<Access>, user: nat): (r: seq<Access>)
    ensures |r| == |log|
  {
    if log == [] then []
    else
      var last := log[|log| - 1];
      Anonymized(log[..|log| - 1], user) + [if last.userId == Some(user) then last.(userId := None) else last]
  }

  /** The messages of the user in the organisation; their policy knows no clearance. */
  function MessagesOf(db: Docs, ctx: Context, user: nat): set<nat>
  {
    set i | i in db.messages && db.messages[i].orgId == ctx.orgId && db.messages[i].userId == Some(user)
  }

  /** The account's documents of other organisations lose their uploader, too. */
  function Erase(db: Docs, ctx: Context, user: nat): Docs
  {
    var found := DocumentsOf(db, ctx, user);
    var chunks, messages := ChunksOf(db, ctx, found), MessagesOf(db, ctx, user);
    Docs(Unlinked(MarkDeleted(db.documents, found), user), db.chunks - chunks, Anonymized(db.log, user), db.files,
         db.messages - messages, db.users - {user},
         db.audit + [Erasure(ctx.orgId, ctx.userId, user, |found|, |chunks|, |messages|)])
  }

  // ----- queries

  function Root(documents: map<nat, Document>, id: nat): nat
    requires id in documents
  {
    documents[id].parentId.GetOr(id)
  }

  /** The documents a version query selects. */
  function FamilySeen(db: Docs, ctx: Context, root: nat): set<nat>
  {
    set i | i in db.documents && SeesDocument(db.documents[i], ctx) && (i == root || db.documents[i].parentId == Some(root))
  }

  function VersionKey(db: Docs): nat -> real
  {
    (i: nat) => if i in db.documents then db.documents[i].version as real else 0.0
  }

  function GetVersions(db: Docs, ctx: Context, id: nat): seq<nat>
  {
    if !Sees(db, id, ctx) then [] else Ranked(FamilySeen(db, ctx, Root(db.documents, id)), VersionKey(db))
  }

  function Listed(db: Docs, ctx: Context): set<nat>
  {
    set i | i in db.documents && SeesDocument(db.documents[i], ctx) && !db.documents[i].deleted
  }

  function NewestFirst(db: Docs): nat -> real
  {
    (i: nat) => if i in db.documents then -(db.documents[i].createdAt as real) else 0.0
  }

  function ListDocuments(db: Docs, ctx: Context, limit: nat, offset: nat): seq<nat>
  {
    var all := Ranked(Listed(db, ctx), NewestFirst(db));
    all[Min(offset, |all|)..Min(offset + Min(limit, 200), |all|)]
  }

  /** The chunks a search considers: shown by the chunk policy, with a document shown
      by the document policy and not deleted, and within the clearance once more. */
  function Eligible(db: Docs, ctx: Context): set<nat>
  {
    set i | i in db.chunks && SeesChunk(db.chunks[i], ctx)
            && Sees(db, db.chunks[i].documentId, ctx) && !db.documents[db.chunks[i].documentId].deleted
            && ClassificationRank(db.chunks[i].classification) <= ctx.clearance
  }

  /** The distance of a chunk to the query. */
  function DistanceKey(db: Docs, distance: Vector -> real): nat -> real
  {
    (i: nat) => if i in db.chunks then distance(db.chunks[i].embedding) else 0.0
  }

  datatype SearchResult = SearchResult(chunkId: nat, documentId: nat, title: string, chunkIndex: nat, content: string,
                                       similarity: real, classification: Classification)

  function ResultOf(db: Docs, distance: Vector -> real, i: nat): SearchResult
    requires i in db.chunks && db.chunks[i].documentId in db.documents
  {
    var c := db.chunks[i];
    SearchResult(i, c.documentId, db.documents[c.documentId].title, c.chunkIndex, c.content,
                 1.0 - distance(c.embedding), c.classification)
  }

  function ResultsOf(db: Docs, distance: Vector -> real, ids: seq<nat>): (r: seq<SearchResult>)
    requires forall k :: 0 <= k < |ids| ==> ids[k] in db.chunks && db.chunks[ids[k]].documentId in db.documents
    ensures |r| == |ids|
    ensures forall k :: 0 <= k < |ids| ==> r[k] == ResultOf(db, distance, ids[k])
  {
    if ids == [] then []
    else ResultsOf(db, distance, ids[..|ids| - 1]) + [ResultOf(db, distance, ids[|ids| - 1])]
  }

  function SearchDocuments(db: Docs, ctx: Context, distance: Vector -> real, limit: nat): seq<SearchResult>
  {
    var ids := Top(Eligible(db, ctx), DistanceKey(db, distance), limit);
    TopIsClosest(Eligible(db, ctx), DistanceKey(db, distance), limit);
    assert forall k :: 0 <= k < |ids| ==> ids[k] in ids;
    ResultsOf(db, distance, ids)
  }

  /** The chunks of a search's results. */
  function ChunkIds(r: seq<SearchResult>): (ids: seq<nat>)
    ensures |ids| == |r| && forall k :: 0 <= k < |r| ==> ids[k] == r[k].chunkId
  {
    if r == [] then [] else ChunkIds(r[..|r| - 1]) + [r[|r| - 1].chunkId]
  }

  /** A result carries the fields of its chunk and document. */
  predicate Shows(db: Docs, distance: Vector -> real, r: SearchResult)
  {
    && r.chunkId in db.chunks && db.chunks[r.chunkId].documentId in db.documents
    && var c := db.chunks[r.chunkId];
       && r.documentId == c.documentId && r.chunkIndex == c.chunkIndex && r.content == c.content
       && r.classification == c.classification && r.similarity == 1.0 - distance(c.embedding)
       && r.title == db.documents[c.documentId].title
  }

  /** The result comes before a chunk of this id and similarity. */
  predicate Closer(r: SearchResult, id: nat, similarity: real)
  {
    r.similarity > similarity || (r.similarity == similarity && r.chunkId < id)
  }

  /** What a caller is promised: results for as many of the chunks it may find as asked
      for and there are, once each and closest first, none left out being closer. */
  ghost predicate IsAnswer(db: Docs, ctx: Context, distance: Vector -> real, limit: nat, r: seq<SearchResult>)
  {
    && |r| == Min(limit, |Findable(db, ctx)|)
    && (forall k :: 0 <= k < |r| ==> MayFind(db, r[k].chunkId, ctx) && Shows(db, distance, r[k]))
    && (forall k, l :: 0 <= k < l < |r| ==> Closer(r[k], r[l].chunkId, r[l].similarity))
    && (forall i, k :: MayFind(db, i, ctx) && i !in ChunkIds(r) && 0 <= k < |r|
                       ==> Closer(r[k], i, 1.0 - distance(db.chunks[i].embedding)))
  }

  lemma EligibleIsFindable(db: Docs, ctx: Context)
    ensures Eligible(db, ctx) == Findable(db, ctx)
    ensures forall i :: i in Eligible(db, ctx) <==> MayFind(db, i, ctx)
  {
  }

  /** The results of these rows, one each. */
  predicate ResultsFor(db: Docs, distance: Vector -> real, rows: seq<nat>, r: seq<SearchResult>)
  {
    |r| == |rows| && forall k :: 0 <= k < |rows| ==> IsResult(db, distance, rows[k], r[k])
  }

  predicate IsResult(db: Docs, distance: Vector -> real, i: nat, r: SearchResult)
  {
    i in db.chunks && db.chunks[i].documentId in db.documents && r == ResultOf(db, distance, i)
  }

  lemma ResultShows(db: Docs, distance: Vector -> real, i: nat, r: SearchResult)
    requires i in db.chunks && db.chunks[i].documentId in db.documents
    ensures IsResult(db, distance, i, r) <==> r.chunkId == i && Shows(db, distance, r)
    ensures IsResult(db, distance, i, r) ==> r.similarity == 1.0 - distance(db.chunks[i].embedding)
  {
  }

  lemma CloserIffBefore(db: Docs, distance: Vector -> real, j: nat, r: SearchResult, i: nat)
    requires IsResult(db, distance, j, r) && i in db.chunks
    ensures Closer(r, i, 1.0 - distance(db.chunks[i].embedding)) <==> Before(j, i, DistanceKey(db, distance))
  {
  }

  lemma FindableIsChunk(db: Docs, i: nat, ctx: Context)
    requires MayFind(db, i, ctx)
    ensures i in db.chunks && db.chunks[i].documentId in db.documents
  {
  }

  lemma ResultIds(db: Docs, distance: Vector -> real, rows: seq<nat>, r: seq<SearchResult>)
    requires ResultsFor(db, distance, rows, r)
    ensures ChunkIds(r) == rows
  {
  }

  /** The query's rows are such an answer. */
  lemma RowsAnswer(db: Docs, ctx: Context, distance: Vector -> real, limit: nat, rows: seq<nat>, r: seq<SearchResult>)
    requires IsTop(rows, Eligible(db, ctx), DistanceKey(db, distance), limit) && ResultsFor(db, distance, rows, r)
    ensures IsAnswer(db, ctx, distance, limit, r)
  {
    hide Eligible, Findable, MayFind, Closer, Before, Shows, DistanceKey, IsResult;
    EligibleIsFindable(db, ctx);
    ResultIds(db, distance, rows, r);
    forall k | 0 <= k < |r|
      ensures r[k].chunkId == rows[k] && MayFind(db, r[k].chunkId, ctx) && Shows(db, distance, r[k])
    {
      FindableIsChunk(db, rows[k], ctx);
      ResultShows(db, distance, rows[k], r[k]);
    }
    forall i, k | MayFind(db, i, ctx) && i !in ChunkIds(r) && 0 <= k < |r|
      ensures i in db.chunks && Closer(r[k], i, 1.0 - distance(db.chunks[i].embedding))
    {
      FindableIsChunk(db, i, ctx);
      CloserIffBefore(db, distance, rows[k], r[k], i);
    }
    forall k, l | 0 <= k < l < |r|
      ensures Closer(r[k], r[l].chunkId, r[l].similarity)
    {
      FindableIsChunk(db, rows[l], ctx);
      ResultShows(db, distance, rows[l], r[l]);
      CloserIffBefore(db, distance, rows[k], r[k], rows[l]);
    }
  }

  lemma AnswerResults(db: Docs, ctx: Context, distance: Vector -> real, limit: nat, r: seq<SearchResult>)
    requires IsAnswer(db, ctx, distance, limit, r)
    ensures ResultsFor(db, distance, ChunkIds(r), r)
    ensures forall k :: 0 <= k < |r| ==> r[k].chunkId in db.chunks && MayFind(db, r[k].chunkId, ctx)
                                         && r[k].similarity == 1.0 - distance(db.chunks[r[k].chunkId].embedding)
  {
    hide MayFind, Closer, Shows, IsResult;
    forall k | 0 <= k < |r|
      ensures r[k].chunkId in db.chunks && IsResult(db, distance, r[k].chunkId, r[k])
      ensures r[k].similarity == 1.0 - distance(db.chunks[r[k].chunkId].embedding)
    {
      FindableIsChunk(db, r[k].chunkId, ctx);
      ResultShows(db, distance, r[k].chunkId, r[k]);
    }
  }

  lemma AnswerOrder(db: Docs, ctx: Context, distance: Vector -> real, limit: nat, r: seq<SearchResult>)
    requires IsAnswer(db, ctx, distance, limit, r)
    ensures forall k, l :: 0 <= k < l < |r| ==> Before(r[k].chunkId, r[l].chunkId, DistanceKey(db, distance))
  {
    hide MayFind, Closer, Before, Shows, DistanceKey, IsResult, Findable;
    AnswerResults(db, ctx, distance, limit, r);
    forall k, l | 0 <= k < l < |r|
      ensures Before(r[k].chunkId, r[l].chunkId, DistanceKey(db, distance))
    {
      assert Closer(r[k], r[l].chunkId, r[l].similarity);
      assert IsResult(db, distance, ChunkIds(r)[k], r[k]);
      CloserIffBefore(db, distance, r[k].chunkId, r[k], r[l].chunkId);
    }
  }

  /** And an answer is the results of those rows. */
  lemma AnswerRows(db: Docs, ctx: Context, distance: Vector -> real, limit: nat, r: seq<SearchResult>)
    requires IsAnswer(db, ctx, distance, limit, r)
    ensures ResultsFor(db, distance, ChunkIds(r), r)
    ensures IsTop(ChunkIds(r), Eligible(db, ctx), DistanceKey(db, distance), limit)
  {
    hide Eligible, Findable, MayFind, Closer, Before, Shows, DistanceKey, IsResult;
    EligibleIsFindable(db, ctx);
    var ids := ChunkIds(r);
    AnswerResults(db, ctx, distance, limit, r);
    AnswerOrder(db, ctx, distance, limit, r);
    forall i, k | i in Eligible(db, ctx) && i !in ids && 0 <= k < |ids|
      ensures Before(ids[k], i, DistanceKey(db, distance))
    {
      FindableIsChunk(db, i, ctx);
      CloserIffBefore(db, distance, ids[k], r[k], i);
    }
  }

  lemma RowsAreEligible(db: Docs, ctx: Context, key: nat -> real, limit: nat, rows: seq<nat>)
    requires IsTop(rows, Eligible(db, ctx), key, limit)
    ensures forall k :: 0 <= k < |rows| ==> rows[k] in db.chunks && db.chunks[rows[k]].documentId in db.documents
  {
  }

  lemma SameMessages(a: Docs, b: Docs, ctx: Context, user: nat)
    requires a.messages == b.messages
    ensures MessagesOf(a, ctx, user) == MessagesOf(b, ctx, user)
  {
  }

  lemma NothingFound(db: Docs, ctx: Context)
    ensures ChunksOf(db, ctx, {}) == {} && MarkDeleted(db.documents, {}) == db.documents && db.chunks - {} == db.chunks
  {
  }

  // ----- the store

  class DocumentStore {
    var documents: map<nat, Document>
    var chunks: map<nat, Chunk>
    var log: seq<Access>
    var files: set<nat>
    var messages: map<nat, Message>
    var users: set<nat>
    var audit: seq<Erasure>

    constructor ()
      ensures State() == EMPTY
    {
      documents, chunks, log, files := map[], map[], [], {};
      messages, users, audit := map[], {}, [];
    }

    function State(): Docs
      reads this
    {
      Docs(documents, chunks, log, files, messages, users, audit)
    }

    /** The file is stored before the rows and removed again if they cannot be
        inserted, with a fresh name. */
    method IngestDocument(u: Upload) returns (outcome: IngestOutcome)
      requires u.path !in files
      modifies this
      ensures (State(), outcome) == Ingest(old(State()), u)
      ensures !outcome.Ingested? ==> State() == old(State())
    {
      if !u.supported { return Refused(UnsupportedType); }
      if ClassificationRank(u.classification) > u.ctx.clearance { return Refused(ExceedsClearance); }
      if !u.clean { return Refused(Infected); }
      if u.pieces == [] { return Refused(Empty); }
      files := files + {u.path};
      if !Insertable(State(), u) {
        files := files - {u.path};
        assert files == old(files);
        return DatabaseError;
      }
      ghost var before := chunks;
      documents := documents[u.newId := NewDocument(u)];
      for i := 0 to |u.pieces|
        invariant chunks == WithChunks(before, u, i)
        invariant documents == old(documents)[u.newId := NewDocument(u)]
        invariant log == old(log) && files == old(files) + {u.path}
        invariant messages == old(messages) && users == old(users) && audit == old(audit)
      {
        chunks := chunks[u.pieces[i].id := NewChunk(u, i)];
      }
      log := log + [Access(u.ctx.orgId, "UPLOAD", Some(u.newId), Some(u.ctx.userId))];
      return Ingested(u.newId, |u.pieces|);
    }

    method SoftDeleteDocument(ctx: Context, id: nat) returns (outcome: DeleteOutcome)
      modifies this`documents, this`log
      ensures (State(), outcome) == SoftDelete(old(State()), ctx, id)
    {
      if id !in documents || !SeesDocument(documents[id], ctx) { return NotFound; }
      if documents[id].legalHold { return LegalHold; }
      documents := documents[id := documents[id].(deleted := true)];
      log := log + [Access(ctx.orgId, "DELETE", Some(id), Some(ctx.userId))];
      return Deleted;
    }

    method SetLegalHold(ctx: Context, id: nat, hold: bool) returns (done: bool)
      modifies this`documents
      ensures (State(), done) == SetHold(old(State()), ctx, id, hold)
    {
      if id !in documents || !SeesDocument(documents[id], ctx) || documents[id].deleted { return false; }
      documents := documents[id := documents[id].(legalHold := hold)];
      return true;
    }

    method EraseUser(ctx: Context, user: nat) returns (deletedDocuments: nat, deletedChunks: nat, deletedMessages: nat)
      modifies this
      ensures State() == Erase(old(State()), ctx, user)
      ensures audit == old(audit) + [Erasure(ctx.orgId, ctx.userId, user, deletedDocuments, deletedChunks, deletedMessages)]
    {
      hide DocumentsOf, ChunksOf, MessagesOf, MarkDeleted, Unlinked, Anonymized;
      var docIds := DocumentsOf(State(), ctx, user);
      NothingFound(State(), ctx);
      deletedDocuments, deletedChunks := 0, 0;
      if docIds != {} {
        var chunkIds := ChunksOf(State(), ctx, docIds);
        chunks := chunks - chunkIds;
        deletedChunks := |chunkIds|;
        documents := MarkDeleted(documents, docIds);
        deletedDocuments := |docIds|;
      }
      SameMessages(old(State()), State(), ctx, user);
      var messageIds := MessagesOf(State(), ctx, user);
      messages := messages - messageIds;
      deletedMessages := |messageIds|;
      log := Anonymized(log, user);
      users := users - {user};
      documents := Unlinked(documents, user);
      audit := audit + [Erasure(ctx.orgId, ctx.userId, user, deletedDocuments, deletedChunks, deletedMessages)];
    }

    /** Search answers with the closest eligible chunks and logs the query with the
        organisation and the user. */
    method Search(ctx: Context, distance: Vector -> real, limit: nat) returns (results: seq<SearchResult>)
      modifies this`log
      ensures IsAnswer(old(State()), ctx, distance, limit, results)
      ensures log == old(log) + [Access(ctx.orgId, "QUERY", None, Some(ctx.userId))]
    {
      hide Top, Eligible, IsTop;
      var db := State();
      var rows := Top(Eligible(db, ctx), DistanceKey(db, distance), limit);
      TopIsTop(Eligible(db, ctx), DistanceKey(db, distance), limit);
      RowsAreEligible(db, ctx, DistanceKey(db, distance), limit, rows);
      results := [];
      for k := 0 to |rows|
        invariant |results| == k && forall l :: 0 <= l < k ==> results[l] == ResultOf(db, distance, rows[l])
        invariant State() == db && db == old(State())
      {
        results := results + [ResultOf(db, distance, rows[k])];
      }
      RowsAnswer(db, ctx, distance, limit, rows, results);
      log := log + [Access(ctx.orgId, "QUERY", None, Some(ctx.userId))];
    }
  }
}
