# Capybara_AI, verified

Proofs about the parts of Capybara_AI whose guarantees are about whole runs. Each
database table is a sequence or map of rows and each transaction a step. SHA-256,
AES-256-GCM and Ed25519 are functions about which only named assumptions are made,
and each lemma that needs one requires it:

- `SecurityLog.Sound`: SHA-256 has no collision and no preimage of the genesis value
  among the finitely many strings that the logs in question hash
  (`Sandbox.CollisionFree` is the same for argument hashes);
- `Anchor.Correct`: a key verifies the checkpoints it signed; `Anchor.Unforgeable`: among the
  anchors presented, it verifies no others. Whatever was signed and is presented, one key meets
  both (`Anchor.AssumptionsAreConsistent`);
- `KeyRotation.Inverts`: a key opens what it sealed; `KeyRotation.Authentic`: no other
  key does (needed only for the results that say when something fails to open). Both can be met
  together (`KeyRotation.AssumptionsAreConsistent`).

| module | what it models |
|---|---|
| `JsonText`, `JsonReader`, `Decimals`, `CanonicalJson`, `KeyOrders` | `JSON.stringify`, a reader of JSON texts by RFC 8259, whole numbers, and the canonical serialiser under the log, the anchors and the approvals, with its order of keys |
| `SecurityLog`, `AppendProtocol`, `VerifyChain`, `Anchor` | the hash-chained audit log, its concurrent append protocol, its verifier, signed checkpoints |
| `Oversight`, `Sandbox`, `Grants`, `SingleUse` | the human-oversight gate, the tool sandbox, the trigger as a parameter |
| `AbuseGuard`, `LockoutBounds` | brute-force lockout, and how many guesses it lets through |
| `SseParse`, `SseFields`, `AiStream` | the incremental event-stream parser, frames of several lines, and the endpoint that writes such streams |
| `KeyRotation`, `RotationRuns` | paged re-encryption under versioned data keys |
| `Ranking`, `Documents`, `DocumentAccess`, `DocumentEffects`, `DocumentRuns` | documents: row policies, search, listing, versions, holds, deletion, erasure |
| `Chunking` | overlapping token windows |
| `StreamLimiter`, `Anomaly` | concurrent-stream handles, anomaly de-duplication |
| `Options`, `Arithmetic` | shared helpers |

Objects and loops of the program are classes and methods proved against specification
functions; the theorems are about those functions and about runs of the machines built
from them. `dafny verify dfyconfig.toml` checks everything.

## Where the code and its documentation disagree

The model follows the code; what the difference means is proved.

- `AI_SECURITY_MODEL.md:110` calls approvals single-use. The shipped trigger refuses every
  update of a decided row, so the outcome is never recorded and an approval stays usable
  (`SingleUse.ShippedApprovalsStayUsable`, `SingleUse.OneApprovalRunsForever`). For any trigger,
  single use holds in sequential runs exactly if the trigger admits every outcome of the requests
  whose approval it admits (`SingleUse.SingleUseIffOutcomesAdmitted`).
- The failure window of the lockout is called sliding but is anchored at the first failure of
  a count. With n the limit, the least number of counted failures within a window that cannot come
  without a lock is 2n - 1, or 2n - 2 if the first lock outlasts the window, for any n from two on
  and any positive window (`LockoutBounds.ForcedIff`). `LockoutBounds.WindowSlidesIff` says for
  which policies the limit itself is enough. The first failure of an identifier never locks, so a
  limit of one is not kept (`LockoutBounds.LimitLocksFreshAccountIff`). A failure during a lock
  does not extend it (`AbuseGuard.LockIsReportedExactly`).
- An anchor's `eventCount` is read after its head and is not compared on verification; it can
  exceed the number of rows up to the head by any number (`Anchor.SignedCountRunsAhead`).
- The parser normalises line ends once more on what is left in its buffer at each read, so a
  stream with `\r\r\n` is read differently under different cuts (`SseParse.CutsAgreeIffCrCrLfFree`,
  `SseParse.EventsAgreeIffCrCrLfFree`).
- Key rotation is stated against the active key, as `getActiveDek` returns it. Search, chat and
  export decrypt with the derived tenant key instead, and ingest encrypts with it: after a rotation
  the former cannot open any row (`RotationRuns.TenantKeyOpensIffNotRotated`) and one ingested chunk
  makes every later rotation fail (`RotationRuns.IngestBlocksRotation`).
- An erasure removes the documents its caller sees, held or not. What it has missed no later
  erasure finds (`DocumentRuns.ErasureIsCompleteIff`, `DocumentRuns.MissedIsMissedForGood`,
  `DocumentRuns.ErasureKeepsHoldsIff`). The shipped route is for owners, who see everything.

## Model

| member | source | states |
|---|---|---|
| JsonReader.PrintedIsRead | src/lib/hash.ts:13-15 | a reader that follows the grammar of RFC 8259, with its own table of escapes, reads the printed text of any plain value in front of any continuation that can follow a value as that value and that continuation |
| JsonReader.ParsePrint | src/lib/hash.ts:13-15 | parsing the `JSON.stringify` output of a plain value gives the value |
| JsonReader.PrintUnique | src/lib/hash.ts:13-15 | `JSON.stringify` output is uniquely decodable: two values printed in front of any continuation that can follow a value are equal if the texts are, and so are the continuations |
| JsonReader.PrintInjective | src/lib/hash.ts:13-15 | no two plain values print to the same text |
| JsonText.PrintOneLine | src/http/aiStream.ts:76 | printed JSON holds no control character, so a data frame is one line |
| CanonicalJson.CanonicalTextIffSameMeaning | src/lib/hash.ts:8-30 | two values get the same canonical JSON if and only if they are equal up to recursive reordering of object keys |
| CanonicalJson.CanonicalTextParses | src/lib/hash.ts:8-15 | the canonical JSON of a plain value parses to a canonical value of the same meaning |
| CanonicalJson.CanonicalUnique | src/lib/hash.ts:17-30 | a meaning has one value with sorted keys |
| CanonicalJson.SortedIsCanonical | src/lib/hash.ts:17-30 | sorting sorts every object in JavaScript's enumeration order and keeps the meaning |
| CanonicalJson.SortedIdempotent | src/lib/hash.ts:17-30 | `sortDeep` is idempotent |
| CanonicalJson.KeyOrder | src/lib/hash.ts:23-27 | the order in which the sorted object's keys are enumerated, array indices first, is a strict total order |
| KeyOrders.KeysAreEnumerated | src/lib/hash.ts:23-27 | that order puts array indices, which are the texts of the numbers below 2^32 - 1, first and by number, and the other keys after them by their UTF-16 code units |
| CanonicalJson.SortDeep | src/lib/hash.ts:17-30 | the recursive procedure that builds the sorted copy computes `Sorted` |
| CanonicalJson.SortMembersDeep | src/lib/hash.ts:22-28 | the loop that fills a new object from the sorted key list yields the members in enumeration order, each sorted |
| SecurityLog.ContentIffSameEvent | src/audit/securityLog.ts:31-45 | the hashed content of two events is the same string if and only if all columns agree, the payload up to key order |
| SecurityLog.ContentParses | src/audit/securityLog.ts:31-45 | the hashed content parses to an object with exactly the columns of the event under their names |
| SecurityLog.TailHashBindsHistory | src/audit/securityLog.ts:31-49 | two well linked logs that end in the same hash hold the same records in the same order and number, by backward induction over the hashes |
| SecurityLog.HashesDistinct | src/audit/securityLog.ts:47-49 | the hashes of a well linked log are pairwise distinct and none is the genesis value |
| SecurityLog.EventStore.AppendSecurityEvent | src/audit/securityLog.ts:56-98 | an undisturbed append adds one row with the given event at the end, keeps the rest, and keeps the log well linked and ordered by id |
| VerifyChain.VerifyChain | src/audit/verifyChain.ts:23-49 | accepts exactly the well linked logs; otherwise names the first bad row, with a well linked prefix before it, and the check that row fails first |
| VerifyChain.FaultDecides | src/audit/verifyChain.ts:29-48 | the answer is determined by the first fault |
| VerifyChain.RemovalIsLocated | src/audit/verifyChain.ts:30-33 | removing any block of rows before the end is reported at its successor as a previous-hash mismatch |
| VerifyChain.EditIsLocated | src/audit/verifyChain.ts:34-44 | editing a row's event is reported at that row as a hash mismatch, and goes unnoticed exactly if only key order changed |
| VerifyChain.RehashedEditIsLocated | src/audit/verifyChain.ts:30-45 | an edit with a recomputed hash is reported at the next row as a previous-hash mismatch |
| VerifyChain.RearrangedIffPrefix | src/audit/verifyChain.ts:23-49 | a log put together from rows of an accepted log, dropped, repeated, reordered or renumbered at will, is accepted if and only if it is a prefix of it up to ids |
| AppendProtocol.AppendsAreForkFree | src/audit/securityLog.ts:56-98 | for any number of writers interleaving lock, tail read, insert and commit or abort, every reachable committed log is one chain that the verifier accepts, and id order is chain order despite gaps |
| AppendProtocol.CommitAppends | src/audit/securityLog.ts:60-96 | in a reachable state a commit puts its row at the end of the log |
| AppendProtocol.CommittedStays | src/audit/securityLog.ts:56-98 | nothing committed is changed or lost by what happens later |
| AppendProtocol.RowsWereAsked | src/audit/securityLog.ts:71-94 | every row holds an event that some writer asked to append |
| AppendProtocol.ForkWithoutLock | src/audit/securityLog.ts:60-69 | without the advisory lock two writers can fork the chain |
| AppendProtocol.ForkFreeIffLocking | src/audit/securityLog.ts:60-69 | all runs are fork-free if and only if the lock is taken |
| Anchor.MessageDeterminesAnchor | src/audit/anchor.ts:31-43 | the signed message determines every field of the checkpoint |
| Anchor.AnchorMessageParses | src/audit/anchor.ts:31-43 | the signed message parses to an object of exactly the numbers and texts of the checkpoint and the algorithm under their names |
| Anchor.VerifyAnchors | src/audit/anchor.ts:146-172 | accepts exactly if no anchor has a fault and then counts them all; otherwise stops at the first faulty one with its number, reason and the number checked before |
| Anchor.HonestAnchorsVerify | src/audit/anchor.ts:98-172 | at any time of any run of writers and concurrent `createAnchor` calls every anchor verifies, if the key verifies the checkpoints it signed, and checkpoints are numbered 1, 2, 3 without gaps |
| Anchor.CreateAnchorAddsOneIffBehind | src/audit/anchor.ts:98-132 | from every reachable state an undisturbed `createAnchor` adds exactly one checkpoint if there is none or the last one has another event id or chain hash than the head of the log, and else changes nothing; the new one is numbered one more than the last, holds the head's id and hash and the number of rows, and its own signature |
| Anchor.AnchorsPinHistory | src/audit/anchor.ts:98-172 | any log that the chain and the anchor verifier both accept holds, up to an anchored event id, exactly the records, order and row count of the honest log there, although ids are not hashed and the count is never compared; only the anchors presented need be unforged |
| Anchor.CountIsExactIffHeadIsLast | src/audit/anchor.ts:75-84 | the count that gets signed is the number of rows up to the signed head if and only if the head is still the last row when rows are counted |
| Anchor.CountMayRunAhead | src/audit/anchor.ts:75-84 | in a reachable state whose head was read and whose next row is inserted, a commit before the rows are counted is counted beyond the head |
| Anchor.SignedCountRunsAhead | src/audit/anchor.ts:75-132 | for every n some run from the empty log signs a checkpoint whose count exceeds the rows up to its event by n |
| Oversight.DbOversightGate.ExpireStale | src/compliance/oversight.ts:30-39 | expires exactly the caller's stale pending requests and returns how many, or fails without a change if the trigger refuses one |
| Oversight.DbOversightGate.Check | src/compliance/oversight.ts:57-109 | expires first and fails if that fails; then grants on a usable approval for the same organisation, tool and argument hash, else returns the pending request or creates one that expires in 24 hours |
| Oversight.CheckOutcome | src/compliance/oversight.ts:61-109 | the lookup answers with an approved request of the invocation that has no outcome if there is one, else with a pending one, and only if there is neither adds one, pending, with the given risk and expiring 86400000 milliseconds later |
| Oversight.HistoryIff | src/db/sql/0005_compliance.sql:64-82 | whatever updates are tried, the trigger lets a row go through exactly the sequences of states of one organisation, tool, argument hash and creation time in which none but the last is decided |
| Oversight.RequestExpiresAfterADay | src/compliance/oversight.ts:30-102 | a new request is pending, and an expiry pass expires it exactly if it comes more than 86400000 milliseconds later and the trigger lets it |
| Oversight.DbOversightGate.RecordOutcome | src/compliance/oversight.ts:111-118 | sets the outcome if the trigger lets it, else fails without a change |
| Oversight.DbOversightGate.Decide | src/compliance/oversight.ts:121-146 | decides a pending request of the caller's organisation, says so and logs the decision; else changes and logs nothing, and an exception of the trigger is one |
| Oversight.DecisionEffect | src/compliance/oversight.ts:121-146 | a decision is made exactly on a pending request of the decider's organisation, if the trigger lets it, and sets status and decider of that request and nothing else |
| Oversight.GateStaysInOrganisation | src/db/sql/0005_compliance.sql:54-60 | expiry, lookup, outcome and decision leave every row of another organisation as it is and add none to it |
| Sandbox.HighRiskRunsAreApproved | src/ai/tools/sandbox.ts:130-187 | under any trigger and any interleaving of calls, decisions and expiry, every run of a tool whose risk is HIGH or CRITICAL, handler or isolation runner, comes after an approval of a request that the gate created earlier for the same organisation, tool and arguments up to key order |
| Sandbox.EveryRunPassedTheGates | src/ai/tools/sandbox.ts:91-187 | nothing runs that is not allowlisted, not approved although dangerous, without a gate although its risk is HIGH or CRITICAL, or in process although it needs isolation |
| Sandbox.CallRunsIff | src/ai/tools/sandbox.ts:91-187 | an undisturbed call runs its tool if and only if the tool is allowlisted, the arguments are valid, the store approves it if it is dangerous, there is a runner if it needs isolation, and, if its risk is HIGH or CRITICAL, there is a gate whose expiry succeeds and an approved request without outcome for the same organisation, tool and arguments; with risk LOW, MEDIUM or none it runs without a request |
| Sandbox.OutcomeIsRecorded | src/ai/tools/sandbox.ts:150-187 | an undisturbed run on an approval leaves `executed: ok=` or `executed (isolated): ok=` and the handler's success as the outcome of that request and returns the result, or, if the trigger refuses, leaves the requests as they were and returns a failed run |
| Sandbox.ExecuteIsOneCall | src/ai/tools/sandbox.ts:91-187 | the sequential account of a call is one undisturbed run of the interleaved machine |
| Sandbox.ExecuteTool | src/ai/tools/sandbox.ts:91-187 | the procedure with its ordered gates and early returns, with or without an oversight gate, leaves the requests, the decision and the handler invocation that the machine says |
| Sandbox.RunCleared | src/ai/tools/sandbox.ts:150-187 | isolation boundary, handler and outcome recording after the gate, including the failed run reported when recording is refused |
| Grants.AtMostOneOpenRequest | src/compliance/oversight.ts:57-109 | under any trigger and interleaving of gate transactions an invocation has at most one request that is pending or approved without outcome |
| Grants.CheckPicksTheOne | src/compliance/oversight.ts:61-88 | corollary: in every reachable state that request is the one `check` answers with |
| Grants.StepKeepsGrants | src/compliance/oversight.ts:57-146 | under any trigger and interleaving every step keeps this: pending rows are as the gate created them for a registered tool of high risk, usable ones are such rows whose approval the trigger admitted, and a call past the gate holds a decided request for its own tool |
| SingleUse.ConsumptionBound | src/ai/tools/sandbox.ts:175-183 | where outcomes use up approvals, resolved runs never exceed approvals |
| SingleUse.RunKeepsConsumption | src/ai/tools/sandbox.ts:130-187 | if the trigger admits outcomes, then with one call at a time every resolved high-risk run has consumed an approval of its own or is about to |
| SingleUse.ShippedApprovalsStayUsable | src/db/sql/0005_compliance.sql:64-82 | with the shipped trigger no row ever gains an outcome, and an approved request stays usable in every later state |
| SingleUse.OneApprovalRunsForever | src/db/sql/0005_compliance.sql:67-70 | corollary: with the shipped trigger, for every tool of high risk, arguments and n some run has one approval and n resolved executions |
| SingleUse.SingleUseIffOutcomesAdmitted | src/db/sql/0005_compliance.sql:64-82 | for every registry and trigger: resolved executions are bounded by approvals in all sequential runs if and only if the trigger admits every outcome of the requests, of the shape the gate creates, whose approval it admits |
| SingleUse.RefusedApprovalRunsForever | src/ai/tools/sandbox.ts:175-183 | under any trigger, an approval on which the outcome of some tool is refused lets that tool run any number of times |
| SingleUse.ShippedTriggerIsSingleUseIff | src/db/sql/0005_compliance.sql:67-70 | corollary: with the shipped trigger approvals are single-use if and only if no registered tool has risk HIGH or CRITICAL |
| SingleUse.DocumentedTriggerIsSingleUse | src/db/sql/0005_compliance.sql:64-82 | corollary: a trigger that also lets an approved row receive its outcome makes approvals single-use |
| AbuseGuard.Guard.CheckLockout | src/auth/abuseGuard.ts:53-67 | reports a lock and its remainder exactly while one is in force, and changes nothing |
| AbuseGuard.Guard.RecordFailure | src/auth/abuseGuard.ts:74-128 | changes one identifier's row as `Fail` says and no other, logs exactly the locks it applies, and reports what the gate reports then, except that a lock of length zero is reported as one |
| AbuseGuard.Guard.RecordSuccess | src/auth/abuseGuard.ts:131-133 | deletes the identifier's row |
| AbuseGuard.Guard.ClearLockout | src/auth/abuseGuard.ts:139-146 | deletes the identifier's row and says whether there was one |
| AbuseGuard.LocksDouble | src/auth/abuseGuard.ts:104-111 | the first lock is the base, each further one twice the last, none longer than the maximum |
| AbuseGuard.LockIsReportedExactly | src/auth/abuseGuard.ts:53-95 | a lock applied at t for r is reported with the exact remainder at every time in [t, t+r) and at none after until the next lock, whatever failures arrive meanwhile |
| LockoutBounds.GuessBound | src/auth/abuseGuard.ts:86-116 | in a run of failures over time T, counted ones number at most maxFailures per lock plus maxFailures - 1 for each window of more than windowMs that fits into T, and one more |
| LockoutBounds.PacedGuessesAttainTheBound | src/auth/abuseGuard.ts:97-104 | for every number of windows there is a run that attains this bound and is never locked |
| LockoutBounds.BudgetIffSomeFailureAllowed | src/auth/abuseGuard.ts:86-116 | counted failures are at most maxFailures * (locks + T / windowMs + 1) in every run if and only if maxFailures is at least one |
| LockoutBounds.BackoffBound | src/auth/abuseGuard.ts:104-111 | k locks take at least the sum of the first k - 1 lock lengths, the base doubling up to the maximum |
| LockoutBounds.LocksIffTimeAllows | src/auth/abuseGuard.ts:86-111 | there is a run within T with k locks if and only if these lengths fit into T |
| LockoutBounds.TwiceTheLimitForcesALock | src/auth/abuseGuard.ts:97-111 | corollary: after any earlier run, 2 * maxFailures - 1 counted failures within windowMs include a lock |
| LockoutBounds.ForcedIff | src/auth/abuseGuard.ts:86-111 | for every policy and after any earlier run: n counted failures within windowMs include a lock if and only if n reaches 2 for a limit below two, the limit for a zero window, 2 * limit - 1 if a first lock fits into the window, and else 2 * limit - 2 |
| LockoutBounds.WindowSlidesIff | src/auth/abuseGuard.ts:97-104 | corollary: maxFailures failures within any window lock if and only if maxFailures is at least two and the window is zero, or maxFailures is two and the first lock outlasts the window |
| LockoutBounds.LimitLocksFreshAccountIff | src/auth/abuseGuard.ts:86-104 | maxFailures failures within the window lock an identifier without a row if and only if maxFailures is at least two |
| SseParse.ParseBlock | src/ai/providers/sseParse.ts:38-48 | data lines are joined, the last event line names the event, a block without data gives none |
| SseFields.FieldsRoundTrip | src/ai/providers/sseParse.ts:13-48 | frames of any data, event and other lines, ended by `\n` or `\r\n` and cut into any pieces: each frame with data lines is read as one event whose data split at line breaks is the values of these lines and whose name is that of the last event line; the other frames yield nothing |
| SseFields.OtherLinesDoNotMatter | src/ai/providers/sseParse.ts:41-46 | a comment, id or retry line in a frame changes neither |
| SseParse.TakeBlocks | src/ai/providers/sseParse.ts:23-29 | the inner loop yields the events of all complete blocks and keeps the rest |
| SseParse.IterateSse | src/ai/providers/sseParse.ts:13-36 | the loop over reads yields the specified events |
| SseParse.StreamingEqualsBatch | src/ai/providers/sseParse.ts:13-36 | for every stream without `\r\r\n` and every way of cutting it into reads the parser yields the events of the whole normalised text |
| SseParse.EventsFromText | src/ai/providers/sseParse.ts:17-29 | for any stream the events depend only on the text that the normalised reads add up to |
| SseParse.TailIsNotEmitted | src/ai/providers/sseParse.ts:23-35 | an unterminated tail contributes no event |
| SseParse.CutsAgreeIffCrCrLfFree | src/ai/providers/sseParse.ts:20-22 | every cut of a stream is read as the same normalised text if and only if the stream holds no `\r\r\n` |
| SseParse.CutMatters | src/ai/providers/sseParse.ts:20-22 | a stream with `\r\r\n` and two cuts of it that yield different events |
| SseParse.EventsAgreeIffCrCrLfFree | src/ai/providers/sseParse.ts:17-29 | for every stream that has no `\r\r\n`, or has one that ends a non-blank data line after complete blocks and before a blank line, whatever follows: every cut yields the events of the whole text if and only if there is none |
| AiStream.FramesRoundTrip | src/http/aiStream.ts:74-84 | printing events as frames and reading the text in any pieces gives exactly those events, for one-line data that neither starts with white space nor ends in a carriage return |
| AiStream.RoundTripIffCarried | src/ai/providers/sseParse.ts:38-48 | for one event with one-line data and a trimmed name this condition is exact |
| AiStream.ChatStream | src/http/aiStream.ts:74-88 | the handler's loop writes the frames of the chunks up to the first one marked done or until the connection closes, then done or error |
| AiStream.ClientReadsTheChunks | src/http/aiStream.ts:74-88 | whatever the provider yields and however the response is cut, a client reads one data event a written chunk, in order, each of which parses as JSON to that chunk, then error if the provider threw, or done if the connection was open |
| KeyRotation.Reencrypt | src/admin/encryption.ts:84-116 | the offset and limit paging re-encrypts each visible row exactly once with a draw of its own and counts them, or fails exactly if some visible row does not open |
| KeyRotation.Database.EnsureKeyVersion | src/admin/encryption.ts:22-32 | creates version 1 from the tenant key unless there is an active key, returns the active key, and changes nothing on failure |
| KeyRotation.Database.RotateKey | src/admin/encryption.ts:57-80 | re-encrypts, retires the active version and inserts the next, logging the rotation; every failure leaves the whole database as it was |
| KeyRotation.VersionsStayUnique | src/admin/encryption.ts:22-80 | no creation or rotation gives an organisation a version twice, whatever keys there are |
| KeyRotation.EachSealHasItsOwnDraw | src/admin/encryption.ts:57-116 | in a rotation every visible chunk, every visible message and the new key are sealed with a random draw of their own |
| RotationRuns.RotationDoesNotShow | src/admin/encryption.ts:57-80 | by a caller who sees all rows of the organisation, with an active key, a rotation always succeeds, counts exactly the organisation's rows, advances the version by one and changes no plain text of any organisation |
| RotationRuns.EnsuringDoesNotShow | src/admin/encryption.ts:22-32 | one step of the run theorem: creating the first version changes no plain text, and doing it again changes nothing |
| RotationRuns.RotationsDoNotShow | src/admin/encryption.ts:22-116 | over any run of key creations, rotations with full clearance, writes under the active key and deletions, of any organisations, what the active keys open is what a store of plain texts without any keys holds |
| RotationRuns.ActiveKeyOpensEverything | src/admin/encryption.ts:39-44 | at any time of a run as in `RotationsDoNotShow` there is an active key exactly once a version was created, and it opens every chunk and message of the organisation to the text that was written; until then the tenant key does |
| RotationRuns.RotationShowsIffRowsHidden | src/admin/encryption.ts:84-116 | a rotation to another key keeps all plain texts if and only if the caller sees every row of the organisation |
| RotationRuns.TenantKeyOpensIffNotRotated | src/documents/search.ts:78-84 | corollary: the tenant key opens a chunk if and only if it is still the organisation's key |
| RotationRuns.IngestBlocksRotation | src/documents/ingest.ts:83-116 | once the key is another, a rotation goes through if and only if the caller does not see a chunk ingested under the tenant key, and else changes nothing |
| Ranking.TopIsClosest | src/documents/search.ts:73-74 | ordering and limit: in order, without repetition, and no omitted row comes before a taken one |
| Ranking.TopIsUnique | src/documents/search.ts:73-74 | this determines the rows and how they are listed |
| Documents.DocumentStore.IngestDocument | src/documents/ingest.ts:57-138 | checks in order, then document, chunks and log row together; any refusal or database error leaves no row and no file |
| Documents.DocumentStore.SoftDeleteDocument | src/documents/lifecycle.ts:68-86 | marks a visible document that is not held as deleted and logs it |
| Documents.DocumentStore.SetLegalHold | src/documents/lifecycle.ts:89-103 | sets or releases the hold of a visible document that is not deleted |
| Documents.DocumentStore.EraseUser | src/documents/erasure.ts:20-74 | deletes the visible chunks and marks the visible documents of the user, deletes the user's messages in the organisation, anonymises the log, removes the account and all references of documents to it, and audits and returns the three counts |
| Documents.DocumentStore.Search | src/documents/search.ts:52-100 | of the live chunks of the caller's organisation that are PUBLIC for a clearance from 0, INTERNAL from 1, CONFIDENTIAL from 2 and SECRET from 3, document included, returns the closest, as many as asked for and there are, nothing left out being closer, each with the fields of its chunk and document, and logs the query |
| DocumentAccess.SearchIsTopK | src/documents/search.ts:62-90 | search returns, of these chunks, the closest by falling similarity, as many as asked for and there are, each once and with its own fields, and leaves out none closer than one returned |
| DocumentAccess.AnswerIsUnique | src/documents/search.ts:62-90 | these conditions determine the answer |
| DocumentAccess.HiddenRowsDoNotInterfere | src/db/sql/0004_documents.sql:93-111 | search, listing, version history and the next version are the same in any two states that agree on the rows of the caller's organisation at or below the caller's clearance |
| DocumentAccess.LayersSelectTheSame | src/documents/search.ts:70-72 | corollary of `ChunksAlwaysFollow`: chunk policy, document policy and the query's own predicate within the organisation each select the same live chunks |
| DocumentEffects.PageIsNewest | src/documents/lifecycle.ts:15-31 | a page of the listing, of at most 200, holds documents of the organisation within the clearance that are not deleted, the k-th being the one that exactly `offset + k` of these are newer than |
| DocumentEffects.UploadOutcome | src/documents/ingest.ts:57-79 | the refusals in the order in which they decide: for clearance exactly below 0, 1, 2 or 3 for PUBLIC, INTERNAL, CONFIDENTIAL or SECRET |
| DocumentEffects.UploadReaches | src/documents/ingest.ts:85-124 | after an upload exactly the callers of the organisation with the clearance can list the document and find all its chunks, and what anyone lists or finds of others is as before |
| DocumentEffects.UploadIsSearchable | src/documents/search.ts:62-90 | such a caller whose limit covers what it can find gets every uploaded piece, with its text, place, title and classification |
| DocumentEffects.NewVersionJoins | src/documents/ingest.ts:141-153 | a caller gets the base for a new version exactly of a document it may read; what it uploads to it is one version on, in the same family and in the history it reads |
| DocumentEffects.DeletionEffect | src/documents/lifecycle.ts:68-86 | a deletion succeeds exactly for a document the caller may read that is not held, takes it and its chunks from every caller and nothing else from any, and is logged |
| DocumentEffects.HoldGuards | src/documents/lifecycle.ts:68-103 | a hold can be set or released exactly on an undeleted document the caller may read; while it is set every deletion by whoever may read it is refused, once released every one succeeds |
| DocumentEffects.ErasureEffect | src/documents/erasure.ts:26-74 | an erasure takes from every listing exactly the user's documents that its caller may read, removes exactly their chunks and the user's messages, and audits these numbers |
| DocumentRuns.VersionsAreTheFamily | src/documents/ingest.ts:141-153 | in every reachable state, reads and uploads interleaved, parents are roots of the same organisation, a family has every version from 1 up, and version history from any member the caller may read lists exactly the members it may read, once each in version order |
| DocumentRuns.VersionCanBeAdded | src/documents/ingest.ts:141-153 | whoever may read a document can, by reading it and uploading to it, add the next version to the history it reads |
| DocumentRuns.NoGaps | src/documents/ingest.ts:141-153 | a family has every version from 1 up to that of any member |
| DocumentRuns.ChunksAlwaysFollow | src/documents/ingest.ts:106-116 | in every reachable state every chunk carries its document's organisation and classification |
| DocumentRuns.RemovedStaysRemoved | src/documents/lifecycle.ts:15-31 | after a successful deletion, or an erasure that found the document, no listing or search of any caller in any later state returns it |
| DocumentRuns.ErasureIsCompleteIff | src/documents/erasure.ts:26-47 | of one call: an erasure removes every document of the user in the organisation if and only if the caller may read all that were not deleted before |
| DocumentRuns.MissedIsMissedForGood | src/documents/erasure.ts:26-60 | in no later state of a run in which the erased account uploads nothing does an erasure of the same user, whoever asks for it, find a document |
| DocumentRuns.ErasureForgetsTheUser | src/documents/erasure.ts:34-60 | after an erasure no document and no log row of any organisation refers to the user and the account is gone; the log is otherwise as it was, and exactly the chunks of the found documents and the user's messages of the organisation are gone |
| DocumentRuns.HeldIsNotDeleted | src/documents/lifecycle.ts:68-103 | without erasures no reachable document is both held and deleted |
| DocumentRuns.HeldSurvives | src/documents/lifecycle.ts:68-103 | once a caller who may read it has put an undeleted document under hold, it stays undeleted in every later state of a run, whatever deletions are tried, until the hold is released or an account erased |
| DocumentRuns.ErasureKeepsHoldsIff | src/documents/erasure.ts:41-46 | an erasure keeps this if and only if it finds no held document |
| DocumentRuns.FilesAreOk | src/documents/ingest.ts:81-138 | in every reachable state the stored files are those of the documents, one each |
| Chunking.ChunkText | src/documents/chunk.ts:16-38 | the loop yields the specified windows |
| Chunking.ChunkIsWindow | src/documents/chunk.ts:27-36 | chunk k is tokens[k * step .. min(k * step + chunkSize, n)] with its index and token count, and there is a next one exactly while the last has not reached the end |
| Chunking.NumberOfChunks | src/documents/chunk.ts:27-36 | the count is 1 + ceil(max(0, n - chunkSize) / step) |
| Chunking.ChunksRebuild | src/documents/chunk.ts:27-36 | dropping the overlaps and concatenating gives the tokens back |
| Chunking.EveryChunkAddsTokens | src/documents/chunk.ts:34 | every chunk but the first holds more than the overlap |
| Chunking.ConsecutiveChunks | src/documents/chunk.ts:20-36 | consecutive chunks share exactly `overlap` tokens if that is less than the chunk size, and else start one token apart |
| Chunking.NothingLostIffStepFits | src/documents/chunk.ts:20-22 | every token of every text is in a chunk if and only if the chunk size is positive and the overlap not negative |
| StreamLimiter.Limiter.Acquire | src/http/rateLimits.ts:79-91 | hands out a handle and counts it exactly if the organisation is below its cap; the counter is always the number of open handles |
| StreamLimiter.Handle.Release | src/http/rateLimits.ts:84-90 | takes one off its organisation's counter the first time, nothing the second, and touches no other organisation |
| Anomaly.AuditStreams.DetectAnomalies | src/security/anomaly.ts:68-97 | the loop appends and returns the anomalies of the rules that are over their threshold and not raised within the window |
| Anomaly.AnomaliesAreSeparated | src/security/anomaly.ts:54-97 | in any run of recorded events and passes with one window, two anomalies of a kind are more than the window apart |
| Anomaly.RaisedIffOverThreshold | src/security/anomaly.ts:83-95 | after a pass a kind has an anomaly in the window if and only if it had one before or the number of its events in the window has reached its threshold |
| Anomaly.RaisedInTurn | src/security/anomaly.ts:75-95 | a pass only adds, at most one anomaly of a kind, lockouts before rejections before rotations before role changes, each with the number of events in the window, which has reached the threshold |
| Anomaly.RunCountsRecords | src/security/anomaly.ts:48-52 | in any run the events in a window are those recorded |
| Anomaly.SeparationIffInOrder | src/security/anomaly.ts:70-92 | a pass keeps separation for all logs if and only if it writes no earlier than the `now` it uses, so a caller's `now` ahead of the clock loses it |

## Left out

- Cryptography itself: SHA-256, AES-GCM, HKDF, Ed25519 and Argon2 are abstract; base64 and key lengths are not modelled.
- Anchor: the sink that receives a new checkpoint, and what `createAnchor` returns.
- Postgres internals: transactions are atomic steps except in the audit append and `createAnchor`, whose statements interleave; the HNSW index is taken as exact, ties in an order are broken by id, and distances are reals.
- Races that the code does not guard: read-then-write in `recordFailure`, two concurrent lookups in `check`, two calls that run on one approval before either records its outcome, a hold set between the check and the update of `softDeleteDocument`, the quota check before an upload.
- JSON: plain data only. `undefined`, NaN, `__proto__` keys and lone surrogates are not modelled, and a number is the numeral that prints it.
- Times: `createdAt` in the audit log is its ISO text; elsewhere times are integers. The `updatedAt` and `decidedAt` columns are not modelled.
- `decide` does not look at `expiresAt`, so nothing is claimed about approvals after expiry.
- Oversight: the encrypted copy of the arguments, the notifier of new requests, and the requester of a request. The decision event is a row of its own; how the log chains it is `AppendProtocol`.
- Sandbox: schema validation, timeouts, abort signals and granted secrets enter as a parsed value and a handler result.
- SseParse: characters, not bytes, so `TextDecoder` is not modelled; of section 9.2.6 of the WHATWG HTML standard only what the code does is modelled: no lone CR line ends, all leading white space of data stripped.
- SseParse.EventsAgreeIffCrCrLfFree: covers the streams of its row only. Elsewhere, for example in a line that is neither data nor event, `\r\r\n` may change no event under any cut; for the text that blocks are cut from, `CutsAgreeIffCrCrLfFree` covers every stream.
- AiStream: back-pressure and response headers.
- KeyRotation: one `Reencrypt` stands for the two loops over chunks and messages, which differ in the table only.
- Documents: text extraction, virus scanner and embedder enter as inputs of an upload; a failing removal of a stored file, which the code ignores, is taken to succeed. `getDocument` and version history still return deleted documents, and nothing else is claimed.
- Documents: what deleting an account cascades to, which is memberships, sessions and backup codes. No step of the runs writes messages or accounts.
- Chunking.ChunkText: chunk sizes are natural numbers, and `encode` and `decode` of the tokeniser are the identity.
- StreamLimiter: one process, as in the code.
- Anomaly.AuditStreams.DetectAnomalies: the notification sink; the append is that of `SecurityLog`.
- HTTP routes, Fastify plugins, admin UI, PDF and ZIP export, webhooks, OIDC, SAML, SCIM, LLM clients: input and output, or thin wrappers.
- Role matrix, configuration validation, secret heuristics, SSRF ranges, redaction, MFA, metering: finite tables and one-branch facts that would only add easy members.
