# Meno API: a verified model

The Meno API is the server of a live-audio platform: broadcasts, notifications, sessions, and notes that are written offline
and synchronised later. This project models the parts of it whose correctness spans several requests, clients or concurrent
calls, and proves what they keep. SQL tables are maps of rows, Redis is a map of values with expiry times, and time and
randomness are parameters. Where the program updates something step by step, a class or method does the same here and is
proved to compute the function that the theorems are about.

| files | system |
|---|---|
| `NotesModel`, `NotesPush`, `NotesBatch`, `NotesRetry` | a sync push: optimistic versions, last-writer-wins on an id collision, folders first, one transaction |
| `NotesAnswers`, `NotesEffects` | what each answer says and what each request does to its row, field by field |
| `NotesOutcomes` | what decides whether a batch fails, which folder a note keeps, and which version a conflict shows |
| `NotesPull`, `NotesReplica`, `NotesCommands`, `NotesWorld` | a sync pull, a client's copy, and whole histories of requests, pulls and purges |
| `NotesVersions` | what a version number counts |
| `NotesServer`, `BatchedDelete` | the notes service and the batched deletion loops in imperative form |
| `Keyset`, `Pagination` | keyset paging: the SQL tail, the page, the walk over all pages |
| `Text`, `Encodings`, `Cursors` | decimal, UTF-8, base64 (RFC 4648, section 5) and UUID text (RFC 9562, section 4), and the four cursor shapes |
| `Tokens`, `SessionLaws` | refresh sessions and access-token blocklists, and exactly when a token is accepted |
| `RateLimit` | the sliding-window limiter |
| `Coalescing` | cache filling under a lock with a lifetime |
| `WebSockets`, `WebSocketDelivery` | connection registry, offline buffer, what one user's socket sees, and what becomes of every message |
| `CircuitBreaker` | the breaker in front of LiveKit, call by call and atomic step by atomic step |
| `CacheKey` | keys of cached broadcast lists |
| `Interpolation` | notification texts |

## What is proved

* **Replica convergence.** Over any history of anyone's requests, purge batches and one client's pulls, at strictly increasing
  times, the client holds the current value of each of its rows up to its cursor; after a page without more its copy is the
  server's. Pulling on without writes ends in that state for every page size.
* **Tombstone retention.** If the client was last caught up at or after the purge cutoff, no purge leaves a note or folder live
  on the client that is gone on the server.
* **Reordering is invisible.** Folders-first processing has the outcome, database and positional results of submission order.
* **No lost updates.** A note's version is one plus its successful writes, and within its lifetime the bases of its guarded writes
  strictly increase. In a batch with distinct ids a reported conflict can be retried with the version it shows.
* **Outcomes.** What every answer of a push and every other request says and does to its row. Exactly which mutations fail a batch, exactly which notes keep the folder they name, and exactly when a conflict
  shows a mutation its own base version.
* **Retry.** Exactly when a committed batch can be pushed again, and exactly when that leaves all values as they are.
* **Sessions.** Over every serial run, exactly when a refresh token and an access token that were handed out are accepted. A refresh
  token is accepted once; cleanup is invisible; a revocation of all of a user's tokens stops every access
  token of an earlier second for good, and a single one every access token with at most 900 seconds left. Both limits are exact.
* **Rate limit.** At most `limit - 1` requests per aligned window, and `limit - 1 + ceil((limit - 1) * x / W)` in any interval of
  one window's length that starts `x` into a window.
* **Coalescing, WebSockets, circuit breaker.** Over all interleavings: where values come from, how much work a caller does,
  exactly when a key has one winner at a time; a stored value served for its time;
  messages written in send order without duplicates, each one written, on its way, or lost in a named way; a breaker that never gets stuck open, and exactly when a
  late check can undo a close.
* **Codecs.** Cursor round trips and shape separation; cache keys that agree exactly when the requests mean the same; sequential
  placeholder replacement that equals simultaneous replacement exactly when no value can be taken for part of another placeholder.

## Where the code and its comments differ

The model follows the code.

* `notes/service.rs:357-361` says a note can be filed into a folder of the same batch. `owned_folder_ids` reads through the pool,
  not the transaction, so a note keeps the folder it names exactly when the caller owned it before the batch
  (`NotesOutcomes.FolderKeptExactly`); a new folder pushed with a new note in it is stored, the note unfiled
  (`NotesOutcomes.FolderOfSameBatchIsDropped`). Pushing the batch again refiles the note if it is overwritten then
  (`NotesRetry.RetryKeepsValues`).
* `notes/service.rs:431-432` says one bad mutation must not poison the batch. That holds for titles and contents that are too long.
  A mutation fails, and rolls everything back, exactly when it names a base version that no row of the caller has while the caller
  has no live row of that id, when it claims as new, and not deleted, an id whose row is not a live one of the caller, or when it would overwrite a row
  at the last version (`NotesOutcomes.BatchFailsExactly`, `NotesOutcomes.StaleEditPoisonsBatch`). So repeating a batch that applied
  a versioned delete fails (`NotesRetry.RetrySucceedsWithoutVersionedDeletes`).
* A conflict carries the current row "so the client's sync engine can resolve the conflict" (`notes/dto.rs:255-258`). The row is
  looked up outside the transaction, so when an earlier mutation of the batch has overwritten it, a later one with the committed
  version as its base is shown that very version (`NotesOutcomes.OwnBaseShownExactly`, `NotesBatch.RepeatedIdIsShownItsOwnBase`).
* `ws/mod.rs:283-296` promises the last 50 messages. The stop index of `LTRIM` is inclusive, so 51 stay.
* `broadcast/dto.rs:360-370` describes keys `bl:...` with alphabetical segments and defaults left out. The code writes
  `bc:list:...` in its own order, with sort and order always present.
* `pinned` is optional in a request for a new folder, but without it the insert puts NULL into a NOT NULL column and fails
  (`NotesCommands.CreateFolderSucceedsExactly`).
* Purging a folder sets `folder_id` of its notes to NULL through the foreign key, and the update trigger stamps those notes without
  a new version; the change reaches clients all the same.
* A check that found the circuit breaker open and answers only after others have closed it puts it back to half-open. That can
  happen in a run exactly when a close happens over such a check (`CircuitBreakers.LateChecksUndoExactly`), and it does happen
  (`CircuitBreakers.LateCheckHappens`).
* An actor whose name is `{title}` can be shown as the broadcast title (`Interpolation.NameCanBeReplaced`).

## Model

| member | source | states |
|---|---|---|
| NotesServer.OpenTable.UpsertIfAbsent | apps/api/src/modules/notes/repository.rs:625-649 | an id that exists is left alone and yields nothing; a new one is inserted with version 1 |
| NotesServer.OpenTable.ApplySnapshot | apps/api/src/modules/notes/repository.rs:651-724 | the guarded and the forced snapshot write: only an own row at the given version changes, its version grows by one, the first deletion time is kept, an undelete clears it |
| NotesServer.ApplyMutation | apps/api/src/modules/notes/service.rs:425-529 | writes go to the open transaction and lookups to committed rows; outcome, row and error of every branch |
| NotesServer.SplitByType | apps/api/src/modules/notes/service.rs:362-369 | the two queues are the folder and the note mutations of the batch, in order, with their submission indices |
| NotesServer.ApplyFolders | apps/api/src/modules/notes/service.rs:375-378 | the folder loop in the transaction does what the queue semantics says, up to its first error |
| NotesServer.ApplyNotes | apps/api/src/modules/notes/service.rs:401-413 | the note loop, unfiled notes included, continues the folder loop |
| NotesServer.NotesService.SyncPush | apps/api/src/modules/notes/service.rs:342-423 | the whole push commits the database and returns the results of the specification, or leaves the database as it was |
| NotesServer.NotesService.UpdateNote | apps/api/src/modules/notes/service.rs:55-82 | a guarded edit of a live own note; otherwise not found, or a conflict with the current row |
| NotesServer.NotesService.DeleteNote | apps/api/src/modules/notes/service.rs:84-106 | a guarded soft delete, with the same two failures |
| NotesEffects.DtoShows | apps/api/src/modules/notes/dto.rs:112-126 | clients are sent every field of a row, and of the tombstone only that it is there |
| NotesEffects.CreateNoteEffect | apps/api/src/modules/notes/service.rs:39-53 | on a free id with a body that fits, a first version with exactly that body; else a database error and no change |
| NotesEffects.UpdateNoteEffect | apps/api/src/modules/notes/repository.rs:245-276 | of the live note at the given version, absent fields stay and the folder is set as sent, version and time move; else a conflict with the current row or not found |
| NotesEffects.DeleteNoteEffect | apps/api/src/modules/notes/repository.rs:278-301 | the live note at the given version becomes a tombstone of now, with its body; else a conflict or not found |
| NotesEffects.AddNoteToFolderEffect | apps/api/src/modules/notes/service.rs:202-241 | the note moves to a live folder of the caller; already there, nothing changes |
| NotesEffects.RemoveNoteFromFolderEffect | apps/api/src/modules/notes/service.rs:243-255 | the note leaves exactly that folder, or is not found |
| NotesEffects.MoveNotesEffect | apps/api/src/modules/notes/service.rs:257-282 | every listed live note of the caller moves, every other row stays, and the reply shows exactly the moved ones |
| NotesEffects.CreateFolderEffect | apps/api/src/modules/notes/service.rs:122-135 | a first version with that title and pinned flag |
| NotesEffects.UpdateFolderEffect | apps/api/src/modules/notes/repository.rs:507-533 | of the live folder at the given version, absent fields stay; else a conflict or not found |
| NotesEffects.DeleteFolderEffect | apps/api/src/modules/notes/repository.rs:535-558 | the live folder at the given version becomes a tombstone of now; its notes are not touched |
| NotesEffects.PushSizes | apps/api/src/modules/notes/service.rs:347-355 | an empty push does nothing, one of more than 200 mutations is refused |
| NotesEffects.PurgeTakesExactly | apps/api/src/modules/notes/repository.rs:870-942 | a complete purge leaves exactly the rows that are no tombstone from before the cutoff |
| NotesEffects.PurgeFoldersEffect | packages/db/migrations/0011_notes_schema.sql:7 | with a folder gone its notes are in none and carry a new time, and nothing else of them changes |
| NotesServer.NotesService.PurgeDeletedNotes | apps/api/src/modules/notes/repository.rs:870-942 | whichever rows the batches pick, exactly the tombstones older than the cutoff go, and their number is returned |
| NotesServer.NotesService.PurgeDeletedFolders | apps/api/src/modules/notes/repository.rs:877-942 | the same for folders; notes in purged folders lose the folder, are stamped, and keep their version |
| BatchedDelete.DeleteInBatches | apps/api/src/modules/notes/repository.rs:901-942 | rounds of min(5000, remaining) rows end, delete exactly the stale rows and count them |
| NotesPush.QueueSplits | apps/api/src/modules/notes/service.rs:425-633 | a queue of mutations does what its folder half and its note half do apart |
| NotesPush.ReorderingIsInvisible | apps/api/src/modules/notes/service.rs:357-422 | a push succeeds exactly when submission order would, with the same database and the same result at every position |
| NotesPush.ResultsArePositional | apps/api/src/modules/notes/service.rs:417-420 | result i has the id and kind of mutation i, one per mutation |
| NotesPush.PushFilesUnderOwned | apps/api/src/modules/notes/service.rs:380-410 | every note row a push changes is in no folder or in a committed folder of the caller (`FolderKeptExactly` says when it keeps the one named) |
| NotesBatch.PushIsApart | apps/api/src/modules/notes/service.rs:425-633 | with distinct ids, a batch succeeds exactly when each mutation would alone (the guard is in `BatchFailsExactly`), each with its own answer and row; unnamed rows stay |
| NotesBatch.ConflictCanBeRetried | apps/api/src/modules/notes/service.rs:500-527 | a base-version conflict leaves the row, reports a version other than the base, and the retry with that version is applied |
| NotesBatch.RepeatedIdIsShownItsOwnBase | apps/api/src/modules/notes/service.rs:516-525 | an instance: the second of two mutations of one note that both name its committed version conflicts and is shown that version |
| NotesOutcomes.OwnBaseShownExactly | apps/api/src/modules/notes/service.rs:500-526 | in any batch a note mutation is shown its own base version as a conflict exactly when it would overwrite the committed row and an earlier mutation of the batch would too |
| NotesOutcomes.FolderOwnBaseShownExactly | apps/api/src/modules/notes/service.rs:595-633 | the same for folders |
| NotesOutcomes.StepFailsExactly | apps/api/src/modules/notes/service.rs:425-633 | a mutation inside a batch fails exactly when its guard on the committed row and the row of the transaction says so |
| NotesOutcomes.PushFailsExactly | apps/api/src/modules/notes/service.rs:342-423 | any push within the size limit fails exactly when one of its mutations fails on what those before it have made |
| NotesOutcomes.BatchFailsExactly | apps/api/src/modules/notes/service.rs:456-526 | with distinct ids a push fails exactly when the guard of one of its mutations holds on the committed rows |
| NotesOutcomes.StaleEditPoisonsBatch | apps/api/src/modules/notes/service.rs:516-521 | an edit of a note the server does not have fails a batch whose other mutation alone would be stored |
| NotesOutcomes.FolderKeptExactly | apps/api/src/modules/notes/service.rs:386-411 | in any batch a written note keeps the folder it names exactly when the caller owned that folder before the batch |
| NotesOutcomes.FolderOfSameBatchIsDropped | apps/api/src/modules/notes/service.rs:357-411 | a new folder and a new note in it, pushed together: both are stored, the note without the folder |
| NotesAnswers.PushAnswersNote | apps/api/src/modules/notes/service.rs:425-529 | in any push, outcome, reason and entity of every note answer and every field of the row it wrote, on the row the mutations before it left |
| NotesAnswers.PushAnswersFolder | apps/api/src/modules/notes/service.rs:531-633 | the same for folders |
| NotesAnswers.SoFarEndsThere | apps/api/src/modules/notes/service.rs:415-420 | after its last mutation those rows are the rows of the push |
| NotesAnswers.BatchAnswersNote | apps/api/src/modules/notes/service.rs:425-529 | with distinct ids: the same between the committed row and the stored row, and the texts of the two rejections |
| NotesAnswers.BatchAnswersFolder | apps/api/src/modules/notes/service.rs:531-633 | the same for folders |
| NotesAnswers.AnsweredVersionIsCurrent | apps/api/src/modules/notes/service.rs:500-515 | an edit based on the version a write was answered with is applied |
| NotesCommands.CreateFolderSucceedsExactly | apps/api/src/modules/notes/service.rs:122-135 | a folder is created exactly on a free id, with a title that fits and `pinned` given |
| NotesCommands.FolderWithoutPinnedFails | apps/api/src/modules/notes/repository.rs:483-505 | the same request fails without `pinned` and succeeds with it |
| NotesRetry.RetrySucceedsWithoutVersionedDeletes | apps/api/src/modules/notes/service.rs:474-498 | a committed batch can be pushed again exactly when it applied no versioned delete and overwrites no row at the last version |
| NotesRetry.RetryKeepsValues | apps/api/src/modules/notes/service.rs:486-495 | a repeat keeps every title, content, pinned flag, folder and deletion exactly when it refiles no note |
| NotesRetry.SafeRetry | apps/api/src/modules/notes/service.rs:474-528 | without versioned deletes and notes in folders the batch creates, a repeat succeeds and moves only versions and update times |
| NotesPull.CutPage | apps/api/src/modules/notes/service.rs:313-322 | the truncated page, its cursor or the client's own when it is empty, and whether there is more |
| NotesPull.ServeSyncPull | apps/api/src/modules/notes/service.rs:284-340 | both pages of a pull, or the error of an undecodable cursor |
| NotesPull.SyncLimitHonoured | apps/api/src/modules/notes/dto.rs:171-181 | 200 rows unless asked for, what is asked for from 1 to 500, else the nearer end |
| NotesPull.BadCursorsAreRefused | apps/api/src/modules/notes/service.rs:292-302 | a pull is refused exactly for a cursor that does not decode, the notes cursor first |
| NotesReplica.PageShape | apps/api/src/modules/notes/repository.rs:726-753 | a page is the first rows past the cursor in (updated_at, id) order, and its cursor decodes to the key of the last one |
| NotesReplica.PageCovers | apps/api/src/modules/notes/service.rs:313-329 | no row is skipped: what the new cursor passes was passed before or is on the page |
| NotesReplica.EvolvingKeepsGood | apps/api/src/modules/notes/repository.rs:651-724 | a later transaction of anyone keeps the client's copy current up to its cursor, and free of ghosts |
| NotesReplica.PullingKeepsGood | apps/api/src/modules/notes/service.rs:284-340 | so does applying a page, which also brings the horizon of known tombstones to the time of the pull when nothing is left |
| NotesReplica.LastPageMirrors | apps/api/src/modules/notes/service.rs:313-314 | after a page without more the copy equals the server's rows, or differs by known tombstones of purged rows |
| NotesReplica.PullAdvances | apps/api/src/modules/notes/service.rs:313-322 | a page with more leaves exactly `limit` fewer rows ahead |
| NotesReplica.CatchingUpMirrors | apps/api/src/modules/notes/service.rs:284-340 | pulling until there is no more ends, for every page size, with a copy level with the table |
| NotesWorld.ExecuteEvolves | apps/api/src/modules/notes/service.rs:39-282 | every request of the service stamps what it touches, keeps owners and ids, and sets deletion times only to now |
| NotesWorld.PurgesEvolve | apps/api/src/modules/notes/repository.rs:870-942 | a purge batch removes only old tombstones, and unfiles notes with a fresh stamp |
| NotesWorld.RunsStaySound | apps/api/src/modules/notes/service.rs:284-423 | the replica invariant over all histories of requests, pulls and purge batches |
| NotesWorld.ReplicaIsCurrentUpToCursor | apps/api/src/modules/notes/repository.rs:726-753 | after any history the client holds the current value of each own row at or before its cursor, for notes and folders |
| NotesWorld.CaughtUpReplicaEqualsServer | apps/api/src/modules/notes/service.rs:284-340 | after a pull without more and no later write the copy equals the server's rows |
| NotesWorld.RetentionIsSafe | apps/api/src/modules/notes/repository.rs:898-942 | no row live on the client is gone on the server, whatever purges ran within the client's horizon |
| NotesWorld.PurgeTakesKnownTombstones | apps/api/src/jobs/note_jobs.rs:12-30 | a purge takes only rows the client already holds as deleted |
| NotesVersions.ExecuteIsCounted | apps/api/src/modules/notes/repository.rs:245-440 | each request keeps versions equal to the count of logged writes, and each guard equal to the count at that point |
| NotesVersions.VersionCountsWrites | apps/api/src/modules/notes/repository.rs:651-724 | over all histories a note's version is one plus its successful writes since it was created |
| NotesVersions.GuardedWritesNeverShareABase | apps/api/src/modules/notes/repository.rs:245-301 | within a lifetime no two guarded writes succeed with the same base version |
| Text.ParsePrintInt | apps/api/src/shared/pagination.rs:20-62 | a printed number, negative ones included, parses back wherever it fits the integer type |
| Text.NoLeadingZero | apps/api/src/shared/pagination.rs:20-26 | a printed number has no leading zero |
| Utf8.DecodeEncode | apps/api/src/shared/pagination.rs:47-50 | UTF-8 bytes of any text decode to it |
| Utf8.EncodesAsStandard | apps/api/src/shared/pagination.rs:20-26 | characters of one, two, three and four bytes as in RFC 3629 |
| Base64.DecodeEncode | apps/api/src/shared/pagination.rs:20-26 | unpadded URL-safe base64 of any bytes decodes to them |
| Base64.GroupsRegroupBits | apps/api/src/shared/pagination.rs:20-26 | the symbols of a group, read to base 64, are the number its bytes are to base 256 (section 4 of RFC 4648) |
| Base64.SymbolsAreStandard | apps/api/src/shared/pagination.rs:20-26 | the alphabet of section 5 of RFC 4648 |
| UuidText.ParsePrint | apps/api/src/shared/pagination.rs:47-62 | the hyphenated text of any UUID parses back |
| UuidText.PrintShape | apps/api/src/shared/pagination.rs:20-26 | hyphens at their four places and lower-case digits at the others (section 4 of RFC 9562) |
| UuidText.PrintedDigits | apps/api/src/shared/pagination.rs:20-26 | the digits without the hyphens are the UUID as a number |
| Cursors.TimestampIdRoundTrip | apps/api/src/shared/pagination.rs:20-62 | decode of encode is the pair, for every instant and id |
| Cursors.TwoTimestampsIdRoundTrip | apps/api/src/shared/pagination.rs:28-89 | the same for two instants and an id |
| Cursors.ScoreIdRoundTrip | apps/api/src/shared/pagination.rs:41-106 | the same for every 64-bit score and id |
| Cursors.NameIdRoundTrip | apps/api/src/shared/pagination.rs:108-128 | for a name and an id exactly when the name has no `\|` |
| Cursors.CursorTexts | apps/api/src/shared/pagination.rs:20-113 | the text inside each of the four shapes |
| Cursors.TimestampIdIsItsOwnShape | apps/api/src/shared/pagination.rs:64-128 | the other three decoders reject a (timestamp, id) cursor |
| Cursors.TwoTimestampsIdIsItsOwnShape | apps/api/src/shared/pagination.rs:47-128 | the other three decoders reject a two-timestamp cursor |
| Cursors.ScoreIdIsItsOwnShape | apps/api/src/shared/pagination.rs:47-128 | the other three decoders reject a score cursor |
| Cursors.NameIdIsItsOwnShape | apps/api/src/shared/pagination.rs:47-106 | the other three decoders reject a name cursor, whatever the name |
| Keyset.ResumeAfter | apps/api/src/shared/repository.rs:6-36 | resuming after row n of what is left continues with row n + 1 |
| Pagination.PushCursorCondition | apps/api/src/shared/repository.rs:6-23 | the row comparison is appended exactly when both cursor parts are there |
| Pagination.PushOrderAndLimit | apps/api/src/shared/repository.rs:25-36 | the ordering and the limit are appended |
| Pagination.TailFetches | apps/api/src/shared/repository.rs:6-36 | comparison operator and direction agree: the tail selects the next rows past the cursor, in both orders |
| Pagination.FetchPage | apps/api/src/modules/notes/repository.rs:349-369 | the built query returns the rows just past the cursor |
| Pagination.FromRows | apps/api/src/shared/pagination.rs:231-250 | the page of rows fetched one over the limit |
| Pagination.LimitHonoured | apps/api/src/shared/pagination.rs:196-198 | 20 rows unless asked for, what is asked for from 1 to 100, else the nearer end |
| Pagination.BadCursorIsRefused | apps/api/src/shared/pagination.rs:47-61 | a list request is refused exactly for a cursor that does not decode |
| Pagination.ServeList | apps/api/src/modules/notes/service.rs:108-120 | a list request from cursor text to page |
| Pagination.PageThenRest | apps/api/src/shared/pagination.rs:231-250 | a page is the head of what is left; it has a next cursor exactly when rows remain, and that cursor selects the rest |
| Pagination.WalkIsComplete | apps/api/src/shared/pagination.rs:196-250 | following next cursors ends and lists what was left, without skip or repeat |
| Pagination.WalkFromFirstPage | apps/api/src/shared/pagination.rs:196-287 | from the first page the walk lists the whole table in order, for every limit and both orders |
| Tokens.TokenService.Rotate | apps/api/src/modules/auth/token.rs:182-251 | check order, errors, the replaced row and the new pair |
| Tokens.TokenService.Revoke | apps/api/src/modules/auth/token.rs:254-273 | the row goes and a live access token is blocked for at most 900 seconds |
| Tokens.TokenService.RevokeAllForUser | apps/api/src/modules/auth/token.rs:276-283 | all rows of the user go and the user block is set for the access lifetime |
| Tokens.TokenService.IsAccessTokenBlocked | apps/api/src/modules/auth/token.rs:286-297 | blocked exactly if its id is, or a user block at a later second is alive |
| Tokens.TokenService.CleanupExpired | apps/api/src/modules/auth/repository.rs:436-463 | the batched cleanup removes and counts exactly the rows expired at its last round |
| Tokens.RefreshTokensAreSingleUse | apps/api/src/modules/auth/token.rs:182-283 | over every serial run a token is never accepted after its own rotation, its revocation or a revocation of its user |
| Tokens.SingleUseFromStart | apps/api/src/modules/auth/token.rs:182-251 | from empty tables, of two rotations of one token in a serial run at most one is accepted |
| SessionLaws.RotationAcceptedExactly | apps/api/src/modules/auth/token.rs:182-251 | over every serial run a handed out refresh token is accepted exactly when nothing has ended it since and neither its claims nor its row have expired |
| SessionLaws.IssueAcceptedExactly | apps/api/src/modules/auth/token.rs:143-178 | a pair is issued exactly to a user the service knows |
| SessionLaws.PairClaims | apps/api/src/modules/auth/token.rs:95-114 | user, ids, issue time and expiry of both tokens of a pair |
| SessionLaws.GrantedRows | apps/api/src/modules/auth/repository.rs:301-334 | one row is added or replaced, lasting the refresh lifetime from when it is stored; all other rows and all blocks stay |
| SessionLaws.RefusedRows | apps/api/src/modules/auth/token.rs:200-208 | a refused rotation takes at most its own expired row |
| SessionLaws.RefusedBecause | apps/api/src/modules/auth/token.rs:187-214 | which error a refused rotation reports |
| SessionLaws.RevokedRows | apps/api/src/modules/auth/token.rs:254-273 | a revocation takes its own row alone, and blocks no other access token |
| SessionLaws.RevokedUserRows | apps/api/src/modules/auth/token.rs:276-283 | exactly the rows of that user go, and other users keep their blocks |
| SessionLaws.CleanedRows | apps/api/src/modules/auth/repository.rs:436-463 | exactly the rows whose time is over go |
| SessionLaws.AccessPassesExactly | apps/api/src/modules/auth/token.rs:286-297 | over every serial run a handed out access token passes exactly until it expires, unless a revocation of the last 900 seconds named it or its user's tokens were revoked in a later second |
| Tokens.RotationKeepsRowCount | apps/api/src/modules/auth/repository.rs:301-334 | an accepted rotation changes no user's number of rows |
| Tokens.CleanupIsInvisible | apps/api/src/modules/auth/repository.rs:436-463 | missing expired rows never change an answer that succeeds, nor whether it does |
| Tokens.CleanupCanRunAnytime | apps/api/src/modules/auth/repository.rs:436-463 | a cleanup inserted anywhere changes no later rotation's acceptance |
| Tokens.RevokeAllCoversLifetimes | apps/api/src/modules/auth/cache.rs:356-373 | after a revocation at T no token issued in an earlier second passes at any later time, later revocations included |
| Tokens.RevokeAllBoundary | apps/api/src/modules/auth/cache.rs:356-373 | right after a revocation an otherwise valid token of the user passes exactly if it was issued in that second or later |
| Tokens.RevokeCoversShortTokens | apps/api/src/modules/auth/cache.rs:338-354 | a revoked access token with at most 900 seconds left never passes again |
| Tokens.BlockReachesExpiryIffShort | apps/api/src/modules/auth/cache.rs:338-349 | the block lasts to the token's expiry exactly when at most 900 seconds are left |
| RateLimit.RateLimiter.Serve | apps/api/src/shared/middleware/rate_limit.rs:28-105 | counters and verdict of one request |
| RateLimit.CountersCount | apps/api/src/shared/middleware/rate_limit.rs:36-39 | a counter read as current or previous window has not expired and counts every request of that window |
| RateLimit.AdmittedWhen | apps/api/src/shared/middleware/rate_limit.rs:41-50 | a request is admitted exactly if its window's requests and the weighted share of the previous one are below the limit |
| RateLimit.DecidesExactly | apps/api/src/shared/middleware/rate_limit.rs:36-51 | admission and the reported remainder in plain numbers: requests of this window, and those of the one before times what is left of this one, over the window |
| RateLimit.WindowBound | apps/api/src/shared/middleware/rate_limit.rs:45-50 | an aligned window admits fewer than `limit` requests |
| RateLimit.IntervalBound | apps/api/src/shared/middleware/rate_limit.rs:28-51 | an interval of one window's length admits at most `limit - 1` plus a fraction of it that depends on where it starts |
| Coalescing.FetchedMeansFetched | apps/api/src/shared/services/redis/coalescing.rs:56-82 | a recorded value was returned by a fetch of a caller of that key |
| Coalescing.ValuesComeFromFetches | apps/api/src/shared/services/redis/coalescing.rs:32-114 | over all interleavings cached and answered values come from successful fetches of the key, errors are never cached, at most one fetch and 40 polls a call |
| Coalescing.AtMostOneWinner | apps/api/src/shared/services/redis/coalescing.rs:54-80 | while winners finish within the lock's lifetime at most one is in flight per key |
| Coalescing.LockJoinsExactly | apps/api/src/shared/services/redis/coalescing.rs:116-133 | taking the lock puts a second winner of the key in flight exactly when a winner has outlived its lock |
| Coalescing.ExclusiveExactly | apps/api/src/shared/services/redis/coalescing.rs:54-139 | a run never has two winners of a key in flight exactly when no caller takes the lock of an overdue winner |
| Coalescing.SlowWinnerIsJoined | apps/api/src/shared/services/redis/coalescing.rs:116-139 | an instance: a run in which a slow winner is joined |
| Coalescing.Coalescer.CoalesceCache | apps/api/src/shared/services/redis/coalescing.rs:32-82 | one call among any others: a value alive at its read is its answer, else it fetches if it gets the lock and polls if it does not |
| Coalescing.Coalescer.WaitForWinner | apps/api/src/shared/services/redis/coalescing.rs:83-113 | the first of 40 polls that finds a live value answers; 40 misses lead to a fetch |
| Coalescing.GetSteps | apps/api/src/shared/services/redis/coalescing.rs:45-49 | a live value is the answer, else the caller goes for the lock |
| Coalescing.LockSteps | apps/api/src/shared/services/redis/coalescing.rs:117-133 | the lock is taken for five seconds exactly when no unexpired one is there |
| Coalescing.FetchSteps | apps/api/src/shared/services/redis/coalescing.rs:60-82 | the fetch answers its caller, and a winner with a value goes on to store it |
| Coalescing.StoreSteps | apps/api/src/shared/services/redis/coalescing.rs:68-80 | the value is cached for its time, unless Redis fails or the time is not positive |
| Coalescing.ReleaseSteps | apps/api/src/shared/services/redis/coalescing.rs:136-139 | the lock key is deleted |
| Coalescing.CrashSteps | apps/api/src/shared/services/redis/coalescing.rs:107-112 | a caller that dies leaves cache and locks as they are |
| Coalescing.PollSteps | apps/api/src/shared/services/redis/coalescing.rs:87-112 | a poll answers with a live value, and the fortieth miss leads to a fetch |
| Coalescing.StoredValueIsServed | apps/api/src/shared/services/redis/coalescing.rs:44-97 | a stored value answers every read of its key for its time without a fetch, as long as no other is stored, and none after it |
| Coalescing.ReleasedLockIsFree | apps/api/src/shared/services/redis/coalescing.rs:116-139 | a released lock goes to the next caller that asks |
| WebSockets.WsService.Register | apps/api/src/shared/services/ws/mod.rs:78-95 | a connection with an unused id, unless the user has five |
| WebSockets.WsService.Unregister | apps/api/src/shared/services/ws/mod.rs:101-110 | that connection alone goes, and the entry with the last one |
| WebSockets.WsService.SendToUser | apps/api/src/shared/services/ws/mod.rs:221-232 | every local connection gets the message last, or the buffer does |
| WebSockets.WsService.BufferMessage | apps/api/src/shared/services/ws/mod.rs:283-296 | the buffer keeps the newest 51 messages |
| WebSockets.WsService.DrainMessageBuffer | apps/api/src/shared/services/ws/mod.rs:303-330 | the buffered messages oldest first, and an empty buffer |
| WebSockets.RegisteredIsValid | apps/api/src/shared/services/ws/mod.rs:78-95 | registering keeps at most five connections a user, distinct ids across all users, and no empty entry |
| WebSockets.UnregisteredIsValid | apps/api/src/shared/services/ws/mod.rs:101-110 | so does unregistering |
| WebSockets.StepKeepsConsistent | apps/api/src/shared/services/ws/handlers.rs:86-186 | what is written, replayed, buffered and queued stays one ascending line |
| WebSockets.WrittenInSendOrder | apps/api/src/shared/services/ws/handlers.rs:472-485 | over any run what reaches the user's sockets is part of what was sent, in order, nothing twice |
| WebSockets.DrainYieldsLastBuffered | apps/api/src/shared/services/ws/mod.rs:283-330 | without an expiry a drain yields exactly the last min(n, 51) messages buffered since the previous one, oldest first |
| WebSocketDelivery.SendReachesConnections | apps/api/src/shared/services/ws/mod.rs:221-232 | every connection of a listed user gets the message last, an unlisted user's buffer gets it first, nothing else changes |
| WebSocketDelivery.RegisterAdds | apps/api/src/shared/services/ws/mod.rs:78-95 | the new connection is listed last with an empty channel; with five already, nothing happens |
| WebSocketDelivery.UnregisterRemoves | apps/api/src/shared/services/ws/mod.rs:101-110 | only that connection goes, and the user's entry with the last one |
| WebSocketDelivery.DrainEmpties | apps/api/src/shared/services/ws/mod.rs:303-330 | that user's buffer is empty, all else stays |
| WebSocketDelivery.Conservation | apps/api/src/shared/services/ws/handlers.rs:86-186 | over any run every message sent is written, on its way, or one of those counted as lost by a full or expired buffer, a refused write or a closed channel |
| WebSocketDelivery.NothingLostExactly | apps/api/src/shared/services/ws/handlers.rs:86-186 | no step loses anything exactly when every message sent is written or on its way, in order |
| WebSocketDelivery.AllWritten | apps/api/src/shared/services/ws/handlers.rs:472-485 | with nothing lost and nothing on its way, every message sent has been written in the order sent |
| WebSocketDelivery.SentWhileUpIsKept | apps/api/src/shared/services/ws/handlers.rs:472-485 | while the socket takes what it is given, each message sent stays queued until it is written |
| WebSocketDelivery.SentIsWritten | apps/api/src/shared/services/ws/handlers.rs:472-485 | a message sent while the connection is up is written last once the channel is worked off |
| CircuitBreakers.CircuitBreaker.Check | apps/api/src/shared/services/livekit/circuit_breaker.rs:58-81 | open turns to half-open after the wait, and only an open breaker turns a call away |
| CircuitBreakers.CircuitBreaker.OnSuccess | apps/api/src/shared/services/livekit/circuit_breaker.rs:84-101 | the second success while half-open closes; otherwise failures are forgotten |
| CircuitBreakers.CircuitBreaker.OnFailure | apps/api/src/shared/services/livekit/circuit_breaker.rs:104-114 | the threshold, or any failure while half-open, opens |
| CircuitBreakers.StateReflectsHistory | apps/api/src/shared/services/livekit/circuit_breaker.rs:58-114 | closed means fewer than `threshold` failures in a row and no counted success; open means a dated failure |
| CircuitBreakers.TripsExactlyOnThreshold | apps/api/src/shared/services/livekit/circuit_breaker.rs:104-114 | a closed breaker opens exactly on the failure that completes `threshold` in a row |
| CircuitBreakers.RecloseNeedsTwoSuccesses | apps/api/src/shared/services/livekit/circuit_breaker.rs:84-101 | it closes only while half-open, on at least the second success since the last failure |
| CircuitBreakers.FailsFastForOpenDuration | apps/api/src/shared/services/livekit/circuit_breaker.rs:58-76 | an open breaker turns calls away exactly until the open duration after the last failure |
| CircuitBreakers.OnlyOpenTurnsAway | apps/api/src/shared/services/livekit/circuit_breaker.rs:58-81 | a breaker that is not open lets every call through unchanged |
| CircuitBreakers.ProbingEndsEitherWay | apps/api/src/shared/services/livekit/circuit_breaker.rs:84-114 | from half-open two successes close it and a failure before that opens it |
| CircuitBreakers.OpenIsAlwaysDated | apps/api/src/shared/services/livekit/circuit_breaker.rs:104-114 | under every interleaving of atomic steps an open breaker has a failure time |
| CircuitBreakers.OpenCanAlwaysProbe | apps/api/src/shared/services/livekit/circuit_breaker.rs:58-76 | so once the wait is over the run can go on with any free caller's check to a half-open breaker |
| CircuitBreakers.CheckAlone | apps/api/src/shared/services/livekit/circuit_breaker.rs:58-81 | the atomic steps of an uninterrupted check add up to the sequential one |
| CircuitBreakers.SuccessAlone | apps/api/src/shared/services/livekit/circuit_breaker.rs:84-101 | the same for a success |
| CircuitBreakers.FailureAlone | apps/api/src/shared/services/livekit/circuit_breaker.rs:104-114 | the same for a failure |
| CircuitBreakers.FewFailuresNeverTrip | apps/api/src/shared/services/livekit/circuit_breaker.rs:104-114 | with fewer than `threshold` failures in all no interleaving opens the breaker or turns a check away |
| CircuitBreakers.EnoughFailuresTrip | apps/api/src/shared/services/livekit/circuit_breaker.rs:104-114 | without successes, `threshold` finished failures leave it not closed, however they interleave |
| CircuitBreakers.AloneIsRun | apps/api/src/shared/services/livekit/circuit_breaker.rs:58-114 | an uninterrupted call after any interleaving is an interleaving |
| CircuitBreakers.ClosedLeavesExactly | apps/api/src/shared/services/livekit/circuit_breaker.rs:62-71 | a step takes a closed breaker to half-open exactly if it is the store of a check, and to open exactly if it is that of a failure |
| CircuitBreakers.FinishingProbesExactly | apps/api/src/shared/services/livekit/circuit_breaker.rs:62-71 | finishing a caller's call can put a closed breaker to half-open exactly if the caller is in a check that found it open |
| CircuitBreakers.LateChecksUndoExactly | apps/api/src/shared/services/livekit/circuit_breaker.rs:58-101 | a run has a moment at which that is possible exactly when one of its closes happened over a check in progress |
| CircuitBreakers.LateStoreMeansOverlap | apps/api/src/shared/services/livekit/circuit_breaker.rs:58-101 | a closed breaker turns half-open only in such a run |
| CircuitBreakers.LateCheckHappens | apps/api/src/shared/services/livekit/circuit_breaker.rs:58-114 | for every configuration a run from the start opens, closes, and is put back to half-open by a late check |
| CacheKey.Build | apps/api/src/modules/broadcast/dto.rs:379-442 | no key for a personal feed, else the key of the request's normal form |
| CacheKey.FieldsReadBack | apps/api/src/modules/broadcast/dto.rs:387-431 | the optional segments can be read back from the left, whatever follows them |
| CacheKey.CursorReadsBack | apps/api/src/modules/broadcast/dto.rs:430-433 | cursor and limit can be read back from the right, even if the cursor holds `:` or `lim=` |
| CacheKey.KeysAgreeExactly | apps/api/src/modules/broadcast/dto.rs:379-442 | two requests share a key exactly when their normal forms are equal |
| CacheKey.RequestsShareKeyExactly | apps/api/src/modules/broadcast/dto.rs:379-442 | two requests share a key exactly when they agree field by field: defaults resolved, limits clamped, times to the second, keywords by hash |
| CacheKey.DefaultKey | apps/api/src/modules/broadcast/dto.rs:379-442 | the key of a request without parameters |
| Interpolation.Interpolate | apps/api/src/modules/notifications/service.rs:379-385 | the loop over the variables in some order, and simultaneous replacement where the values are separate |
| Interpolation.ResolveTemplate | apps/api/src/modules/notifications/service.rs:364-376 | title, body and image URL of a template, each with all placeholders replaced at once |
| Interpolation.ReplacesExactlyHoles | apps/api/src/modules/notifications/service.rs:379-385 | one replacement touches the placeholders of its key and nothing else |
| Interpolation.SequentialIsSimultaneous | apps/api/src/modules/notifications/service.rs:379-385 | any order of replacements gives the simultaneous result, and unknown placeholders stay |
| Interpolation.PlaceholderBecomesValue | apps/api/src/modules/notifications/service.rs:379-385 | a known placeholder in a text becomes its value, an unknown one stays, the text around it too |
| Interpolation.ActorAndTitleAreShown | apps/api/src/modules/notifications/service.rs:388-401 | the name stands for `{actor}`, the title for `{title}` and `{broadcast}` |
| Interpolation.ExactlyWhenSeparate | apps/api/src/modules/notifications/service.rs:379-385 | that holds for all templates and orders exactly when no value can be part of another variable's placeholder |
| Interpolation.BraceFreeNamesAreSafe | apps/api/src/modules/notifications/service.rs:388-401 | names and titles without an opening brace are always safe |
| Interpolation.NameCanBeReplaced | apps/api/src/modules/notifications/service.rs:388-401 | an actor named `{title}` is not |

## Left out

- NotesWorld.RunsStaySound: transactions are serial and their times strictly increase; concurrent transactions are not modelled.
- NotesVersions.VersionCountsWrites: an absent table at the start, and deletion of a user's account is not among the requests. A full 32-bit version column is a database error, as in PostgreSQL.
- NotesRetry.SafeRetry: "no deletes" is taken as "no delete that named a base version and was applied", which is the exact condition.
- NotesServer.NotesService.PurgeDeletedFolders: an unfiled note carries the time of one of the rounds; which one depends on the rows the database picks.
- Tokens.RevokeCoversShortTokens: a token is accepted while the current second is before `exp`, as section 4.1.4 of RFC 7519 has it, with the zero leeway that `auth/token.rs:117-139` sets; the JWT library itself is not part of this model, and if it accepted in the second equal to `exp` the theorem would not cover that second.
- SessionLaws.RotationAcceptedExactly: a call reads the clock once for all its checks; the times at which it stores and signs are its own.
- Tokens.TokenService.Rotate: signatures and hashes are abstract (only signed tokens decode, hashing is injective), the set of users is fixed, and calls are serial; concurrent rotations of one token are not modelled.
- RateLimit.IntervalBound: one base key, time that does not go back, Redis calls that succeed, and the exact rational weight instead of a double; a failing Redis admits every request in the code.
- Coalescing.ValuesComeFromFetches: values that fail to deserialize count as failed reads.
- WebSockets.WrittenInSendOrder: one instance and one connection at a time, sends, registrations and drains atomic, Redis calls that succeed. The channel has no capacity, so a send that waits for a slow socket is not modelled; heartbeats, rooms, presence and undecodable buffered messages are left out.
- CircuitBreakers.OpenIsAlwaysDated: atomics are sequentially consistent; weaker orderings between the counters are not modelled.
- CacheKey.KeysAgreeExactly: the keyword hash is a parameter; two keywords with one hash share a key.
- Interpolation.ExactlyWhenSeparate: template literals hold no opening brace outside placeholders.
- The full-text filters of the list queries, and rows without a timestamp in list queries.
- Cursors with a rank: formatting of 32-bit floats is a library matter.
- Broadcast paging by title or end time, participant lists and their keys: the cursor or key does not match the ordering.
- Broadcast counters, cohost limits, the host grace period and room subscriptions: no invariant holds across all their entry points.
- The unread-notification counter: it matches the table only while its key lives.
- HTTP handlers, configuration, telemetry, and the calls to identity, storage, mail, push and LiveKit services.
