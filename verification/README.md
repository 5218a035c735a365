# Verification of the document pipeline, refresh sessions, migrations and listings

This project models, in Dafny, the parts of the service in which several actors share
state, and proves what their code guarantees over every run.

- **Document pipeline.** Uploads, deletes, re-enqueues and any number of workers interleave
  over the `documents` table, the object store and the three Redis lists. `Pipeline` is the
  protocol: every SQL statement, Redis command and storage call is one atomic step, a worker
  and an upload each have a program counter, and a worker or an upload may crash between any
  two of its calls. `Ledgers` counts the jobs and workers with weights; each counting
  property in `Delivery`, `Claims` and `Drain` is one choice of weights, so one balance lemma
  serves them all. `Integrity` relates rows, objects and checksums. `Guarantees` and `Drain`
  hold the results, `Deviations` the concrete inputs on which the code surprises.
- **The code that runs it.** `Documents`, `JobQueue`, `Storage` and `Upload` are the stores
  and readers as classes. `Workers` and `DocumentService` are the worker loop, the upload
  saga, downloads, listings and deletes, call by call. Before each call the environment may
  take any steps of the protocol (`Runtime`), and each method is proved to take only steps of
  the protocol itself, so the results of `Guarantees` hold of it.
- **Refresh sessions.** `Sessions` is the protocol of logins, refreshes and logouts, with the
  chains that `replaced_by_token_id` builds. `Auth` is the code, with the rotation
  transaction and its rollback.
- **Migrations.** `Migrations` states what `up` and `down N` do to changelog and schema,
  failures partway included, and that the rollback query reproduces reverse application
  order. `Runner` has the loops and the shipped registry.
- **Listings and keys.** `Listing` has pages with the 32-bit offset, `Keys` the construction
  and validation of object keys.

## What is assumed

- Generated object ids and token ids are fresh; row ids come from a sequence.
- A call that returns an error has had no effect. A failing commit is such a call.
- The checksum is any function of the content; a JSON payload stands for the job it encodes.
- The client's stream never returns no bytes and no error for a non-empty buffer.
- The database clock does not go back.
- Bounds on attempts and claims, and the quiet-run results, take `maxAttempts` to be
  positive, as `internal/config/config.go:191` demands.
- `QuietDocumentsHaveJobs`, `DrainedDocumentsAreSettled`, `StuckRunsAreSettled` and
  `JobsConserved` speak of runs without crashes and without failing Redis commands of a
  worker (`QuietRun`), because nothing re-queues the processing list. Everything else about
  the pipeline, `NoLostDocument` included, holds with all of these allowed.

## Where the code does something else than one may expect

Each item names the result for all inputs and, in `Deviations` or `Keys`, a concrete input.

- A claim that is lost to a crash or to a failing `MarkReady` or `MarkFailed` is never
  recovered: the row stays `processing` for good (`LostClaimsStayLost`). So the sentence in
  `docs/architecture.md` that failures are persisted as `failed` and that retried jobs end in
  the dead-letter list does not always hold. After a failing Mark below the last attempt the
  retried job does not get the claim and is acknowledged, and no list has a job any more
  (`LostClaimIsAcknowledged`); at the last attempt the job is dead-lettered, but the row is
  still `processing` (`LostClaimIsBuried`). `DrainedDocumentsAreSettled` has the exact
  condition: a drained document is ready, or out of `processing` with a dead letter, if and
  only if no claim of it was lost.
- A storage prefix can pass `validS3Prefix` and still make the store refuse every key. A
  caller can check for it: what is left of the prefix, trimmed and cleaned as the service
  does, must neither be `..` nor start with `../` nor hold a backslash (`BuiltKeyValidIff`).
  The prefix `..` is such a case (`DotDotIsRefused`).
- The seed migration's Down keeps the roles. So for the shipped registry `up` followed by
  `down` to the same number of records restores the schema unless just the first migration
  was recorded and the roles were not there (`ShippedRoundTripIff`, `SeedOutlivesRollback`).
- `ValidateMigrations` does not ask for ascending names. The rollback query gives reverse
  application order exactly if migrations recorded at the same time are in name order
  (`RollbackOrderIff`, `TieRollsBackFirst`); a strictly ascending registry always is.
- Logging out with a token that was already rotated leaves its successor live
  (`LogoutEndsChainIff`, `LogoutLeavesSuccessor`).
- Pages that start beyond 2147483647 rows get a wrong, at first negative, offset, and
  reading all pages then fails (`OffsetExactIff`, `PagesPartitionIff`, `NegativeOffset`).

## Model

| member | source | states |
|---|---|---|
| Guarantees.NoLostDocument | internal/service/document_worker.go:27-77 | In every run, crashes and failures included, an undeleted, enqueued row that is not ready, and of which no claim and no job was lost, has more jobs in the three lists and in hand during Retry than workers are about to acknowledge |
| Guarantees.QuietDocumentsHaveJobs | internal/service/document_worker.go:27-77 | Without crashes and Redis failures an undeleted, enqueued row that is not ready and of which no claim was lost has a job in the main list, in the dead list, or with a worker that is not about to acknowledge it |
| Guarantees.DrainedDocumentsAreSettled | internal/service/document_worker.go:58-77 | Once a run without crashes and Redis failures has drained, an undeleted, enqueued row is ready, or out of processing with a dead letter at the last attempt, exactly if no claim of it was lost to a failing Mark statement |
| Guarantees.OneClaimant | internal/repository/db/documents.sql.go:12-15 | In every run, crashes and failures included, two workers are never both between claim and mark of the same document |
| Guarantees.ProcessingMeansClaimed | internal/repository/db/documents.sql.go:12-15 | In every run an undeleted row has a claim holder exactly when it is processing and no claim of it was lost to a crash or a failing Mark statement |
| Guarantees.LostClaimsStayLost | internal/service/document_worker.go:35-56 | Once a claim is lost, the row stays processing for the rest of the run and nobody holds its claim again |
| Guarantees.MarkMissesOnlyDeleted | internal/repository/document_repository.go:89-109 | A claim holder's Mark statement misses its row exactly if the row was soft-deleted meanwhile |
| Guarantees.ReadyRowsIntact | internal/service/document_worker.go:42-55 | In every run each row's object is stored with the recorded size; checksum is set exactly when ready and is that of the object; the error is set exactly when failed and has at most 512 bytes |
| Guarantees.SizeMismatchUnreachable | internal/service/document_worker.go:52-54 | A claim holder whose read succeeds never takes the size-mismatch branch |
| Guarantees.RowsEvolve | internal/repository/db/documents.sql.go:218-241 | From any point of any run on: owner, key, size and object content never change, ready is final, and a soft-deleted row never changes again |
| Guarantees.StatusHistory | internal/repository/db/documents.sql.go:12-15 | Over every run a row's statuses form pending (processing failed)* [processing [ready]] |
| Guarantees.SagaConsistent | internal/service/document_service.go:67-81 | Every row always has its object; an object with neither row nor upload in progress is left by a failed compensating delete or a crashed upload |
| Guarantees.FailedEnqueueLeavesPending | internal/service/document_service.go:82-84 | A row that was never successfully enqueued is still pending |
| Guarantees.ClaimsBounded | internal/queue/redis.go:82-101 | A document enters processing at most maxAttempts times per enqueued job |
| Guarantees.AttemptsInRange | internal/queue/redis.go:34-101 | Attempts stay within 1..maxAttempts, dead letters are at maxAttempts, and Consume never meets a payload that it rejects |
| Guarantees.FirstInFirstOut | internal/queue/redis.go:105-110 | What has left the main list, followed by the list read right to left, is the whole push history in order |
| Guarantees.RemovalTakesOwnPayload | internal/queue/redis.go:111-113 | Workers' payloads are contained, as a multiset, in the processing list; an Ack or Retry removes exactly one entry and leaves the others' payloads contained |
| Guarantees.JobsAccounted | internal/queue/redis.go:34-101 | In every run the enqueued jobs are, as multisets up to the attempt number, those in the three lists, in hand during Retry, acknowledged, or lost |
| Guarantees.JobsConserved | internal/queue/redis.go:79-112 | In a quiet run nothing is lost, and the processing list is exactly the multiset of workers' payloads |
| Drain.DrainBound | internal/queue/redis.go:82-101 | From idle workers every schedule without new jobs makes at most one call per worker plus seven per remaining attempt of the queued jobs |
| Drain.MaximalSchedulesDrain | internal/service/document_worker.go:58-77 | Every schedule without new jobs that cannot be continued ends with each worker stopped or idle before an empty main list, within the bound |
| Drain.SchedulesCanFinish | internal/service/document_worker.go:58-77 | From any reachable point successful calls alone lead to a state in which no worker can do more |
| Drain.StuckRunsAreSettled | internal/service/document_worker.go:58-77 | When the workers of a run without crashes and Redis failures can do no more, every enqueued, undeleted row is settled exactly if no claim of it was lost |
| Drain.WorkUsesEffort | internal/service/document_worker.go:58-77 | From any state, each call of a worker, successful or not, uses up effort, and no other step but a new job or worker adds any |
| Delivery.QueueAlways | internal/queue/redis.go:34-113 | The invariants of the queue (bounded attempts, held payloads, conservation, claim budget, order) hold in every run |
| Integrity.SoundAlways | internal/service/document_service.go:59-85 | The invariant that relates rows, objects, uploads and what workers remember holds in every run |
| Claims.ClaimHeldUnlessLost | internal/repository/db/documents.sql.go:12-15 | A processing row has exactly one claim holder unless one of its claims was lost, and then none |
| JobQueue.RemoveFirstRemovesOne | internal/queue/redis.go:111-113 | Removal by value takes exactly one occurrence and keeps all other entries |
| JobQueue.RedisQueue.RemoveFromProcessing | internal/queue/redis.go:111-113 | The scan removes the first entry that equals the payload |
| Workers.Process | internal/service/document_worker.go:27-56 | Among any steps of others, takes only protocol steps; success means that the document is deleted, ready, or processing while a worker holds its claim or one was lost. Undisturbed, and stated on rows and objects: a pending or failed document ends ready with the checksum and size of its object, a ready or processing one succeeds unchanged, a missing or deleted one is not found with nothing changed, and each failing call has its own outcome |
| Workers.ProcessPending | internal/service/document_worker.go:35-56 | The same from the claim on: the failing claim, the claim that is not granted, and the attempt that it starts |
| Workers.ProcessClaimed | internal/service/document_worker.go:42-56 | Success leaves the row undeleted and ready with the checksum and size of its stored object; undisturbed, a failing read, another size and a failing Mark each end as the code has it |
| Workers.OpenAndRead | internal/service/document_worker.go:42-54 | A call that goes through returns the stored object; the worker goes on with its checksum and size if the size is the recorded one, else with the failure cut to 512 bytes |
| Workers.Finish | internal/service/document_worker.go:55 | Success leaves the row ready with just the given checksum and size; failure means that the call failed or the row was deleted |
| Workers.TryClaim | internal/service/document_worker.go:35-41 | True leaves the row processing and this worker as holder; false means that the document is deleted, ready, or processing under another or a lost claim |
| Workers.Fail | internal/service/document_worker.go:79-88 | If the call goes through, an undeleted row ends failed with the message, whole up to 512 bytes and else its first 512; if not, the claim is lost; undisturbed, no other row changes |
| Workers.Consume | internal/queue/redis.go:48-63 | Takes the payload pushed first of those not moved yet, to be processed if valid, else to be removed; waits only before an empty main list |
| Workers.RemovePayload | internal/queue/redis.go:79-81 | Leaves the worker where Ack, Retry and a rejection go on; undisturbed, the worker's payload is in the processing list and the call takes one such entry off it, or changes no list if it fails |
| Workers.Retry | internal/queue/redis.go:82-101 | Succeeds exactly if both commands do, with the job then at the head of the dead list or, one attempt up, of the main list; a job whose push fails is lost; undisturbed, exactly this job moves |
| Workers.Pass | internal/service/document_worker.go:59-76 | One turn of the loop: a cancelled context, a failing Consume and a rejected job end it; undisturbed and with all calls going through it takes exactly the oldest job off a main list that is not empty, and acknowledges it with its document done, or, without document, puts it back one attempt up or buries it |
| Workers.Handle | internal/service/document_worker.go:67-75 | Undisturbed and with all calls going through, the job leaves the processing list acknowledged if the document is there, and otherwise requeued |
| Workers.Run | internal/service/document_worker.go:58-77 | The loop only takes protocol steps, is idle after every round that does not end it, and never ends on a rejected job if maxAttempts is positive; rounds that are undisturbed add no step but the worker's own, and those that also go through each take a job, until the main list is empty |
| DocumentService.Create | internal/service/document_service.go:44-86 | Succeeds exactly when the request is acceptable, the key is valid, the whole stream fits and ends properly, and all calls go through; a document that is handed out has its row with the stream's length and its object with the stream's content; otherwise there is no row, an object only if the failure reports the clean-up, an oversized stream is an invalid request and a broken one a storage failure. Undisturbed, exactly one row, one object and one job are added, or nothing |
| DocumentService.Persist | internal/service/document_service.go:74-85 | After a failed insert the object is gone or its cleanup is reported as failed; after a failed enqueue the row stays; undisturbed, nothing else changes |
| DocumentService.Get | internal/service/document_service.go:88-98 | Hands out exactly the undeleted rows that a user with an id owns, or any to an administrator with an id; else tells a failing database, a missing row, a user without id and a foreign row apart |
| DocumentService.List | internal/service/document_service.go:100-121 | The requested page, at the requested size or at 20 or 100 if that is out of range, of exactly the documents that Get would hand out to the same user, newest first, with their number as total |
| DocumentService.Download | internal/service/document_service.go:130-143 | Succeeds exactly for a ready, permitted row; whatever happens between its two calls, the content has the row's checksum and size; it changes nothing itself |
| DocumentService.Delete | internal/service/document_service.go:145-151 | Succeeds exactly for an undeleted, permitted row, leaves it deleted and its object stored; a refused delete changes nothing at all, and an undisturbed one only the deletion time of that row, to now |
| Upload.MaxBytesReader.Read | internal/service/document_service.go:179-198 | Below the limit hands on at most the remaining bytes; at the limit one probing read tells "too large" from the end; every later read is the end |
| Upload.CountingReader.Read | internal/service/document_service.go:205-209 | Hands on what it reads and counts it |
| Upload.Copy | internal/service/document_service.go:67-68 | For any chunking, buffer and limit: the whole stream if it fits, else exactly the first limit bytes and then "too large"; it succeeds exactly if the stream fits and ends properly, and else hands on the stream's own error; the counter equals the length delivered |
| Storage.ObjectStorage.Put | internal/storage/local.go:37-69 | The whole stream is published under a valid key, or nothing changes; an oversized stream and a broken one have their own errors |
| Keys.BuiltKeyValidIff | internal/storage/local.go:148-153 | For every configured prefix, the built key is accepted exactly when the trimmed and cleaned prefix stays inside the root and has no backslash; then every segment is proper |
| Keys.AcceptedPrefixIff | internal/config/config.go:221-223 | For a prefix that the configuration accepts, the store accepts the built key exactly when the trimmed and cleaned prefix does not leave the root |
| Keys.DotDotIsRefused | internal/config/config.go:221-223 | The configuration accepts "..", and the store then refuses the built key |
| Keys.BuiltKeyInjective | internal/service/document_service.go:63-66 | With the configured prefix fixed, different owners or ids have different keys |
| Keys.KeySegments | internal/service/document_service.go:63-66 | A key's segments are those of the cleaned prefix, then documents, owner and id |
| Keys.ValidKeyIff | internal/storage/local.go:148-153 | The store accepts exactly the keys without backslash whose segments are all non-empty and neither "." nor "..", and the key ".." itself |
| Keys.ValidPrefixIff | internal/config/config.go:221-223 | Of the prefixes without leading slash, the configuration accepts the empty one, and those without backslash whose segments are all proper, and ".." |
| Keys.CleanDropsDots | internal/service/document_service.go:65 | path.Clean drops empty and "." segments |
| Keys.CleanDropsParents | internal/service/document_service.go:65 | path.Clean drops a proper segment together with the ".." after it |
| Keys.CleanKeeps | internal/service/document_service.go:65 | path.Clean keeps a relative path of proper segments behind at most a run of ".." |
| Keys.ServicePrefixIs | internal/service/document_service.go:41 | White space and then slashes around the configured prefix are taken off, and nothing else |
| Sessions.ChainsAreChains | internal/repository/auth_repository.go:72-90 | Along links no session comes twice, all belong to one user, and all but the last are revoked |
| Sessions.LinksAreInjective | internal/repository/auth_repository.go:72-90 | Each link names an existing session, and no two sessions have the same successor |
| Sessions.OnlyTailLive | internal/repository/auth_repository.go:72-90 | Every session is in the chain of one tail, of the same user, and no other session of the chain is unrevoked |
| Sessions.OneRotationPerToken | internal/repository/db/auth.sql.go:189-193 | Under any interleaving each token is rotated at most once |
| Sessions.LogoutIsFinal | internal/service/auth_service.go:73-115 | Once a chain's tail is revoked, the chain never grows and no session of it is ever live or rotated again, in-flight refreshes included |
| Sessions.LogoutEndsChainIff | internal/service/auth_service.go:109-115 | A logout leaves no session of its token's chain live, whatever happens next, exactly if the token is the tail or the tail is revoked already |
| Sessions.SessionsEvolve | internal/repository/db/auth.sql.go:175-193 | A session's user, hash and expiry never change, and a revoked session never changes at all |
| Sessions.SoundAlways | internal/repository/auth_repository.go:72-90 | The invariant of links, pending refreshes and rotations holds in every run |
| Auth.SessionRepository.RotateRefreshSession | internal/repository/auth_repository.go:72-90 | Revocation, link and replacement together or nothing; succeeds exactly if the transaction goes through and the session is there, unrevoked and expires later than now |
| Auth.AuthSystem.Check | internal/service/auth_service.go:73-88 | Passes only a validated token whose session exists with the token's hash, unrevoked and unexpired; undisturbed, exactly those |
| Auth.AuthSystem.Exchange | internal/repository/auth_repository.go:72-90 | Whatever happened since the check: on success the token is revoked and linked to the stored replacement, on failure the replacement is not stored |
| Auth.AuthSystem.Refresh | internal/service/auth_service.go:73-107 | On success the presented token, not expired at the time of the rotation, is exchanged for a live session of the same user; on failure the new token is not stored; undisturbed, success exactly if the token's session exists with its hash, unrevoked and unexpired, the user is active and all calls go through, and no other session changes |
| Auth.AuthSystem.LogoutToken | internal/service/auth_service.go:109-115 | After a logout of a validated token its session is revoked and cannot be rotated; undisturbed, only that session changes, and only if it was not revoked |
| Migrations.ValidateMigrations | migrations/list/migratable.go:19-35 | Accepts exactly the registries of present, distinct names that match the pattern; else reports the first offender and its kind |
| Migrations.WellFormedIff | migrations/list/migratable.go:17 | The check is the pattern: two digits, an underscore and any non-empty text over a-z, 0-9 and underscore |
| Migrations.MismatchIff | migrations/list/migratable.go:17 | A name is malformed exactly if it is too short, lacks a digit or the separator, or has a foreign character |
| Migrations.ChangelogIsPrefix | cmd/migration/main.go:125-196 | With an ascending registry, after any sequence of up and down, failures partway included, the changelog is a prefix of the registry and down selects its end in reverse |
| Migrations.RollbackOrderIff | cmd/migration/main.go:153-154 | For any valid registry the rollback query is reverse application order exactly if migrations recorded at the same time are in name order |
| Migrations.NewestIs | cmd/migration/main.go:154 | The query gives the one listing in which each record comes before all that the order puts later |
| Migrations.LessIff | cmd/migration/main.go:154 | Names are ordered by their first difference, a proper prefix first |
| Migrations.UpKeepsSchema | cmd/migration/main.go:125-151 | An up, successful or not, extends the prefix, keeps every record and applies exactly the migrations that it records; success reaches the end of the registry |
| Migrations.DownKeepsSchema | cmd/migration/main.go:174-194 | A down, successful or not, shortens the prefix by at most its steps and undoes exactly the migrations whose records it deletes; success shortens it by just its steps |
| Migrations.UpSucceeds | cmd/migration/main.go:125-151 | An up all of whose calls go through succeeds |
| Migrations.RegisteredDownSucceeds | cmd/migration/main.go:153-196 | A down of a changelog whose records are all registered succeeds if all its calls go through |
| Migrations.SchemaIsBuilt | cmd/migration/main.go:125-196 | If each Down undoes its Up, the schema is always what the recorded migrations build |
| Migrations.RoundTrip | cmd/migration/main.go:125-196 | A successful up that applied k migrations and a successful down k restore the changelog; the schema is the old one with those Ups and then those Downs applied |
| Migrations.UpThenDownRestores | cmd/migration/main.go:125-196 | If each Down undoes its Up, such a round trip restores the schema too |
| Migrations.UpIsIdempotent | cmd/migration/main.go:125-151 | For any registry and any database, a second up after a successful one changes neither changelog nor schema |
| Runner.Database.MigrateUp | cmd/migration/main.go:125-151 | The loop computes the run that the lemmas are about, stopping at the first failure |
| Runner.Database.MigrateDown | cmd/migration/main.go:153-196 | The loop undoes the newest records in the order of the query, stopping at the first failure |
| Runner.Database.MigrationStates | cmd/migration/main.go:200-234 | Lists every registered migration with whether it is recorded; an error exactly if the query fails or some record is not registered |
| Runner.ValidateShipped | cmd/migration/main.go:31-34 | The names of the shipped registry pass the validation that every command starts with |
| Runner.ShippedRoundTripIff | migrations/list/02_seed_roles.go:13-21 | For the shipped registry, from whatever any commands leave behind, up and down to the same record count restore the changelog, and the schema exactly unless just the first migration was recorded and the roles were not there |
| Listing.OffsetExactIff | internal/domain/pagination.go:8-22 | After normalising, the limit is exact, and the offset is exact precisely up to 2147483647 |
| Listing.Normalize | internal/domain/pagination.go:8-19 | A page from 1 on and a size from 1 to 100 are kept; a smaller page becomes 1, a smaller size 20, a larger one 100 |
| Listing.NarrowingIsModular | internal/domain/pagination.go:21-22 | The conversions give the one number of the type that differs by a multiple of its range |
| Listing.PageRows | internal/repository/db/documents.sql.go:111-159 | A page that starts within 32 bits holds the rows of the listing from its start on, as many as its size or fewer at the end |
| Listing.PagesPartitionIff | internal/repository/db/documents.sql.go:111-159 | On an unchanged table, for any requested size, pages 1 to the last, which is the first to cover the listing, give the filtered listing, newest first, each row exactly once, if the last page starts within 32 bits, and otherwise fail |
| Listing.DescendingUnique | internal/repository/db/documents.sql.go:111-159 | There is only one descending listing of a set of rows |
| Listing.List | internal/repository/document_repository.go:48-71 | The rows of the page in order, at most 100, undeleted and of the owner, with the total; an error exactly if a query fails; a page that starts within 32 bits holds the rows from (page-1)*size on |
| Deviations.LostClaimIsAcknowledged | internal/service/document_worker.go:55-76 | A run in which MarkReady fails below the last attempt: the retried job is acknowledged, all lists are empty and the row is processing |
| Deviations.LostClaimIsBuried | internal/service/document_worker.go:55-71 | A run in which MarkReady fails at the last attempt: the job is in the dead list and the row is processing |
| Deviations.LogoutLeavesSuccessor | internal/service/auth_service.go:109-115 | Login, refresh and logout with the first token: the second can still be rotated |
| Deviations.TieRollsBackFirst | cmd/migration/main.go:154 | A validated registry out of name order, applied within one tick: down 1 takes the migration that was applied first |
| Deviations.SeedOutlivesRollback | migrations/list/02_seed_roles.go:18-21 | Up fails at the seed, is repeated, and down 2 returns to one record with another schema |
| Deviations.NegativeOffset | internal/domain/pagination.go:22 | Page 21474838 at size 100 has offset -2147483596, and the query fails |

## Building blocks

Members that tie one statement or call to its function on the table, or that the results
above rest on.

- `Integrity.StepMovesAlongEdges` (internal/repository/db/documents.sql.go:12-15): every step starts a row as pending and otherwise moves its status along a permitted edge or leaves it.
- `JobQueue.RedisQueue.Enqueue` (internal/queue/redis.go:34-46): rejects invalid jobs, reports an unavailable queue, and otherwise pushes at the left end; nothing changes on an error.
- `JobQueue.RedisQueue.MoveToProcessing` (internal/queue/redis.go:108-110): the rightmost entry of the main list goes to the left end of the processing list.
- `JobQueue.RedisQueue.PushRetried` (internal/queue/redis.go:82-101): at the last attempt the job goes unchanged to the dead list, before it to the main list with one attempt more.
- `Documents.DocumentRepository.Create` (internal/repository/db/documents.sql.go:47-51): inserts a pending row without checksum and error, or changes nothing.
- `Documents.DocumentRepository.GetByID` (internal/repository/db/documents.sql.go:87-89): finds exactly the undeleted row, and tells "not found" from a failing database.
- `Documents.DocumentRepository.ClaimDocumentProcessing` (internal/repository/db/documents.sql.go:12-23): the guarded update moves an undeleted pending or failed row to processing and clears its error; the count says whether it did.
- `Documents.DocumentRepository.MarkDocumentReady` (internal/repository/db/documents.sql.go:218-236): the guarded update completes an undeleted processing row; the count says whether it did.
- `Documents.DocumentRepository.MarkDocumentFailed` (internal/repository/db/documents.sql.go:200-216): the guarded update fails an undeleted processing row; the count says whether it did.
- `Documents.DocumentRepository.SoftDeleteDocument` (internal/repository/db/documents.sql.go:238-249): sets the deletion time unless it is set; counts any existing row.
- `Documents.DocumentRepository.ClaimProcessing` (internal/repository/document_repository.go:84-87): true exactly if the row was claimable and the call went through.
- `Documents.DocumentRepository.MarkReadyOrError` (internal/repository/document_repository.go:89-98): an error exactly if the call failed or the row was not an undeleted processing one.
- `Documents.DocumentRepository.MarkFailedOrError` (internal/repository/document_repository.go:100-109): an error exactly if the call failed or the row was not an undeleted processing one.
- `Documents.DocumentRepository.SoftDeleteOrError` (internal/repository/document_repository.go:73-82): "Not found" exactly for an id without row; deleting twice keeps the first time.
- `DocumentService.CleanUp` (internal/service/document_service.go:75-80): the compensating delete removes the object, or the key is recorded as left over.
- `Storage.ObjectStorage.Open` (internal/storage/local.go:71-92): the content of a stored object under a valid key, else the matching error.
- `Storage.ObjectStorage.Delete` (internal/storage/local.go:94-109): removes the object; deleting a missing object succeeds.
- `Auth.SessionRepository.RotateStatement` (internal/repository/db/auth.sql.go:189-206): the compare-and-set revokes and links an unrevoked, unexpired session; the count says whether it did.
- `Auth.SessionRepository.RevokeRefreshSession` (internal/repository/db/auth.sql.go:175-187): sets the revocation time unless it is set; an unknown token changes nothing.
- `Auth.SessionRepository.CreateRefreshSession` (internal/repository/db/auth.sql.go:14-34): stores a live session without link, or changes nothing.
- `Auth.AuthSystem.IssueAndPersist` (internal/service/auth_service.go:125-134): the new session is stored live, with its user, hash and expiry, exactly if the call goes through.
- `Runner.ShippedIsAscending` (migrations/list/migrations.go:3-9): the shipped registry has strictly ascending names.
- `Listing.OffsetAtFullSize` (internal/domain/pagination.go:15-22): at the capped size 100 the offset is exact precisely up to page 21474837.

## Left out

- Workers.Run: covers any finite number of rounds; the source loops until an error or cancellation.
- Workers.OpenAndRead: opening and reading an object is one step; the row's object never changes, so reading it in pieces gives the same content.
- Upload.Copy: a destination that fails to take the bytes is part of `published` in `Put`.
- Listing.List: both queries see the same table; a row inserted between them would only change the total.
- DocumentService.Create: checks of file name and media type enter as one verdict, and a key generator that fails is not modelled, since it only returns an error.
- Auth.AuthSystem.IssueAndPersist: a failing token generator is not modelled, since nothing is stored then.
- HTTP handlers, router, middleware, CORS, request ids, logging, error codes, CLI and configuration parsing.
- JWT signing and parsing, bcrypt, SHA-256, trimming of tokens: arbitrary functions.
- Registration and password checks of a login: they come before the session is issued.
- pgx, go-redis, AWS SDK and PostgreSQL themselves; names are compared byte by byte, as in the C collation.
- JSON decoding errors: such a payload takes the same branch as an invalid job.
- Cancellation inside a call: the same as that call failing.
- Directories, temporary files, symbolic links and the S3 driver: only "the whole object or nothing".
- Recovery of the processing list: the code has none.
- The columns original_name, media_type, created_at and updated_at, and the public URL.
- UTF-8 boundaries in cut messages: messages are byte sequences.
- The DDL of the migrations: `Up` and `Down` are functions on an abstract schema.
