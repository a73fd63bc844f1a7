# ODI: a verified model of ingestion, deduplication and their clients

ODI scans paper pages, sends them through OCR into a search index, and serves the archive to a browser. This
project models the parts of it that are concurrent, asynchronous or full of cases, and proves what they
guarantee over every input, every schedule and every run. `dafny verify dfyconfig.toml` checks all of it.

**Ingestion.** `RemoteBackend.dfy` holds the batching uploader: a class with the fields guarded by the mutex `mu`
and one method for every stretch of code that runs with `mu` held, each tied to a function on field values.
`UploadSystem.dfy` puts any number of `ProcessPage`, `Flush` and `Close` calls and idle-timer callbacks over one
backend, one step for each stretch between lock operations, with upload outcomes left open.
`UploadSafety.dfy` proves what holds in every reachable state (no page lost or doubled, limits, errors that
surface, locks, timer), `UploadOrder.dfy` proves exactly when order and scan purity hold, and `ScanPool.dfy` puts the
scan loop, the bounded channel, the worker pool and the final `Flush` on top and proves that `ScanPages` ends once
the scanner stops and never returns nil while a page is missing. `UploadClose.dfy` is about calls that Close does not stop. `ScanRequests.dfy` follows
the page numbers of a scan into the requests, and those through JSON to the server. `ScanServer.dfy` runs `ScanPages` and
the server together: what a nil result says about the digest index, and what happens to a scan of known pages.

**Deduplication.** `DigestIndex.dfy` is the reservation index, with requests whose effect or whose reply may be
lost. `DigestProtocol.dfy` runs local processing, uploads and reindexing against it, interleaved request by request,
with crashes. `Reindex.dfy` is the reindex loop over that index with its counters.

**Server.** `Uploads.dfy` (page numbers of an upload, client and server, their JSON included), `UploadRequest.dfy`
(the parallel workers of one request, and the client that repeats it), `Export.dfy` (scrolled and concurrent
retrieval), `Shares.dfy` (view limit under concurrent requests), `AmountPattern.dfy` and `Amount.dfy` (amounts in
free text), and from the OCR client `Grouping.dfy` (text blocks).

**Browser.** `FavoriteDocuments.dfy` is the pool of four requests over a changing list. `ArchiveSearch.dfy`,
`DocumentSearch.dfy` and `DocumentList.dfy` are the three paged searches; what they share is in `Feed.dfy`.
`Json.dfy` and `ArchiveLink.dfy` are the search link, with JSON text as in sections 2 to 7 of RFC 8259, and
`Highlight.dfy` the highlight markup. `Common.dfy` holds lists and options.

Concurrent parts are state machines on values: a state, the steps that are possible in it, and what each does.
"Reachable" always means: after any finite sequence of possible steps. Where the source updates an object, a class
does the same to the same fields, and its methods are proved against the functions the state machine uses.

Some things the code or its comments suggest are not so. They are stated with the exact condition under which they hold:

- The comment at `remote.go:150` says two scans are never mixed in one upload. `ProcessPage` gives up `mu` while it
  flushes. No batch ever mixes scans if and only if calls for different scans do not overlap or a batch holds one page;
  calls for one scan may overlap freely, as in `ScanPages` (`UploadOrder.UnmixedExactly`).
- Batches are uploaded in the order they were filled if and only if `ProcessPage` calls do not overlap
  (`UploadOrder.OrderedExactly`); `ScanPages` has ten callers, so its uploads may overtake each other.
- The comment at `remote.go:204` says Close refuses further pages. A page can still be appended afterwards if and only if
  some call passed its check before, found that the scan changed, and has yet to append
  (`UploadClose.AppendsAfterCloseExactly`). Its ProcessPage then returns nil, and only a Flush ever uploads the page
  (`UploadClose.PageBehindClose`, `UploadClose.OnlyFlushEmpties`).
- A batch that the server took without a failed file still counts as refused if and only if all its content was reserved
  before (`UploadRequest.TakesExactly`). So a scan of known pages ends in an error although nothing is missing, and a scan
  that went well cannot be repeated (`ScanServer.DuplicatesFail`, `ScanServer.RescanFails`, with the runs
  of `ScanServer.RescanPlay`).
- A page in its store or index stage owns its digest in every run if and only if no reindex runs beside another call for
  the same page and content: a failing reindex releases the reservation of that call. Local calls and uploads may overlap
  (`DigestProtocol.OwnershipExactly`).
- A reservation that nobody answers for is left behind exactly by one of five faults: a lost reply to the create, a read or
  a delete of the release that gets lost, a crash while holding it, a stored file that cannot be read again. Each alone is
  enough, and no other loss or crash does it (`DigestProtocol.OrphansExactly`, `DigestProtocol.FaultOrphans`).
- The client of an upload repeats a chunk whose answer was lost. If the first request had indexed every new file, the
  repeat is answered with a conflict and the client reports a failure (`UploadRequest.RepeatFailsExactly`, with the run
  of `UploadRequest.LostAnswer`).
- The comment at `insights.go:36` says thousands separators are normalized. A whole amount with a comma or a dot is
  read as a fraction or not at all (`Amount.WholeExactly`).
- A link keeps a search, highlight markup keeps segments, an archive matches its manifest, and a reindex run accounts for every
  page under the conditions of `ArchiveLink.LinkKeepsExactly`, `Highlight.RoundTripExactly`,
  `Export.CollectExportEntries` and `Reindex.Run`.
- The rows of the document list need not be those of its latest listing. Since the latest reload they are if and only if it
  was a refresh, it was answered, or there was no row before (`DocumentList.LatestExactly`); otherwise the old rows and the
  old scroll ID stay, and further pages of the old listing are appended (`DocumentList.OldPagesFollow`). Rows of two
  listings are never mixed (`DocumentList.RowsOfOneListing`).

## Model

| member | source | states |
|---|---|---|
| `RemoteBackend.RemoteBackend.constructor` | pkg/ingestor/remote.go:109-129 | a new backend is empty and open; a limit that is not positive is replaced by its default |
| `RemoteBackend.RemoteBackend.TakeBufferLocked` | pkg/ingestor/remote.go:250-259 | returns the whole buffer and leaves it empty with zero bytes; nothing changes when it was empty |
| `RemoteBackend.RemoteBackend.ResetIdleTimerLocked` | pkg/ingestor/remote.go:219-226 | stops the armed timer and arms one of a new, larger generation |
| `RemoteBackend.RemoteBackend.AdmitLocked` | pkg/ingestor/remote.go:140-154 | a page is refused after a recorded idle failure or after Close; a change of scan takes the buffer; otherwise nothing changes |
| `RemoteBackend.RemoteBackend.AppendLocked` | pkg/ingestor/remote.go:160-178 | the page joins the buffer, the timer starts over, and the buffer is taken exactly if it reached one of the limits |
| `RemoteBackend.RemoteBackend.DrainLocked` | pkg/ingestor/remote.go:185-197 | Flush cancels the timer, hands over and clears the recorded idle error, and takes the buffer |
| `RemoteBackend.RemoteBackend.CloseLocked` | pkg/ingestor/remote.go:208-215 | Close cancels the timer and marks the backend closed; buffered pages stay |
| `RemoteBackend.RemoteBackend.IdleTakeLocked` | pkg/ingestor/remote.go:229-235 | an idle callback takes the buffer only if its generation is current and the backend open |
| `RemoteBackend.RemoteBackend.RecordLocked` | pkg/ingestor/remote.go:240-244 | the first idle failure is kept, later ones do not replace it |
| `UploadSystem.SectionsAreTheMethods` | pkg/ingestor/remote.go:134-248 | what each of the six stretches with `mu` held does to the fields is what its method above does, and the step goes on with the very batch and errors that method returns |
| `UploadSystem.NextInv` | pkg/ingestor/remote.go:134-287 | every step of any call, timer or new caller keeps the invariants on locks, custody of batches, queue, tickets, timers, attempts, refused batches and the history of recorded and drained errors together |
| `UploadSystem.TakeInv` | pkg/ingestor/remote.go:153-176 | a step that takes the buffer makes exactly one thread the holder of the new batch and keeps every invariant |
| `UploadSystem.AppendFullInv` | pkg/ingestor/remote.go:164-175 | appending the page that reaches a limit keeps every invariant: the page is in the taken batch and counted once |
| `UploadSystem.UploadInv` | pkg/ingestor/remote.go:274-287 | however the server answers, a batch is decided once, and a refused batch is with the thread that sent it: in its error, or about to be recorded if it is an idle one |
| `UploadSafety.PageConservation` | pkg/ingestor/remote.go:134-259 | in every reachable state the appended pages are, counted with multiplicity, the buffer plus the held, the accepted and the refused batches |
| `UploadSafety.OneHolder` | pkg/ingestor/remote.go:150-287 | a batch is undecided exactly while some thread holds it, and no two threads hold the same batch |
| `UploadSafety.BufferBounds` | pkg/ingestor/remote.go:164-176 | in every reachable state `bufBytes` is the sum of the buffered sizes and both limits are kept strictly; no batch exceeds `maxPages` or reached `maxBytes` before its last page |
| `UploadSafety.AppendedOnce` | pkg/ingestor/remote.go:134-179 | no call puts its page into the buffer twice, and nothing is in the buffer that no call brought |
| `UploadSafety.NilMeansAppended` | pkg/ingestor/remote.go:134-179 | a ProcessPage that returned nil has itself put its page into the buffer, at exactly one position |
| `UploadSafety.IdleFailureSurfaces` | pkg/ingestor/remote.go:182-248 | each failed idle upload whose callback is past recording it, however many failed or were reported before, is pending in `flushErr` with no drain since, behind the first failure of its run if it is not that itself, or the next Flush to drain carries that first failure |
| `UploadSafety.PendingIsFirst` | pkg/ingestor/remote.go:186-244 | in every reachable state `flushErr` is the first idle failure recorded since the last drain, and nil exactly if none was recorded since |
| `UploadSafety.FailuresSurface` | pkg/ingestor/remote.go:182-248 | once all calls have returned, each refused batch is named in the error of the call that sent it or, for an idle upload, was recorded and surfaces from there: in `flushErr`, or in the result of the next Flush after it |
| `UploadSafety.FlushSeesIdleFailure` | pkg/ingestor/remote.go:182-201 | when Flush drains, no idle upload is between failing and recording it; each has been read by the first Flush to drain after it, this one or an earlier one, and that Flush returns the first failure since the drain before |
| `UploadSafety.ReportsAreGenuine` | pkg/ingestor/remote.go:236-244 | only refused batches of idle uploads are ever recorded |
| `UploadSafety.AdmissionExactly` | pkg/ingestor/remote.go:140-179 | in every reachable state a page is refused with the first idle failure since the last drain exactly if there is one, and otherwise as closed exactly if the backend is, and then nothing is appended or taken; any other page is appended at once, unless it names another scan than the last page that named one: then the buffer is taken and the page waits |
| `UploadSafety.ErrorsAreGenuine` | pkg/ingestor/remote.go:134-248 | no call returns an error without its cause: an unreadable page, a closed backend, a batch of its own that was refused, or a refused idle upload; in all cases but the third its page was not appended |
| `UploadSafety.ResultExactly` | pkg/ingestor/remote.go:134-179 | ProcessPage returns nil exactly if it appended its page and no batch it sent was refused, and names a failed batch exactly if it sent it and it was refused |
| `UploadSafety.UnreadableIsRefused` | pkg/ingestor/remote.go:134-138 | a page that cannot be read is refused with that error, and in no continuation appended |
| `UploadSafety.OneUploadAtATime` | pkg/ingestor/remote.go:262-272 | no two uploads are ever under way together |
| `UploadSafety.NoDeadlock` | pkg/ingestor/remote.go:134-287 | while any call is unfinished some thread can take a step |
| `UploadSafety.StepWorks` | pkg/ingestor/remote.go:134-287 | every step of a thread strictly lowers a bound on the remaining work |
| `UploadSafety.SchedulesAreBounded` | pkg/ingestor/remote.go:134-287 | without new calls or timers every schedule ends within that bound |
| `UploadSafety.StuckMeansReturned` | pkg/ingestor/remote.go:134-287 | no step is possible exactly when every call has returned |
| `UploadSafety.BufferIsWatched` | pkg/ingestor/remote.go:170-248 | a non-empty buffer of an open backend has a timer of the current generation armed or its callback on the way; at most one timer is armed |
| `UploadSafety.StaleCallbackTakesNothing` | pkg/ingestor/remote.go:230-234 | an idle callback that takes a batch is of the current generation and the backend is open |
| `UploadSafety.GenerationGrows` | pkg/ingestor/remote.go:186-224 | no step lowers the generation, and a step that keeps it neither appends a page nor closes the backend |
| `UploadSafety.SameGenerationMeansIdle` | pkg/ingestor/remote.go:219-232 | between two moments of one generation no page arrived and the backend was not closed, over any run |
| `UploadClose.AppendsAfterCloseExactly` | pkg/ingestor/remote.go:150-217 | from a closed backend on, some run appends a page if and only if some call was admitted before, gave up `mu` because the scan changed, and has not appended yet |
| `UploadClose.OnlyFlushEmpties` | pkg/ingestor/remote.go:208-248 | once all calls on a closed backend have returned, no timer, ProcessPage or Close ever takes what is in the buffer, in any run without a Flush |
| `UploadClose.PageBehindClose` | pkg/ingestor/remote.go:152-179 | a run for any limits with room for two pages: ProcessPage returns nil and its page is in the buffer of a closed backend with no call left |
| `UploadOrder.QueueOrder` | pkg/ingestor/remote.go:134-287 | if ProcessPage calls do not overlap, with timers, Flush and Close free, the uploads begun, then the one batch that may wait, then the buffer are the appended pages in order |
| `UploadOrder.UploadsCanOvertake` | pkg/ingestor/remote.go:172-178 | any two calls that may overlap reach a state in which the second batch is sent before the first |
| `UploadOrder.OrderedExactly` | pkg/ingestor/remote.go:134-287 | batches are sent in the order they were filled in every run if and only if no two ProcessPage calls overlap |
| `UploadOrder.SafeClients` | pkg/ingestor/remote.go:150-162 | no batch mixes scans if calls for different scans do not overlap, however calls for one scan overlap and scans follow each other, or if a batch holds one page |
| `UploadOrder.ScansCanMix` | pkg/ingestor/remote.go:152-164 | two overlapping callers with different scans and room for two pages reach a batch that holds both |
| `UploadOrder.UnmixedExactly` | pkg/ingestor/remote.go:150-162 | no run mixes two scans in a batch if and only if no two calls for different scans may overlap or a batch holds one page, for every relation saying which calls may |
| `ScanPool.PoolNext` | pkg/ingestor/ingest.go:83-225 | every step of the scan loop, the workers, the final Flush and the backend keeps the ledger of yielded, queued, started and counted pages |
| `ScanPool.DrainSettles` | pkg/ingestor/ingest.go:149-154 | the drain of the last Flush leaves no buffered page and no undecided batch but its own, and no refused batch unless the Flush or a worker has seen an error |
| `ScanPool.NothingLeftBehind` | pkg/ingestor/ingest.go:149-158 | however a scan ends, the channel and the buffer are empty and every batch was sent and decided |
| `ScanPool.NoSilentLoss` | pkg/ingestor/ingest.go:83-159 | if ScanPages returns nil then, for any schedule of workers and idle timer, the batches the server accepted hold every yielded page exactly once and nothing else |
| `ScanPool.NilExactly` | pkg/ingestor/ingest.go:83-159 | ScanPages returns nil if and only if the scanner stopped by itself without an error and without a page that was unreadable, too large or cancelled, every page was received before the context ended, every ProcessPage call ended without an error, and every batch was accepted |
| `ScanPool.FailedPagesExactly` | pkg/ingestor/ingest.go:155-157 | the number of failed pages that is reported is that of the pages received too late plus the calls that ended in an error, out of all that were yielded, and it is reported exactly if it is not zero |
| `ScanPool.FlushErrorsExactly` | pkg/ingestor/ingest.go:152-154 | the errors of the last Flush, the recorded idle failure included, are handed on exactly as it returned them, and none is reported if it returned none |
| `ScanPool.StopIsReported` | pkg/ingestor/ingest.go:104-112 | the scan can stop at any moment, and however it goes on from there the result begins with the error of the scanner or the context |
| `ScanPool.BadPageIsReported` | pkg/ingestor/ingest.go:113-130 | a page that cannot be read or is too large ends the scan, is not sent, and the result begins with its number |
| `ScanPool.CancelIsReported` | pkg/ingestor/ingest.go:131-146 | a scan cancelled while it sends a page or waits for the next ends with that error first, and the page was sent exactly if that came after |
| `ScanPool.PoolNeverStuck` | pkg/ingestor/ingest.go:83-225 | until ScanPages has returned something can always go on: no schedule strands the producer or a worker |
| `ScanPool.RunsAreBounded` | pkg/ingestor/ingest.go:147-225 | once the scanner has stopped, no schedule of workers, calls and final Flush is longer than a bound on the work left |
| `ScanPool.StuckMeansFinished` | pkg/ingestor/ingest.go:147-225 | and such a schedule can only end with ScanPages having returned |
| `ScanRequests.RequestsAreTaken` | pkg/ingestor/remote.go:301-312 | in every run each batch is of this scan alone, and the server reads exactly the numbers of its pages from the JSON list sent with it |
| `ScanServer.NilMeansIndexed` | pkg/ingestor/ingest.go:83-159 | with the real server behind the uploads, whatever requests or answers get lost and whatever storing and indexing come to: if ScanPages returns nil, the content of every yielded page is in the digest index |
| `ScanServer.DuplicatesFail` | pkg/ingestor/remote.go:275-343 | a scan that yields only known content, and at least one page, ends in an error in every run, with all its content still in the index |
| `ScanServer.RescanFails` | pkg/ingestor/remote.go:275-343 | the pages of a scan that returned nil, or some of them, scanned again in any run over the index it left, end in an error |
| `ScanServer.OnePageScan` | pkg/ingestor/ingest.go:83-159 | over any index there is a run in which one page is scanned, received, uploaded and answered without trouble: ScanPages returns nil if its content was new and reports a failed upload if it was known, and the content is in the index either way |
| `ScanServer.RescanPlay` | pkg/ingestor/remote.go:275-343 | two runs one after the other over an empty index: the first returns nil, the second scans the same page and reports an error |
| `DigestIndex.DigestIndex.CreateRequest` | pkg/indexer/dedupe.go:65-87 | the entry is created only if there is none, atomically; a lost reply reports an error although the entry exists |
| `DigestIndex.DigestIndex.GetRequest` | pkg/indexer/dedupe.go:172-208 | reads owner and version of the entry, or that there is none, and changes nothing |
| `DigestIndex.DigestIndex.DeleteRequest` | pkg/indexer/dedupe.go:131-140 | an entry is deleted only at the version that was read |
| `DigestIndex.DigestIndex.ReserveContentDigest` | pkg/indexer/dedupe.go:53-105 | an empty digest is always granted; any other exactly if the create is answered and found it free, and then the caller owns it; a refusal names the owner at the time it is read, or nobody, whatever others did since; it fails exactly if the create, or the read behind a conflict, is not answered |
| `DigestIndex.DigestIndex.ReleaseContentDigest` | pkg/indexer/dedupe.go:113-164 | whatever others do between its two requests, it removes exactly the entry it read, if that is the caller's and still there and the delete gets through, and nothing else; it fails exactly if one of its requests is not answered |
| `DigestProtocol.CompareAndDelete` | pkg/indexer/dedupe.go:107-164 | in every interleaving with crashes and lost messages an entry disappears only through a release by the page that owns that very entry, and never changes hands in place |
| `DigestProtocol.ReservationsNext` | pkg/ingestor/local_pipeline.go:36-88 | every request of local processing, upload or reindex keeps: who is storing or indexing owns the entry, and so does every page last indexed for that digest |
| `DigestProtocol.OwnershipExactly` | pkg/ingestor/local_pipeline.go:36-87 | in every run, with any crash or loss, a page being stored or indexed and a page last reported as indexed owns its digest, if and only if a reindex may not overlap any call for the same page and digest, for every choice of which kinds of call may overlap |
| `DigestProtocol.ReindexBreaksOwnership` | pkg/reindex/reindex.go:68-90 | a reindex beside any kind of call for its page can fail and release the entry while that call is still at work |
| `DigestProtocol.OnePagePerDigest` | internal/server/upload.go:196-252 | while a page is last reported as indexed with a digest, no other page is, and no other page stores or indexes that content |
| `DigestProtocol.OutcomeExactly` | pkg/ingestor/local_pipeline.go:36-88 | in every run a call ends as indexed exactly if it created the entry, or as a reindex read its own page as the owner, its storing went well if it stores, and then its indexing did; and as a duplicate exactly if it found the digest taken and then read another owner, or none, or its own page without being a reindex |
| `DigestProtocol.NewIsIndexed` | pkg/ingestor/local_pipeline.go:36-88 | from any reachable state with the digest free, a call of any kind that may begin can run through undisturbed, and is then indexed, with the entry in its page's name and nothing else changed |
| `DigestProtocol.OwnIsReindexed` | pkg/reindex/reindex.go:68-93 | a reindex of the page that owns the digest can run through and leaves the index as it is |
| `DigestProtocol.FailureFreesDigest` | pkg/ingestor/local_pipeline.go:48-61 | the read of a failed call's release finds its own entry and the delete at that version removes it, whatever happened in between, so a later attempt can reserve again |
| `DigestProtocol.FaultlessRunsLeaveNoOrphan` | pkg/ingestor/local_pipeline.go:26-61 | without the five faults every entry is held by a call that will index or release it, or its page was indexed with that content, however calls overlap |
| `DigestProtocol.FaultOrphans` | pkg/indexer/dedupe.go:77-164 | each of the five faults alone can leave an entry with no call at work and its page never indexed, and every other page with that content is then a duplicate of it |
| `DigestProtocol.OrphansExactly` | pkg/indexer/dedupe.go:77-164 | every entry is answered for in every run if and only if none of the five faults can strike, for every set of faults and every overlap |
| `Reindex.RunPage` | pkg/reindex/reindex.go:48-93 | indexed exactly if the page was retrieved, read and indexed and its create was answered on a free digest, or on a taken one whose owner was read and is this page; duplicate exactly if both were answered and the owner is another, which it names; failed otherwise; no entry of another page changes, indexed means owning, and after a failed index whose release got through the page owns nothing |
| `Reindex.Run` | pkg/reindex/reindex.go:39-96 | each page is reported as it fares over the index that the pages before it left; the counters are the tally of the statuses and add up to the total if and only if no page before the last one finds the run cancelled; every page last reported as indexed owns its digest at the end |
| `Reindex.TallyCounts` | pkg/reindex/reindex.go:40-95 | processed, duplicates and failed add up to the pages reported |
| `FavoriteDocuments.FavoriteDocuments.PumpRequests` | frontend/src/composables/useFavoriteDocuments.ts:35-58 | starts requests for pending entries in list order until four are active |
| `FavoriteDocuments.FavoriteDocuments.AddEntry` | frontend/src/composables/useFavoriteDocuments.ts:64-67 | a new ID gets a new pending object; a listed one keeps its own |
| `FavoriteDocuments.FavoriteDocuments.OnIdsChanged` | frontend/src/composables/useFavoriteDocuments.ts:60-69 | drops the entries of IDs no longer listed, adds a new object for each new ID, then pumps |
| `FavoriteDocuments.FavoriteDocuments.OnSettled` | frontend/src/composables/useFavoriteDocuments.ts:45-52 | an answer is stored only while its entry object is still the one listed |
| `FavoriteDocuments.FavoriteDocuments.OnFinally` | frontend/src/composables/useFavoriteDocuments.ts:53-56 | ends the request, frees its slot and pumps |
| `FavoriteDocuments.FavoriteDocuments.RetryFailed` | frontend/src/composables/useFavoriteDocuments.ts:90-98 | every failed entry becomes pending and bypasses the cache, then pumps |
| `FavoriteDocuments.FavoriteDocuments.OnDispose` | frontend/src/composables/useFavoriteDocuments.ts:71-74 | disposes and forgets all entries |
| `FavoriteDocuments.NextInv` | frontend/src/composables/useFavoriteDocuments.ts:29-98 | every callback and every change of the list keeps the pool invariants |
| `FavoriteDocuments.AtMostFour` | frontend/src/composables/useFavoriteDocuments.ts:31-56 | the active counter is the number of unfinished requests and never exceeds four, whatever the list does |
| `FavoriteDocuments.LoadingMeansRequest` | frontend/src/composables/useFavoriteDocuments.ts:85-104 | once the watcher has run and until disposal, four requests are active or nothing listed is pending, and a positive pendingCount means a request is in flight |
| `FavoriteDocuments.AnswerLandsOnItsEntry` | frontend/src/composables/useFavoriteDocuments.ts:46-51 | an answer changes only the object that asked for it, and only while that object is listed under that ID and loading |
| `FavoriteDocuments.AnswerExactly` | frontend/src/composables/useFavoriteDocuments.ts:43-52 | an answer to an entry that is still listed makes it loaded with the document of its ID, a failure makes it failed and keeps its document; any other answer changes no entry |
| `FavoriteDocuments.CacheExactly` | frontend/src/composables/useFavoriteDocuments.ts:43-96 | in every run a request bypasses the cache exactly if its entry was asked for before: retries do, first requests do not, not even for an ID removed and listed again |
| `FavoriteDocuments.EntriesExactly` | frontend/src/composables/useFavoriteDocuments.ts:60-74 | once the watcher has run exactly the listed IDs have an entry, and after disposal none has |
| `FavoriteDocuments.RetryExactly` | frontend/src/composables/useFavoriteDocuments.ts:90-98 | a retry leaves no entry failed, leaves loading and loaded ones alone, and goes on until four requests are active or nothing is pending |
| `FavoriteDocuments.ShownInOrder` | frontend/src/composables/useFavoriteDocuments.ts:76-81 | the documents shown are those of listed IDs, in list order |
| `FavoriteDocuments.ShownExactly` | frontend/src/composables/useFavoriteDocuments.ts:76-81 | one document is shown for each listed ID that has one, and none is left out |
| `FavoriteDocuments.PendingExactly` | frontend/src/composables/useFavoriteDocuments.ts:85-104 | something is shown as loading exactly while a listed ID waits for an answer or its turn |
| `ArchiveSearch.ArchiveSearch.BeginSearch` | frontend/src/composables/useArchiveSearch.ts:15-25 | a new generation with everything cleared, and a request exactly if the search asks for something |
| `ArchiveSearch.ArchiveSearch.BeginLoadMore` | frontend/src/composables/useArchiveSearch.ts:38-44 | a further request exactly if there is a scroll ID and nothing is loading |
| `ArchiveSearch.ArchiveSearch.OnReply` | frontend/src/composables/useArchiveSearch.ts:25-52 | a reply of an older generation changes nothing that is shown |
| `ArchiveSearch.ResultsOfLatestSearch` | frontend/src/composables/useArchiveSearch.ts:15-53 | for replies in any order the results are exactly the rows received for the latest search, read page by page; at most one of its requests is open, and a spinner shows exactly while one is |
| `ArchiveSearch.ShownExactly` | frontend/src/composables/useArchiveSearch.ts:15-53 | in every run an error is shown exactly if the request sent last belongs to the latest search and failed, and the total is that of the first page received for that search, or zero |
| `ArchiveSearch.SearchArrives` | frontend/src/composables/useArchiveSearch.ts:15-36 | from any state a search that asks for something is sent, shows nothing while it loads, and shows exactly its page once answered |
| `ArchiveSearch.MoreArrives` | frontend/src/composables/useArchiveSearch.ts:38-52 | from any state with a next page and nothing loading, that page can be asked for and then follows the rows |
| `DocumentSearch.DocumentSearch.BeginSearch` | frontend/src/composables/useSearch.ts:40-72 | a new generation without scroll ID for this term and the given or the active filters; a blank search clears the panel, any other keeps the rows while it loads |
| `DocumentSearch.DocumentSearch.BeginLoadMore` | frontend/src/composables/useSearch.ts:97-102 | a further request exactly if there is a scroll ID and nothing is loading |
| `DocumentSearch.DocumentSearch.OnSearchReply` | frontend/src/composables/useSearch.ts:73-89 | only the current search replaces the rows, by its own or by none |
| `DocumentSearch.DocumentSearch.OnMoreReply` | frontend/src/composables/useSearch.ts:103-112 | only a current page is appended; a reply without rows keeps the scroll ID |
| `DocumentSearch.DocumentSearch.ClearAll` | frontend/src/composables/useSearch.ts:115-128 | clears everything, term and filters included, and makes all open requests stale |
| `DocumentSearch.BlankExactly` | frontend/src/composables/useSearch.ts:28-54 | the count of active filters and the link of the search agree: no term and no active filter exactly if the link is that of no search |
| `DocumentSearch.RowsOfOneSearch` | frontend/src/composables/useSearch.ts:40-128 | for replies in any order the rows shown come from one search, read page by page; when nothing is loading that is the latest one and they are all it received |
| `DocumentSearch.ShownExactly` | frontend/src/composables/useSearch.ts:40-133 | in every run the error is shown exactly if a request of the latest search failed, the total is that of the rows' first page, something counts as searched for exactly if the last query is not blank, and the debounce timer is set exactly for a call debounced after the last search or reset |
| `DocumentSearch.SearchArrives` | frontend/src/composables/useSearch.ts:40-89 | from any state a search that is not blank is sent, keeps the rows while it loads, and shows exactly its page once answered |
| `DocumentSearch.BlankClears` | frontend/src/composables/useSearch.ts:54-61 | a blank search and a reset send nothing and leave nothing to be seen |
| `DocumentSearch.DebouncedIsSearched` | frontend/src/composables/useSearch.ts:92-95 | when the timer fires the debounced call is searched for exactly as if it were made then |
| `DocumentSearch.MoreArrives` | frontend/src/composables/useSearch.ts:97-112 | from any state with a next page and nothing loading, that page can be asked for and then follows the rows |
| `DocumentList.DocumentList.BeginLoad` | frontend/src/composables/useDocuments.ts:38-48 | a new generation; the old rows stay until the reply |
| `DocumentList.DocumentList.BeginLoadMore` | frontend/src/composables/useDocuments.ts:65-70 | a further request exactly if there is a scroll ID and nothing is loading |
| `DocumentList.DocumentList.RefreshAll` | frontend/src/composables/useDocuments.ts:83-88 | forgets the rows and the scroll ID, then reloads as a new generation |
| `DocumentList.DocumentList.OnLoadReply` | frontend/src/composables/useDocuments.ts:49-61 | only the current reload replaces the rows; a failed one leaves them |
| `DocumentList.DocumentList.OnMoreReply` | frontend/src/composables/useDocuments.ts:71-80 | only a current page is appended |
| `DocumentList.RowsOfOneListing` | frontend/src/composables/useDocuments.ts:38-88 | for replies in any order the rows shown are all pages of one listing that arrived in time, read page by page, and at most one current request is open |
| `DocumentList.LatestExactly` | frontend/src/composables/useDocuments.ts:38-88 | in every run, since its latest reload or refresh, the rows are those of that listing if and only if it was a refresh, or it was answered, or there was no row to begin with |
| `DocumentList.OldPagesFollow` | frontend/src/composables/useDocuments.ts:49-80 | a run in which a reload fails and a page of the listing before it is appended to the old rows |
| `DocumentList.ShownExactly` | frontend/src/composables/useDocuments.ts:38-88 | in every run the error is shown exactly if a request failed since the last reload began, and the total is that of the rows' first page |
| `DocumentList.LoadArrives` | frontend/src/composables/useDocuments.ts:38-88 | from any state a reload or refresh is sent, keeps or drops the rows while it loads, and shows exactly its page once answered |
| `DocumentList.MoreArrives` | frontend/src/composables/useDocuments.ts:65-80 | from any state with a next page and nothing loading, that page can be asked for and then follows the rows |
| `Json.StringifyRoundTrip` | frontend/src/lib/archiveSearch.ts:11-39 | parsing the JSON text printed for any list of strings gives the list back, surrogates and control characters included |
| `Json.ParsePrint` | frontend/src/lib/archiveSearch.ts:11-19 | a text of any JSON value, nested as it may be, with any white space between its parts, is parsed to that value |
| `Json.CharExactly` | frontend/src/lib/archiveSearch.ts:11-19 | a character of a string is read exactly from one of its forms: itself, a short escape, or four hexadecimal digits of either size |
| `Json.NumberIsNumeral` | frontend/src/lib/archiveSearch.ts:11-19 | what is read as a number is a number of the grammar: no leading zeros, and digits behind every dot and e |
| `ArchiveLink.ParseArchiveQuery` | frontend/src/lib/archiveSearch.ts:4-30 | the loops over the keys compute the search a query stands for |
| `ArchiveLink.ParseLists` | frontend/src/lib/archiveSearch.ts:6-21 | a list parameter is read as JSON behind a leading bracket and split at commas otherwise, without its empty items; malformed JSON leaves the filter unset |
| `ArchiveLink.ParseDates` | frontend/src/lib/archiveSearch.ts:22-24 | a date parameter is taken if it is one non-empty string |
| `ArchiveLink.ArchiveQuery` | frontend/src/lib/archiveSearch.ts:32-49 | the loops over the keys compute the query of a search |
| `ArchiveLink.PrintLists` | frontend/src/lib/archiveSearch.ts:35-42 | a non-empty list is written as JSON exactly if some value holds a comma or begins with a bracket, and joined by commas otherwise |
| `ArchiveLink.PrintDates` | frontend/src/lib/archiveSearch.ts:43-45 | non-empty dates are written as they are |
| `ArchiveLink.ListRoundTrip` | frontend/src/lib/archiveSearch.ts:9-40 | every list survives writing and reading up to its empty strings (an empty list, and one empty string alone, are not read back), and a leading bracket tells the two notations apart |
| `ArchiveLink.LinkRoundTrip` | frontend/src/lib/archiveSearch.ts:4-49 | reading the written query gives the trimmed term and the normal form of the filters, for every search |
| `ArchiveLink.LinkKeepsExactly` | frontend/src/lib/archiveSearch.ts:4-49 | a search survives its link unchanged if and only if its term is trimmed and its filters are normal |
| `ArchiveLink.NothingAsked` | frontend/src/lib/archiveSearch.ts:51-53 | a search counts as none exactly if its link reads back as the empty search and no filter is a list of one empty string |
| `Highlight.ParseHighlight` | frontend/src/lib/highlight.ts:17-39 | the loop ends and computes the segments of any text |
| `Highlight.StripHighlight` | frontend/src/lib/highlight.ts:41-43 | the result is the text without its tags, as one pass from front to end sees them: opening tags outside a match, closing tags inside one; every other character stays |
| `Highlight.UntaggedTexts` | frontend/src/lib/highlight.ts:17-43 | that text is the joined texts of the segments, for any input |
| `Highlight.StripRendered` | frontend/src/lib/highlight.ts:17-43 | stripping printed canonical segments gives back their texts |
| `Highlight.PrintParse` | frontend/src/lib/highlight.ts:17-39 | wrapping the segments again gives the text, with one closing tag added exactly if its last opening tag is not closed |
| `Highlight.ParseCanonical` | frontend/src/lib/highlight.ts:17-39 | parsed segments are canonical: plain text is non-empty, holds no opening tag and follows only a match; a match holds no closing tag |
| `Highlight.RoundTripExactly` | frontend/src/lib/highlight.ts:17-39 | segments survive printing and parsing if and only if they are canonical |
| `Highlight.FindFirst` | frontend/src/lib/highlight.ts:21-30 | the search fails exactly if the tag does not occur, and otherwise finds its first occurrence |
| `Highlight.PlainText` | frontend/src/lib/highlight.ts:22-25 | text without an opening tag is left as it is |
| `AmountPattern.SearchExactly` | internal/server/insights.go:40 | the pattern finds exactly the number that begins at the first digit and runs to the last digit reachable through separators, with the three letters in front of it as currency |
| `AmountPattern.NothingFound` | internal/server/insights.go:77-80 | nothing is found exactly in a text without digits |
| `AmountPattern.TrimmingChangesNothing` | internal/server/insights.go:77 | trimming the text first never changes what is found |
| `AmountPattern.TrimExactly` | internal/server/insights.go:77 | trimming takes away the white space at both ends, all of it and nothing else |
| `Amount.ParseAmount` | internal/server/insights.go:76-111 | the rewriting of the number computes the reading of any text: none, unreadable with its currency, or an amount |
| `Amount.NormalizedCents` | internal/server/insights.go:85-104 | a printed amount loses its thousands separators and gets a dot as decimal point, in every style |
| `Amount.RoundTrip` | internal/server/insights.go:76-111 | any number of cents, printed with any separator of thousands and any other decimal point, in a text that has no digit before it and nothing that continues the number, is read back exactly with its currency if it is in the range of a 64-bit float, and is unreadable otherwise |
| `Amount.CurrencyRoundTrip` | internal/server/insights.go:82 | and with it the currency, in capitals, however its three letters are spelled |
| `Amount.CapitalsExactly` | internal/server/insights.go:82 | a code found in a text is kept as a code in capitals if and only if it is a spelling of it, letter by letter large or small, the long s included |
| `Amount.CodeExactly` | internal/server/insights.go:40 | three characters are a code if and only if each spells a capital letter or is the Kelvin sign |
| `Amount.WholeExactly` | internal/server/insights.go:89-104 | a whole amount is read back exactly if and only if it is in range and shows no comma or dot |
| `Shares.SharesIndex.ReserveShareView` | internal/server/shares.go:432-461 | the update counts a view exactly if the record is open, and reports success exactly if it is answered and counted |
| `Shares.SharesIndex.Revoke` | internal/server/shares.go:282-324 | marks an existing record revoked and reports success exactly if that was answered |
| `Shares.SharesIndex.CheckAccess` | internal/server/shares.go:382-413 | access is granted exactly if the record exists, is open, the token has not expired and the pass phrase fits |
| `Shares.NextInv` | internal/server/shares.go:393-461 | every step of any number of serve requests and revocations keeps the view count equal to the views consumed and within the limit |
| `Shares.ViewsAreConserved` | internal/server/shares.go:393-461 | in every interleaving the view count is delivered pages plus reservations still held, undelivered or counted but reported as errors, and a positive limit is never exceeded |
| `Shares.RevokedForGood` | internal/server/shares.go:289-304 | after a revocation took effect the record never changes, and only calls that had reserved before can still deliver |
| `Shares.RevokedExactly` | internal/server/shares.go:282-324 | over any run the record is revoked exactly by a revocation that took effect, answered or not, and keeps its expiry and its limit |
| `Shares.RevocationStops` | internal/server/shares.go:282-324 | a revocation is possible at any time, and if it takes effect no call without a reservation can still come to deliver |
| `Shares.ClosedForGood` | internal/server/shares.go:415-428 | from a revoked, expired or spent record on, no run counts another view or delivers to a call that had not reserved before |
| `Shares.ReservedExactly` | internal/server/shares.go:393-461 | a call that passed the first check can still come to deliver its page in some continuation if and only if the record is not revoked, not expired and has views left |
| `Shares.OutcomeExactly` | internal/server/shares.go:382-461 | in every run from a fresh record a call delivers exactly if its page was sent, and then it passed its first check with a valid token and its pass phrase, and was counted, each at a moment when the record was open; it is not found exactly if one of the two was denied, fails exactly if a request broke off, and wastes a view exactly if the reply to a reservation that counted was lost |
| `Shares.CheckedExactly` | internal/server/shares.go:393-413 | after its first check a call can come to deliver if and only if its pass phrase fits, its token is valid, and the record is neither revoked nor expired nor spent |
| `Shares.NewCallExactly` | internal/server/shares.go:382-461 | from any state a request yet to arrive can come to deliver if and only if the record is open |
| `Grouping.GroupTextBlocks` | pkg/ocrclient/group.go:3-29 | the marking loop returns, for each seed in order, the seed and the blocks it owns in input order |
| `Grouping.CollectNeighbors` | pkg/ocrclient/group.go:11-23 | the inner loop collects exactly the blocks the seed owns and marks them, and marks no other |
| `Grouping.OwnerIsFirstSeed` | pkg/ocrclient/group.go:7-23 | every block belongs to a seed: itself, or the first seed it is a neighbour of |
| `Grouping.NeighborExactly` | pkg/ocrclient/group.go:31-40 | two blocks are neighbours if and only if their left edges are within the horizontal reach and the bottom of one is within the vertical reach of the top of the other |
| `Grouping.SeedsAreApart` | pkg/ocrclient/group.go:15-23 | no two seeds are neighbours |
| `Grouping.Partition` | pkg/ocrclient/group.go:3-29 | the groups together hold every block exactly once |
| `Grouping.BoundingBox` | pkg/ocrclient/group.go:53-82 | the smallest box around all blocks, or the zero box around none |
| `Export.ArchiveScrollPage` | internal/server/export.go:338-378 | for any order in which the concurrent retrievals complete, the entries and files are those of the hits in scroll order |
| `Export.CollectExportEntries` | internal/server/export.go:292-375 | the scroll loop ends within 5000 pages even against an endless scroll, with the entries of all hits in order, the too-large error at the page that passes 5000 hits, or the failure of a request; the finished archive holds exactly the files of its manifest if and only if no created file of any page failed to be written |
| `Export.StopsOnce` | internal/server/export.go:295-317 | those three ends exclude each other, so each is reported exactly when it is reached |
| `Uploads.ParseUploadSequenceIDs` | internal/server/upload.go:306-333 | accepts exactly a JSON list of whole numbers in range, of the right length, positive and distinct, or without a list an offset that cannot overflow, whose numbers follow it |
| `Uploads.OffsetRoundTrip` | internal/server/upload.go:312-324 | the offset a client prints makes the server assign the numbers that follow it |
| `Uploads.MarshalRoundTrip` | pkg/ingestor/remote.go:302-312 | the JSON list a client prints of any 64-bit numbers is decoded to the same numbers |
| `Uploads.UnmarshalExactly` | internal/server/upload.go:308-311 | a text is decoded exactly if it is null, as no numbers, or a JSON array of whole numbers in range without point or exponent, in which null stands for zero |
| `Uploads.NamedExactly` | internal/server/upload.go:306-333 | numbers sent as a list are taken as they are, whatever the offset beside them, if and only if they are positive and distinct |
| `Uploads.Summarize` | internal/server/upload.go:272-301 | the counters count the files by status and add up to all of them; the code is a conflict exactly if there is a file and every one is a duplicate |
| `UploadRequest.ConflictExactly` | internal/server/upload.go:150-301 | however the workers of one request interleave, the answer is a conflict if and only if every file could be read, the content of each was reserved before, and every request to the index was answered |
| `UploadRequest.LeftReserved` | internal/server/upload.go:196-252 | if nothing is lost, a request leaves reserved exactly what was reserved before or what it indexed, whatever storing and indexing came to |
| `UploadRequest.TakesExactly` | internal/server/upload.go:288-293 | the uploader counts a batch as accepted if and only if no file of it failed and some content was new |
| `UploadRequest.TakenIsReserved` | internal/server/upload.go:150-301 | the content of every file of an accepted batch is reserved when the request ends, however its workers interleave |
| `Uploads.ChunkDone` | frontend/src/composables/useUpload.ts:118-142 | a chunk is done exactly if one of three attempts is stored and every earlier one was not cancelled and failed without a status or with one from 500 on |
| `Uploads.ChunkEndsExactly` | frontend/src/composables/useUpload.ts:118-142 | a chunk ends as its last attempt decides, every one before it asked to be repeated: cancelled if the upload is cancelled by then or before the pause is over, done if it is stored, failed if it must not be repeated or is the third |
| `Uploads.SendChunk` | frontend/src/composables/useUpload.ts:116-143 | the retry loop ends as that rule says, always sends the same request, and a stored chunk gets the numbers behind its offset |
| `UploadRequest.RepeatFailsExactly` | frontend/src/composables/useUpload.ts:118-142 | a chunk sent again after its first answer was lost is a failure if and only if the repeat runs undisturbed and all its content is reserved by then, which is so exactly if an undisturbed first request indexed every new file; otherwise it is done |
| `UploadRequest.LostAnswer` | frontend/src/composables/useUpload.ts:118-142 | a run: one new file is indexed, the answer is lost, and the client reports a failure |
| `Uploads.Upload` | frontend/src/composables/useUpload.ts:89-151 | chunks are sent in turn up to the first that does not end well, and the upload ends as that one does; it is done if and only if every chunk is, each judged at the attempt the chunks before it leave off; the page numbers taken are 1, 2, 3 and so on, of exactly the chunks that were done |

## Left out

- RemoteBackend.RemoteBackend.ResetIdleTimerLocked: the generation counter is unbounded; the wrap-around of the 64-bit counter at remote.go:74 is not modelled.
- ScanPool.NoSilentLoss: the scan starts on a new backend and is its only caller of ProcessPage and Flush, as in each ingest; Close and idle callbacks are free. A panic of a worker counts its page as failed only outside the locked sections.
- ScanPool.RunsAreBounded: from the moment the scanner stops yielding pages; new Close calls and timers that fire in between are not counted.
- DigestProtocol.CompareAndDelete: a request takes effect, or not, before the call that sent it returns; effects that come later are not modelled.
- DigestProtocol.OwnershipExactly: which calls may overlap is a condition on the callers; nothing in the source enforces it.
- ArchiveSearch.ResultsOfLatestSearch: the state after the scope is disposed of is not modelled; in `DocumentSearch` disposal is `ClearAll`.
- Json.ParsePrint: that malformed text is refused is proved for characters, numbers and text behind a value, not for every text.
- Amount.RoundTrip: amounts are exact decimals; rounding to a 64-bit float is modelled only where it overflows.
- Highlight.PrintParse: text is a sequence of Unicode characters; unpaired surrogates are modelled in `Json` only.
- Shares.ViewsAreConserved: each update of the stored record is atomic, and an update that gives up after its retries is one that was refused; token signatures and pass-phrase hashes are inputs.
- Export.CollectExportEntries: what retrieving and writing a page comes to is an input; scroll IDs, the limit of eight parallel retrievals, ZIP, encryption and the manifest signature are left out.
- Grouping.GroupTextBlocks: coordinates are unbounded, and a block is its text and its box.
- Uploads.ParseUploadSequenceIDs: the list is JSON over code units, where the server decodes bytes and stops at a nesting of 10000; neither changes which lists of numbers are read.
- ScanServer.NilMeansIndexed: the scan is the only client of the index while it runs; others are in `DigestProtocol`. What became of the stored files themselves is left out.
- UploadRequest.RepeatFailsExactly: no other client is at work during the two requests; other clients are in `DigestProtocol`.
- Uploads.Upload: the server's answers are inputs, except that the numbers of a stored chunk are those it assigns; progress, waiting times and the summed counters are left out.
- Reindex.Run: one run with no other client of the index; with others, `DigestProtocol` applies.
- HTTP, OpenSearch, PostgreSQL, blob storage and the scanner: one request is one step with an arbitrary outcome.
- `pkg/crypt`, share tokens and bcrypt: slicing around library primitives.
- `pkg/watcher`, `getDocumentDetails` and `ocrtext.GetText`: the natural claims about them do not hold, and what is left is easy.
- OCR, the language model, Zefix lookup, thumbnails, command line, configuration, logging, error texts and views: no state with an invariant.
- The insight buckets: sums over the amounts modelled here.
