# Depot operations: offline queue, CSV, API client, links, map, access and imports

A Dafny model of the logic in `apps/web` that is costly to get wrong, and of the access
decision in `packages/access`, with proofs of what that logic promises.

* **Offline capture queue.** Field work captured without a network is stored on the device and
  sent later. `QueueMachine` is a machine of any number of tabs over one store, one server, one
  Web Lock and a clock, in which a step is what happens between two awaits; `QueueSafety` and
  `QueueLock` are its invariants, `QueueRuns` and `QueueMemory` what follows for every run,
  `QueueExamples` the runs that show bounds reached and conditions needed, `QueuePass` one flush
  as a function, and `OfflineQueue` the module state updated in place and proved equal to that
  function. A pass is also proved to be a run of the machine.
* **CSV.** The character loop of the parser with its separator vote, the printer with its formula
  neutraliser, the two composed, exactly when the separator vote lets a table through (`CsvVote`),
  and what is printed and read, said without the scanner (`CsvLaws`).
* **API client.** Shared and cached reads (`SharedReads`), the single-flight refresh
  (`SessionRefresh`) and the cost of one request (`RequestBudget`).
* **Links.** The rewrite of old links, written once for the application (`DeepLink`) and once for
  the service worker (`ServiceWorker`): when the two agree, for which prune lists the check of
  what a build serves may come before or after the rewrite (`PruneOrder`), what resolving twice
  does (`DeepLinkStable`), and what may be opened at all (`DeepLinkLaws`).
* **Map card** (`MapLayout`, `MapLaws`), **access decision** (`Access`), **import payloads** (`Payloads`,
  `ImportRows`, `CsvImport`), **money and whole numbers** (`Money`) and **paging** (`Paging`).

Where the code and its comments disagree the model follows the code:

* `offline-queue.ts` reads the error mark as a boolean. A job marked with an empty message, by a
  refusal or by its last attempt, is therefore sent again; a mark is final exactly when its
  message is not empty: `QueueRuns.MarkIsFinalIffItHasAMessage`.
* `offline-queue.ts` says that the in-page guard is the fallback without Web Locks. It is enough
  for one tab and for no more: `QueueRuns.SendsOnceIffOneFlusher`.
* `offline-queue.ts` keeps memory and disk apart in one more case than a failed delete: of two
  reads of the store that overlap, the second to end may fail, which empties the cache of a page
  that counts as hydrated. `QueueMemory.StepCompleteIff` lists all such steps,
  `QueueMemory.OverlappingReadsHideTheQueue` is the run.
* `api.ts` says that no cached read outlives a mutation made here. A mutation clears the cache
  before it is sent and not again, so one can, exactly when at the moment of the effect the key has
  been cached again or a GET of it whose answer is kept is in flight:
  `SharedReads.MutationLeaksIff`. With nothing in flight at the clear,
  `SharedReads.ReadDuringMutationLeaks` is a run. An upload clears after its answer and leaks
  exactly through a kept GET from before its effect: `SharedReads.UploadLeaksIff`.
* `api.ts` says that a read after a mutation goes to the server. Right after the clear it joins an
  older request exactly when one of its key is in flight: `SharedReads.ReadAfterClear`.
* `api.ts` says that nothing but a refusal signs anybody out. A refresh that succeeds with no
  session in its body clears the session too: `SessionRefresh.OnlyANoSignsOut`.
* `deep-link.ts` says the prune check gives the same answer before and after the rewrite. It does
  exactly for the lists that, below every dynamic parent, drop everything or name neither an id
  nor the detail page (`PruneOrder.OrdersAgreeIffSafe`); dropping a detail folder breaks it for
  every record (`PruneOrder.DroppedDetailFolder`). The lists the mobile build writes today name
  no folder below a parent, so they are among the safe ones.
* `csv.ts` prints with commas and lets the parser vote. A table with a header that shows something
  comes back exactly when the comma wins on the printed header line: `CsvVote.RoundTripIffCommaWins`.
* `depot-map-layout.ts` says that bubbles that would touch are merged. Bubble centres stay apart at
  every turn of the grouping exactly when no turn moves a centre near another group
  (`MapLayout.SpreadIffTurnsClear`), and a layout can end with two that touch
  (`MapLayout.BubblesCanTouch`). It also says that depots closer than the merge distance share a
  bubble. In the finished layout they do exactly when at every turn each earlier depot near the new
  one is in the group it joins (`MapLayout.NearTogetherIff`); in the same layout two depots placed
  2 apart are drawn in different bubbles (`MapLayout.NearDepotsCanPart`).
* `packages/access` says DENY beats GRANT. That holds between depots. Two rows for one triple, which
  the database's primary key excludes but a caller's own list can hold, are decided by their order:
  `Access.DenyClosesIffNotGrantedLater`.

## Model

| member | source | states |
|---|---|---|
| QueueJobs.BackoffValues | apps/web/src/lib/offline-queue.ts:191-193 | the waits after attempts 1 to 5 are 30 s to 8 min and add up to 930,000 ms |
| QueueSafety.StepKeepsBase | apps/web/src/lib/offline-queue.ts:239-522 | every step of every tab keeps: each copy of a job anywhere has its captured content, unmarked jobs have attempts left, ids are fresh when stored |
| QueueLock.StepKeepsGuarded | apps/web/src/lib/offline-queue.ts:455-522 | with one flush at a time every step keeps: no job in store or in a flush's hand is already delivered, timers reflect the summed backoffs, refused jobs stay marked |
| QueueLock.StepKeepsCache | apps/web/src/lib/offline-queue.ts:239-296 | in a one-tab world every step keeps memory a part of the store |
| QueueRuns.AtMostOneSuccess | apps/web/src/lib/offline-queue.ts:425-522 | in every run with Web Locks or one tab a job gets at most one successful answer, plus one per delete that failed or whose tab died |
| QueueRuns.SendsOnceIffOneFlusher | apps/web/src/lib/offline-queue.ts:443-464 | that bound holds in all runs exactly when there are Web Locks or at most one tab |
| QueueExamples.TwoTabsWithoutLocks | apps/web/src/lib/offline-queue.ts:455-457 | without locks two of any number of tabs can both deliver one job although no delete fails |
| QueueExamples.FailedDeleteSendsAgain | apps/web/src/lib/offline-queue.ts:288-296 | the bound is reached: after one failed delete a lone locked tab delivers the job twice |
| QueueRuns.OneFlushAtATime | apps/web/src/lib/offline-queue.ts:455-468 | no two tabs are inside a flush together |
| QueueRuns.SettledLiveIsNeverStored | apps/web/src/lib/offline-queue.ts:425-440 | once a live send has been answered with success or a refusal, its id is in the store neither then nor in any run that follows |
| QueueRuns.StoredAsTaken | apps/web/src/lib/offline-queue.ts:425-440 | over every run a capture kept after a retryable failure is stored with its kind, payload, capture time, the owner signed in at the answer, and no attempt |
| QueueRuns.DiscardRemoves | apps/web/src/lib/offline-queue.ts:288-296 | a discarded job leaves the page always, the store when the delete goes through, and nothing else changes |
| QueueRuns.PassStarts | apps/web/src/lib/offline-queue.ts:468-471 | a pass starts over everything cached, at the clock's time, ignoring backoff only as asked |
| QueueRuns.NothingIsLost | apps/web/src/lib/offline-queue.ts:466-522 | a stored job that is gone later left at a step that was a discard, a delivery, or a lapse past seven days under its own owner |
| QueueRuns.LeavesByDeparture | apps/web/src/lib/offline-queue.ts:288-296 | the same for one step: nothing else removes a row |
| QueueRuns.CaptureNeverChanges | apps/web/src/lib/offline-queue.ts:282-286 | over every run a stored job keeps id, kind, payload, capture time and owner |
| QueueRuns.OthersAreLeftAlone | apps/web/src/lib/offline-queue.ts:471-472 | a flush changes or deletes only jobs of the owner it judged them under |
| QueueRuns.UnmarkedHasAttemptsLeft | apps/web/src/lib/offline-queue.ts:503-515 | in every run a stored job without an error has fewer than six counted attempts |
| QueueRuns.RefusedIsNeverSent | apps/web/src/lib/offline-queue.ts:479-479 | in every run with one flush at a time a job marked with a non-empty error is not sent again |
| QueueRuns.MarkIsReadAsBoolean | apps/web/src/lib/offline-queue.ts:479-509 | after a refusal or a last attempt every later pass judges the job unfit to send exactly when the answer had a message |
| QueueRuns.MarkIsFinalIffItHasAMessage | apps/web/src/lib/offline-queue.ts:479-515 | over all runs with one flush at a time a job marked with a message is never sent again exactly when the message is not empty |
| QueueExamples.SilentRefusalIsSentAgain | apps/web/src/lib/offline-queue.ts:498-500 | the run of one locked tab in which a job refused without a message reaches the next send |
| QueueRuns.SurrenderTakesTime | apps/web/src/lib/offline-queue.ts:491-515 | a job given up for transient failures was given up at least 930,000 ms after its first counted failure, unless a manual flush counted one |
| QueuePass.DrainAgrees | apps/web/src/lib/offline-queue.ts:282-296 | a whole pass keeps memory inside the store, and covering it but for the rows whose delete failed in the pass |
| QueuePass.DrainLeavesOthers | apps/web/src/lib/offline-queue.ts:471-472 | a pass leaves other owners' jobs and jobs outside its list as they were |
| QueuePass.OfflineKeepsTheRest | apps/web/src/lib/offline-queue.ts:495-497 | when a send is answered offline or 401, that job and every later one stay as they were |
| QueuePass.FinishedSettles | apps/web/src/lib/offline-queue.ts:471-517 | what a finished pass has done to each job it looked at |
| QueuePass.FinishedPassMeans | apps/web/src/lib/offline-queue.ts:466-522 | the same spelled out in owner, age, mark, depot, timer and answer: delivered or lapsed jobs are gone when their delete goes through, jobs for a left depot, refused or exhausted ones are marked, transient failures put off by their backoff, all else untouched |
| QueuePass.PassComesToItsEnd | apps/web/src/lib/offline-queue.ts:471-519 | a pass with no offline or 401 answer and no failing write looks at every job |
| QueuePass.DrainIsRun | apps/web/src/lib/offline-queue.ts:466-522 | a pass is a run of the machine by one tab that ends with the flush over and the lock free |
| OfflineQueueClass.OfflineQueue.Hydrate | apps/web/src/lib/offline-queue.ts:239-254 | a call that runs alone reads the store once; after a successful read the cache is the whole store, after a failed one it is empty and the next call reads again |
| OfflineQueueClass.OfflineQueue.ReadLands | apps/web/src/lib/offline-queue.ts:241-253 | what the end of a read does, whatever call ended before it: a failing read empties the cache and leaves a hydrated page hydrated |
| QueueMemory.MemoryIsStored | apps/web/src/lib/offline-queue.ts:239-296 | in every run of a lone page, with or without locks and with its calls interleaving, each cached job is what the store holds |
| QueueMemory.MemoryEqualsStore | apps/web/src/lib/offline-queue.ts:239-296 | in every such run that hides no row the cache equals the store once a read succeeded, and what is shown is exactly the current owner's part |
| QueueMemory.StepCompleteIff | apps/web/src/lib/offline-queue.ts:239-296 | a step ends that agreement exactly when it is a failing delete of a stored row, or a failing read on a hydrated page with rows stored |
| QueueMemory.AgreementEndsAtFirstHiding | apps/web/src/lib/offline-queue.ts:239-296 | over runs: after steps that hid nothing the agreement holds exactly until a step hides a row |
| QueueMemory.OverlappingReadsHideTheQueue | apps/web/src/lib/offline-queue.ts:240-252 | the run in which a second, failing read leaves a hydrated page with nothing to show and a job on disk |
| OfflineQueueClass.OfflineQueue.Put | apps/web/src/lib/offline-queue.ts:282-286 | store and cache change together, or neither when the write fails |
| OfflineQueueClass.OfflineQueue.Discard | apps/web/src/lib/offline-queue.ts:288-296 | the job leaves the page's view even when the row cannot be deleted |
| OfflineQueueClass.OfflineQueue.Pending | apps/web/src/lib/offline-queue.ts:273-275 | exactly the cached jobs of the current owner, and all of that owner's stored jobs once hydrated with no delete failed |
| OfflineQueueClass.OfflineQueue.RunOrQueue | apps/web/src/lib/offline-queue.ts:425-440 | sent exactly on success, queued exactly on a retryable failure that could be stored, and otherwise the store is untouched |
| OfflineQueueClass.OfflineQueue.FlushOne | apps/web/src/lib/offline-queue.ts:472-517 | the loop body does to store and cache what one step of the pass function does |
| OfflineQueueClass.OfflineQueue.RunPass | apps/web/src/lib/offline-queue.ts:471-519 | the loop equals the pass function and strands only rows whose delete failed |
| OfflineQueueClass.OfflineQueue.LoadForFlush | apps/web/src/lib/offline-queue.ts:455-469 | under the lock the page forgets its copy and reads again before it reads for the pass |
| OfflineQueueClass.OfflineQueue.Flush | apps/web/src/lib/offline-queue.ts:466-522 | a flush with its lock, two reads and loop equals the pass function on what was read, keeps memory in agreement, and strands only rows whose delete failed |
| Csv.DetectDelimiter | apps/web/src/lib/csv.ts:16-33 | the candidate with most votes outside quotes on the first line, ties to the comma, then the semicolon |
| Csv.ParseCsv | apps/web/src/lib/csv.ts:40-90 | the parser's loop equals the scanner the laws below are about |
| Csv.PrintThenParse | apps/web/src/lib/csv.ts:16-130 | printing and parsing with the detected separator gives back every row that shows something, cell by cell, as neutralised text; commas, quotes, CR and LF included |
| Csv.PrintThenParseWithComma | apps/web/src/lib/csv.ts:40-130 | the same with the comma given, for any header cells |
| Csv.PrintedDelimiter | apps/web/src/lib/csv.ts:16-33 | a printed document without `;` or tab in its header cells votes for the comma |
| Csv.SemicolonHeaderSplits | apps/web/src/lib/csv.ts:28-31 | one header that fails: the cell `a;b` comes back as two |
| CsvVote.RoundTripIffCommaWins | apps/web/src/lib/csv.ts:16-130 | a table whose header shows something survives print and parse exactly when neither semicolons nor tabs outnumber the commas outside quotes on the printed header's first line |
| CsvVote.DelimiterIsHeaders | apps/web/src/lib/csv.ts:16-33 | the vote of a printed table is that of its header line alone |
| Csv.ScansField | apps/web/src/lib/csv.ts:120-125 | a printed field is scanned back to its text in any surroundings |
| Csv.ParsingIsCompositional | apps/web/src/lib/csv.ts:40-90 | parsing two texts joined by a line feed is parsing each, whenever the first ends outside quotes; it may end in CR, LF or a closing quote |
| Csv.RecordsOfPrinted | apps/web/src/lib/csv.ts:96-103 | a printed table is read back as one record per row that shows something, each cell trimmed under its trimmed header |
| CsvLaws.ShownIsNeutral | apps/web/src/lib/csv.ts:105-125 | no printed cell starts with a formula character, tab or CR; an apostrophe is put before exactly those that would |
| CsvLaws.ReadBackIsNeutral | apps/web/src/lib/csv.ts:105-130 | nor does any cell read back from a printed table |
| CsvLaws.QuotedIff | apps/web/src/lib/csv.ts:124-124 | a cell is quoted exactly when it holds a comma, a quote, CR or LF |
| CsvLaws.DoubledMeans | apps/web/src/lib/csv.ts:124-124 | every quote is written twice and nothing else changes |
| CsvLaws.RowsAreJoinedByCommas | apps/web/src/lib/csv.ts:128-130 | the print of two runs of cells is their prints with a comma between |
| CsvLaws.RowsAreJoinedByLineEnds | apps/web/src/lib/csv.ts:127-130 | the print of two runs of rows is their prints with CR and LF between |
| CsvLaws.BomIsDropped | apps/web/src/lib/csv.ts:17-45 | one leading byte order mark is ignored by parser and vote |
| CsvLaws.LoneCrEndsRow | apps/web/src/lib/csv.ts:77-79 | parsing two texts joined by a lone CR is parsing each |
| CsvLaws.TypedLineReads | apps/web/src/lib/csv.ts:73-84 | an unquoted line reads as its fields, with later quotes and other separators literal |
| CsvLaws.KeepsWhatShows | apps/web/src/lib/csv.ts:89-89 | a row is kept exactly when some cell is not empty after trimming |
| CsvLaws.FirstLineIs | apps/web/src/lib/csv.ts:17-17 | the voting line ends before the first LF, without the CR of a CRLF |
| CsvLaws.VotesGrow | apps/web/src/lib/csv.ts:23-27 | a separator votes exactly when an even number of quotes stands before it |
| SharedReads.KeysAreInjective | apps/web/src/lib/api.ts:409-409 | different path or auth, different key |
| SharedReads.SharedOnce | apps/web/src/lib/api.ts:411-434 | over every interleaving at most one shared GET per key is outstanding |
| SharedReads.ReadsAreSound | apps/web/src/lib/api.ts:411-434 | a hit is the value of a successful GET of that key that settled less than the reader's TTL ago with no invalidation since; a join is the one outstanding GET of that key |
| SharedReads.FailureIsNotKept | apps/web/src/lib/api.ts:422-430 | a failed GET leaves the cache as it was and the next read asks again |
| SharedReads.MutationLeaksIff | apps/web/src/lib/api.ts:565-585 | for a mutation that clears, is sent and takes effect later, with anything in between: a cached read after the effect can return a value requested before it exactly when at the effect the key is cached again or a kept GET of it is in flight |
| SharedReads.OldValuesLeakIffInFlight | apps/web/src/lib/api.ts:436-439 | the case with nothing between the clear and the effect: only a kept GET in flight at the clear leaks |
| SharedReads.UploadLeaksIff | apps/web/src/lib/api.ts:466-496 | for an upload, which clears after its answer, exactly a kept GET from before the effect that is still in flight at the clear leaks |
| SharedReads.ReadDuringMutationLeaks | apps/web/src/lib/api.ts:565-594 | the run with nothing in flight at the clear: a cached GET made while the mutation is out keeps the old value |
| SharedReads.ServesOldIffUnfenced | apps/web/src/lib/api.ts:406-439 | from any reachable state a value requested only before a given request can be read from the cache exactly when the key is not fenced |
| SharedReads.ReadAfterClear | apps/web/src/lib/api.ts:395-434 | a read right after the clear is served by an older request exactly when one of its key is in flight, and else goes to the server |
| SharedReads.FenceHolds | apps/web/src/lib/api.ts:406-439 | once nothing old is cached or still to be kept for a key, nothing old ever is again |
| SharedReads.ReadCache.SharedGet | apps/web/src/lib/api.ts:411-434 | the maps change exactly as the state machine's read does |
| SharedReads.ReadCache.Answer | apps/web/src/lib/api.ts:423-427 | a success is kept only if its starter gave a TTL |
| SharedReads.ReadCache.Finally | apps/web/src/lib/api.ts:428-430 | the settled request leaves the in-flight map |
| SharedReads.ReadCache.InvalidateAll | apps/web/src/lib/api.ts:437-439 | every cached value is dropped, in-flight requests are not |
| SessionRefresh.SingleFlight | apps/web/src/lib/api.ts:155-209 | over every run at most one refresh request is unanswered, a refresh makes at most two, and callers told in one round are told the same |
| SessionRefresh.CallersAreTakenUp | apps/web/src/lib/api.ts:158-170 | a new caller with a credential starts the refresh with one request when none is out, and else waits for it with none sent; one without a credential changes nothing |
| SessionRefresh.AnswersAreKept | apps/web/src/lib/api.ts:173-203 | a granted session is stored, a first 409 is asked again, a 401 or 403 clears session and tokens, and any other failure leaves both |
| SessionRefresh.AnswersReachEveryWaiter | apps/web/src/lib/api.ts:169-208 | an answer that ends the refresh reaches every caller that waited; a first 409 keeps them waiting for the second try |
| SessionRefresh.WhatAStepClears | apps/web/src/lib/api.ts:177-203 | a step clears the session exactly on a refusal or an empty success, and the tokens exactly on a refusal |
| SessionRefresh.OnlyANoSignsOut | apps/web/src/lib/api.ts:181-203 | over every run a lost session was taken by such a step: never by 408, 0, 5xx or a second 409 |
| SessionRefresh.OnlyARefusalDropsTokens | apps/web/src/lib/api.ts:197-201 | over every run tokens are dropped by a 401 or 403 alone |
| SessionRefresh.RefreshGate.RefreshSession | apps/web/src/lib/api.ts:158-209 | a caller starts the refresh, joins the one under way, or is turned away without a credential |
| SessionRefresh.RefreshGate.OnAnswer | apps/web/src/lib/api.ts:170-206 | each answer changes session, tokens and waiters as the machine does |
| RequestBudget.RetryAfterMs | apps/web/src/lib/api.ts:233-240 | the wait lies in (0, 3000] ms: what the header asks for, capped, and 500 ms when it asks for no positive wait |
| RequestBudget.RawCosts | apps/web/src/lib/api.ts:260-317 | one raw request costs at most two sends and one capped wait |
| RequestBudget.RawIsItsLastReply | apps/web/src/lib/api.ts:260-317 | a raw request asks again exactly after a 429 with Retry-After, waits what it says, and ends as its last reply: data for 200 to 299, the status otherwise |
| RequestBudget.RefreshIsItsLastAnswer | apps/web/src/lib/api.ts:164-176 | a refresh asks a second time exactly after a first 409 |
| RequestBudget.OnlyThePathCounts | apps/web/src/lib/api.ts:242-258 | an empty segment counts before the question mark only |
| RequestBudget.RequestIsBounded | apps/web/src/lib/api.ts:371-393 | one request makes at most 8 sends and waits at most 12,000 ms, whatever the server answers |
| RequestBudget.BoundIsReached | apps/web/src/lib/api.ts:371-393 | some server makes it cost exactly that |
| RequestBudget.CheapRequests | apps/web/src/lib/api.ts:255-263 | a path with an empty segment, or a locked session, costs no send; a call without sign-in costs at most two |
| RequestBudget.OutcomeIsItsOwn | apps/web/src/lib/api.ts:384-392 | a refresh follows only a 401 of a signed-in call; after one that gives a session the caller gets the answer of its second try, after one that does not its own 401 |
| DeepLinkProofs.OneParent | apps/web/src/lib/deep-link.ts:39-54 | no path lies below two dynamic parents |
| DeepLinkProofs.ParentIs | apps/web/src/lib/deep-link.ts:146-146 | the parent found is the one the path lies below, whatever the order of the list |
| DeepLinkProofs.RewritersAgreeIff | apps/web/src/lib/deep-link.ts:133-199 | for every relative link application and service worker agree exactly when the link has no trailing slash or empty query that only one of them drops |
| DeepLinkLaws.NothingToOpenIff | apps/web/src/lib/deep-link.ts:168-185 | a link opens nothing exactly when it is white space, starts with two slashes, or is neither a path nor an absolute URL |
| DeepLinkLaws.AnswersStayHere | apps/web/src/lib/deep-link.ts:120-157 | every answer starts with one slash, when the paths of absolute URLs do |
| DeepLinkLaws.UnservedOpensHome | apps/web/src/lib/deep-link.ts:142-144 | a relative link to a page the build does not serve opens the home page |
| DeepLinkLaws.PrunesFolderOrPage | apps/web/src/lib/deep-link.ts:103-112 | a starred entry drops its folder and what lies in it, any other entry its own page alone |
| DeepLinkLaws.ServesListedSegments | apps/web/src/lib/deep-link.ts:113-118 | a build with a segment list serves home and the listed segments, one without serves all |
| DeepLinkLaws.EverySegmentIsAnIdBut | apps/web/src/lib/deep-link.ts:56-62 | below a dynamic parent every segment is an id but detail, new, import and settings |
| DeepLinkProofs.SlashOfLegacy | apps/web/src/lib/deep-link.ts:193-199 | dropping the trailing slash of an old link changes its route exactly when something follows the id |
| ServiceWorker.RewriteLegacyPath | apps/web/public/sw.js:157-178 | the worker's loop computes the rewrite that the agreement is about |
| DeepLinkStable.ResolvingIsIdempotent | apps/web/src/lib/deep-link.ts:133-157 | resolving a resolved link changes nothing, for any segments and any prune list whose check may come after the rewrite |
| PruneOrder.OrdersAgreeIffSafe | apps/web/src/lib/deep-link.ts:142-157 | checking before or after the rewrite resolves every link alike exactly for the lists that below every parent drop everything or name neither an id nor the detail page |
| PruneOrder.AlikeIffSafe | apps/web/src/lib/deep-link.ts:103-118 | the same for the prune check alone, on all old paths |
| PruneOrder.DroppedDetailFolder | apps/web/src/lib/deep-link.ts:142-144 | a build that drops a detail folder serves every record's old path and not its route |
| DeepLinkStable.QuerySurvives | apps/web/src/lib/deep-link.ts:149-156 | a served link resolves to itself, or to its route with its own decoded and encoded id followed by its query |
| DeepLinkStable.RouteIsNotLegacy | apps/web/src/lib/deep-link.ts:149-151 | a rewritten route is never rewritten again |
| MapLayout.LayoutDepots | apps/web/src/lib/depot-map-layout.ts:49-100 | the bubbles partition the depots; each is led by its first member, sits at the mean of its members' places and lies in the padded card; none touch when no turn moves a centre near another group |
| MapLayout.GroupDepots | apps/web/src/lib/depot-map-layout.ts:80-91 | the grouping loop equals the fold the partition is about |
| MapLayout.GroupsPartition | apps/web/src/lib/depot-map-layout.ts:80-91 | after every turn the groups hold each depot exactly once, none is empty, each sits at the mean of its members |
| MapLayout.DotsFit | apps/web/src/lib/depot-map-layout.ts:67-78 | every dot stays at least PAD from all four edges |
| MapLayout.GroupsFit | apps/web/src/lib/depot-map-layout.ts:88-90 | so does every group |
| MapLayout.DistancesScale | apps/web/src/lib/depot-map-layout.ts:56-78 | squared distances on the card are the squared scale times those on the ground |
| MapLaws.NorthIsUp | apps/web/src/lib/depot-map-layout.ts:56-78 | on every fitted map the more northern depot is drawn higher, and the more eastern further right where the cosine of the mean latitude is positive |
| MapLaws.PlacesDiffer | apps/web/src/lib/depot-map-layout.ts:56-78 | places differ by the scale times the difference in shrunk longitude and in latitude |
| MapLaws.ScaleIsLargest | apps/web/src/lib/depot-map-layout.ts:40-70 | no larger scale keeps both extents, taken as at least 0.01 degrees, inside the margins |
| MapLaws.FittedToExtents | apps/web/src/lib/depot-map-layout.ts:53-71 | the frame is that of the box around all depots, longitude shrunk by the cosine of their mean latitude |
| MapLaws.ExtremesAreCentred | apps/web/src/lib/depot-map-layout.ts:71-78 | the extremes lie as far from one edge of the card as from the other |
| MapLaws.KeysAreJoined | apps/web/src/lib/depot-map-layout.ts:94-94 | a bubble's key is its members' ids with bars between |
| MapLayout.TurnStaysSpreadIff | apps/web/src/lib/depot-map-layout.ts:82-91 | a turn that starts with groups apart ends so exactly when the depot joins none or moves no centre near another group |
| MapLayout.SpreadIffTurnsClear | apps/web/src/lib/depot-map-layout.ts:80-91 | the groups are apart at every turn exactly when every turn is of that kind |
| MapLayout.OneBubbleEachIffPlacedApart | apps/web/src/lib/depot-map-layout.ts:74-91 | every depot has its own bubble exactly when no two are placed near each other |
| MapLayout.BubblesCanTouch | apps/web/src/lib/depot-map-layout.ts:49-100 | four depots on the equator whose fitted layout ends with two bubbles closer than the merge distance |
| MapLayout.NearTogetherIff | apps/web/src/lib/depot-map-layout.ts:46-91 | in the finished grouping depots placed near each other always share a group exactly when at every turn each earlier depot near the new one is in the group it joins |
| MapLayout.NearDepotsCanPart | apps/web/src/lib/depot-map-layout.ts:46-100 | the same four depots: two that are placed near each other end in different bubbles |
| Access.DecidesDepotByDepot | packages/access/src/index.ts:1100-1128 | a question about a non-empty list of depots is the conjunction of the questions about each |
| Access.FewerDepotsAskLess | packages/access/src/index.ts:1100-1128 | order and repetition do not matter, and naming fewer depots never takes access away |
| Access.CanMeans | packages/access/src/index.ts:1012-1128 | about no depot and about one, spelled out: overrides replace the compiled list, who is disabled, inactive or forbidden, and what DENY, the list and GRANT decide |
| Access.LastRowDecides | packages/access/src/index.ts:1027-1128 | the row loaded last decides its triple: DENY closes every question naming its depot, GRANT opens that depot to every eligible role |
| Access.DenyClosesIffNotGrantedLater | packages/access/src/index.ts:1027-1128 | in a loaded list a role that holds the capability is refused at a depot exactly when some row denies the triple and no later row grants it |
| Access.OtherAnswersStay | packages/access/src/index.ts:994-1128 | a row changes no answer about another capability, role or depot |
| Access.HoldsNothing | packages/access/src/index.ts:1100-1115 | disabled roles, inactive custom roles and custom roles for forbidden capabilities hold nothing whatever the rows say; SUPER_ADMIN holds everything |
| Access.KeysAreInjective | packages/access/src/index.ts:993-996 | parts without NUL give equal keys only when they are equal |
| Access.ReloadIsIdentityIff | packages/access/src/index.ts:1027-1036 | loading what was read back gives the same exceptions exactly when every stored key splits into its three parts |
| Access.CleanRowsReload | packages/access/src/index.ts:994-1036 | rows without NUL survive load, read back and load |
| Access.AccessState.LoadOverrides | packages/access/src/index.ts:911-913 | only the overrides change |
| Access.AccessState.LoadCustomRoles | packages/access/src/index.ts:999-1001 | only the active custom roles change |
| Access.AccessState.LoadRoleSettings | packages/access/src/index.ts:1003-1015 | a role is disabled exactly when its last row says so |
| Access.AccessState.LoadDepotOverrides | packages/access/src/index.ts:1027-1029 | of two rows for one triple the last counts |
| Access.AccessState.CurrentDepotOverrides | packages/access/src/index.ts:1031-1036 | one row for every stored key, split at the separator |
| Access.AccessState.EffectiveMatrix | packages/access/src/index.ts:1070-1076 | every compiled capability with the roles that hold it now |
| Payloads.SetThenGet | apps/web/src/components/csv-import.tsx:172-184 | what was written at a path is found there |
| Payloads.SetLeavesOthers | apps/web/src/components/csv-import.tsx:172-184 | writing at a path leaves paths alone that are no prefix of it nor it of them |
| Payloads.UndisturbedIffApart | apps/web/src/components/csv-import.tsx:172-184 | two fields never disturb each other exactly when neither is a prefix of the other |
| Payloads.SetsCommute | apps/web/src/components/csv-import.tsx:172-184 | writes at such fields commute |
| CsvImport.JsonObject.Set | apps/web/src/components/csv-import.tsx:172-184 | the walk that creates and changes objects in place has the effect of the path write on the whole object, siblings included |
| CsvImport.PrepareRow | apps/web/src/components/csv-import.tsx:192-212 | the loop yields the payload object, or the reason, that the row function gives |
| CsvImport.PrepareRows | apps/web/src/components/csv-import.tsx:187-214 | so for every record, and no two rows share a payload object |
| ImportRows.FirstFailureDecides | apps/web/src/components/csv-import.tsx:195-211 | a row is rejected exactly when a required cell is blank or a parser fails, with the reason of the first such column |
| ImportRows.PayloadHoldsCells | apps/web/src/components/csv-import.tsx:195-212 | an accepted row holds at each filled column's path exactly that column's parsed cell |
| ImportRows.BlankColumnsStayAbsent | apps/web/src/components/csv-import.tsx:196-201 | something lies at a column's path exactly when its cell was filled |
| ImportRows.NothingElseIsHeld | apps/web/src/components/csv-import.tsx:192-212 | an accepted row holds no value but those of its filled columns |
| ImportRows.ColumnOrderDoesNotMatter | apps/web/src/components/csv-import.tsx:187-214 | any reordering of the columns gives an accepted row the same payload |
| Money.PrintThenParseIdr | apps/web/src/lib/format.ts:34-46 | a printed whole amount reads back as itself, one with two decimals as itself rounded half up |
| Money.TypedDecimals | apps/web/src/lib/format.ts:34-39 | a typed decimal part rounds the amount instead of joining its digits |
| Money.TypedTenths | apps/web/src/lib/format.ts:34-39 | one typed decimal counts tenths and is rounded |
| Money.TypedThousands | apps/web/src/lib/format.ts:29-39 | typed groups of three with dots or commas are the number, whatever other characters stand around it |
| Money.PrintedAmount | apps/web/src/lib/format.ts:41-46 | what is printed: the digits in dotted groups of three and two decimals exactly when there are any |
| Money.GroupedDigits | apps/web/src/lib/format.ts:41-46 | grouping only adds separators |
| Money.PrintThenReadInt | apps/web/src/components/csv-import.tsx:81-87 | every integer is read back from its plain print and from either grouped print |
| Money.OnlyNumbersAreRead | apps/web/src/components/csv-import.tsx:76-87 | a cell read as a number holds nothing but white space, digits, separators and one leading minus, and its value is that of its digits |
| Money.DecimalsAreRefused | apps/web/src/components/csv-import.tsx:76-86 | a whole-number cell with two decimals is refused instead of being read a hundred times too large |
| Paging.FetchAllPages | apps/web/src/lib/fetch-all-pages.ts:37-86 | with the caller's page size and ceiling or the defaults: exactly the list in max(1, ceil(n/limit)) calls from a consistent server, a refusal after one call when it is too long, and termination within max(1, ceil(max/limit)) calls, 50 by default, against any server |
| Paging.PagesOfList | apps/web/src/lib/fetch-all-pages.ts:70-84 | the first n pages of a served list are its first n times limit items |

## Left out

- QueueRuns.SurrenderTakesTime: the times are the `now` a pass reads when it starts, from which the code counts its backoffs, not the arrival of answers.
- QueueRuns.RefusedIsNeverSent: marks with an empty message are excluded, because the code sends those again (`QueueRuns.MarkIsFinalIffItHasAMessage`).
- QueueMemory.StepCompleteIff: the machine lets any read fail; in the code a read can fail on a hydrated page only when it overlaps another, as in `QueueMemory.OverlappingReadsHideTheQueue`.
- OfflineQueueClass.OfflineQueue.Flush: calls run one after the other on this object; interleaving between tabs and between calls of one tab belongs to the machine.
- Csv.PrintThenParse: a number enters the printer as its decimal text; characters are Dafny characters, not UTF-16 units.
- DeepLinkProofs.RewritersAgreeIff: absolute URLs, which only the application's rewriter reads, are a parameter, as are percent-encoding and decoding.
- RequestBudget.RetryAfterMs: seconds are exact and stay below the size at which a thousand of them overflow to infinity, where the code waits 500 ms.
- MapLayout.LayoutDepots: arithmetic is exact, `Math.cos` is an arbitrary function, distances are compared squared, and a group is a value in a list that is updated in place.
- Money.PrintThenParseIdr: negative and non-finite amounts are left out, amounts are whole hundredths, and `Intl.NumberFormat` is dots every three digits with a comma before two decimals.
- CsvImport.JsonObject.Set: parsers give plain values, so no caller's object becomes part of a payload; the walk is a recursion where the source loops; inherited properties of JavaScript objects are not modelled.
- One IndexedDB transaction with its continuation is one atomic step; the order in which rows of equal capture time are listed is arbitrary; ids are fresh numbers; stored times are always valid dates.
- `run`, its endpoints and its uploads are one step with an arbitrary answer; the refusal of a path with an empty segment has status 0 and is treated like no network, as the code does.
- Listeners, `emit`, translation, request headers and bodies, the deadline of a fetch, token storage and the biometric prompt (a session is locked or not).
- File uploads, blob downloads, message and code extraction from error bodies in `api.ts`.
- The compiled capability table, `capabilitiesFor`, `canGrantRole` and the depot scope of roles in `packages/access`; the table is an arbitrary map.
- The other cell parsers of the import (enumerations, phones, dates, periods, decimals): a column carries any function.
- Detection of pages that come back short from an inconsistent server: `fetchAllPages` does not promise it.
- Notification display and quiet hours in `sw.js`.
- Screens, navigation, services behind the gateway and build scripts.
