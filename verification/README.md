# RoutePulse: a verified model of its dispatch logic

RoutePulse is a delivery dispatch server with a browser client for drivers. This project models
the parts of it whose correctness depends on interleavings, whole histories or search, and proves
what they promise. `dafny verify dfyconfig.toml` checks everything.

## What is modelled

**Idempotent requests and the driver's queue** (`Idempotency`, `Middleware`, `MiddlewareTheorems`,
`DriverQueue`, `ExactlyOnce`). The table of remembered answers and the promise-chain lock are a
class; the middleware is a state machine whose events are the stretches of code between two
awaits, with any number of requests on any number of keys in flight, connections that close at any
moment and time that passes between any two events. An event that is not possible in a state
leaves it alone, so every event list is a run. On top of it, `ExactlyOnce` adds the phone: its
stored queue, overlapping flushes, lost requests, lost replies and storage writes that fail
silently.

**The route planner** (`Geography`, `RouteOptimizer`, `RouteSimulation`, `Eta`). Greedy
construction, 2-opt with its threshold and cap of 50 passes, the timeline simulation and the live
estimate. Distance is any non-negative function, so no triangle inequality and no symmetry is
used anywhere. The start time is a parameter.

**CSV** (`Csv`, `CsvReturns`, `BulkOrders`). The character-level reader, the writer of the exports,
exactly which written files read back, and the bulk order import from text to committed or
rolled-back batch with other requests at every await of the commit.

**Orders, drivers and their events** (`OrderTypes`, `Orders`, `OrderStore`, `Geofence`,
`GeofenceAnalytics`, `LiveLocation`, `DriverClocks`). `Orders` is the machine on values; `OrderStore` has the
mutable records, snapshots and `restore`, and every handler there is proved to be one step of the
machine, for a write that succeeds and one that fails. `DriverClocks` joins the machine with the
positions of the drivers, over HTTP and over the socket, whose times stamp the geofence events.

**Territories and settlements** (`Territories`, `Triangles`, `Settlements`). Even-odd point in
polygon over exact reals and what it means geometrically, and the settlement ledger.

## Where the code falls short of its promise

Each point names the theorem that says exactly when the promise holds, and where the failing input
is more than one request the lemma that exhibits it.

- *A handler can run twice for one key.* When the connection of a request closes while its handler
  is still working, or the handler answers without `res.json` (as the 204 deletes do), the lock is
  freed with nothing remembered. `LostConnectionRunsTwice`: the handler can then run again at once
  if and only if no live answer for the key is in the table. Without such an event, and within 24
  hours of the answer, it cannot (`AtMostOnce`).
- *A live attempt can overtake the queue.* The phone tries an action live without looking at its
  queue, and queues it under the same id when the reply is lost or it times out. Every run that a
  queue delivery starts is in order, whatever live attempts use its key (`EffectsInQueueOrder`,
  `QueueStartsInOrder`). For any other start there are two cases. If the action is in the queue
  already (the phone timed out before the server came to the handler), the start is in order if and
  only if nothing stored ahead of the action is unsettled: `StartInOrderExactly`, with the failing
  run `LateStartOvertakes`. If it is queued only afterwards, the start was in order if and only if
  nothing stored at the start was unsettled and whatever was queued between the attempt and the
  action was settled even then: `LiveRunInOrderExactly`, with the failing run
  `LiveAttemptOvertakes`.
- *A remembered failure blocks the queue.* `RememberedFailureBlocks`: while a non-2xx answer for an
  action is remembered, no flush started meanwhile gets past it. This is how the replay works, and
  why only safety is claimed for the queue.
- *The CSV writer does not quote a carriage return, and the reader ends a line at one.*
  `FileSurvivesExactly`, for all files: what is read is what was written, sanitised, trimmed and
  without blank rows, if and only if in every row that is not blank each unquoted carriage return
  lies in the leading space of the first cell or the trailing space of the last.
  `ReturnBreaksRow` is a row that does not come back.
- *Trimming can bring a formula back.* The writer puts an apostrophe before a cell that starts with one
  of `= + - @`, but not where space comes first, and the reader trims.
  `FormulaComesBackExactly`: what is read back starts with one of the four if and only if the cell
  did not, but does after trimming.
- *The greedy planner's clock ignores waiting.* `TwoClocksAgree`: it equals the simulated clock
  less all waiting so far, so the two agree if and only if nobody has waited.
  `ForeseenLatenessHappens`, over the whole tour: the error is on one side only, a stop scored as
  late is reported as late.
- *The live "arrival" estimate is a departure.* `EstimateMatchesPlan`: it is the planned departure
  less planned waiting and less what a priority takes off the six minutes of service, so it is the
  planned departure if and only if the order is a standard one and no waiting is planned.
- *An order can be on its way with nobody.* A status change can mark a pending order as assigned
  (`OfficeCanAssignNobody`). `StaffedExactly`, over every run: at all times every order on its way
  has a driver if and only if no status change to assigned ever takes effect;
  `BecomesDriverlessExactly` says it for one step and one order. Such an order never gets a driver
  and is never delivered (`DriverlessOrderIsNeverDelivered`).
- *Some failed writes are not undone.* `FailureUndoneExactly`, over orders (with the time of their
  last update), drivers, live positions and position history: a failed write of an HTTP request
  leaves all of them as they were if and only if the request is none of these: a current HTTP position that is new, a
  position that causes a geofence event at an order, an exception report, and an acceptance (unless
  repeated within the same millisecond). `FailedWritesStay` is a run with three of them. After a
  position whose first write failed the driver has moved, but there is no history entry and no
  geofence event (`FailedFixLogsNothing`). A socket position does not wait for its writes at all.
- *A provider event returns a row that may differ from the stored one.*
  `ReturnedRowIsStoredExactly`, for the ledger after sort and cut: they are the same if and only if
  the notes do not conflict and, for a new reference, the ledger is not full of rows at least as
  new. `ConflictingNoteIsNotStored` and `FullLedgerLosesEvent` are inputs for the two ways to fail.
- *A departure stamped before its arrival makes the analytics count the visit as open.*
  `FiguresAgreeExactly`: the figures agree if and only if there is no such departure.
  `BackdatedNeedsHandover`, over every run and whatever the phones' clocks say: there is one only
  on an order that its driver rejected while at the place, or when a socket position set its
  driver's clock back or read the server's clock at two different times. `HandoverCanBackdate` and
  `SocketCanBackdate` are such runs.

## Model

| member | source | states |
|---|---|---|
| Idempotency.ChainIsQueue | apps/api/src/services/idempotency.ts:64-85 | the await on the previous chain promise can resume exactly when every earlier ticket of the key was released |
| Idempotency.JoinKeepsLockInv | apps/api/src/services/idempotency.ts:69-76 | joining keeps the chain sound: each ticket hangs on the nearest earlier one of its key, and the map holds the last |
| Idempotency.ReleaseKeepsLockInv | apps/api/src/services/idempotency.ts:78-84 | releasing keeps the chain sound, forgets a key only when nobody holds it or waits for it, and does nothing the second time |
| Idempotency.IdempotencyTable.GetIdempotencyResult | apps/api/src/services/idempotency.ts:14-41 | finds a live entry and deletes an expired one, touching no other key and no lock |
| Idempotency.IdempotencyTable.RememberIdempotencyResult | apps/api/src/services/idempotency.ts:43-62 | the answer is found at every instant of the next 24 hours and at none after |
| Idempotency.IdempotencyTable.AcquireIdempotencyLock | apps/api/src/services/idempotency.ts:64-77 | takes a new ticket at the end of the key's chain and keeps the chain sound |
| Idempotency.IdempotencyTable.ReleaseLock | apps/api/src/services/idempotency.ts:78-84 | keeps the chain sound, changes nothing when called again, and takes no grant away from anyone |
| Middleware.MutualExclusion | apps/api/src/app.ts:638-658 | two requests on one key that both hold the lock are the same request |
| Middleware.NothingFoundMeansSpent | apps/api/src/app.ts:639-643 | a lock holder whose second lookup finds nothing knows that every earlier run of the key was cut off or has expired |
| Middleware.StepKeepsInv | apps/api/src/app.ts:626-659 | every event, in any state, keeps the invariant of locks, requests, runs and remembered answers |
| Middleware.RunKeepsInv | apps/api/src/app.ts:626-659 | so does every interleaving |
| MiddlewareTheorems.AtMostOnce | apps/api/src/app.ts:626-659 | over every interleaving, a second run on a key starts only if the first lost its lock unanswered or its answer is over 24 hours old |
| MiddlewareTheorems.RetriesGetTheOneAnswer | apps/api/src/app.ts:636-643 | while no run of a key is spent there is one run, and every answer sent for the key is its answer |
| MiddlewareTheorems.OneHolder | apps/api/src/services/idempotency.ts:64-85 | in every reachable state at most one request per key is between grant and release |
| MiddlewareTheorems.GrantedInOrderOfArrival | apps/api/src/services/idempotency.ts:70-77 | when a request has been granted the lock, all earlier ones of the key have freed it |
| MiddlewareTheorems.NoWaiterIsLost | apps/api/src/services/idempotency.ts:75-84 | from every reachable state every waiting request can still be granted the lock, if the handlers ahead answer |
| MiddlewareTheorems.WaiterIsServed | apps/api/src/services/idempotency.ts:75-84 | when the holders ahead answer one after the other, the waiter gets its lock |
| MiddlewareTheorems.GrantEnabledExactly | apps/api/src/services/idempotency.ts:75-84 | over every run a waiting request can be granted the lock at once if and only if every request ahead of it has freed its own |
| MiddlewareTheorems.UnprotectedKeyRuns | apps/api/src/app.ts:636-659 | a key with no holder and no live answer lets a handler in |
| MiddlewareTheorems.ProtectedKeyStaysQuiet | apps/api/src/app.ts:636-643 | while a live answer is remembered and nobody is past the second lookup empty-handed, no handler starts on the key, whatever happens |
| MiddlewareTheorems.LostConnectionRunsTwice | apps/api/src/app.ts:656-657 | after the connection of a running request is lost the handler can run again at once if and only if no live answer is remembered |
| MiddlewareTheorems.RunLogIsTrue | apps/api/src/app.ts:639-658 | a run is logged exactly when a handler starts, answered only by its own request's `res.json`, and dropped only when its own response ended without one |
| MiddlewareTheorems.AnswerIsRemembered | apps/api/src/app.ts:646-651 | the answer of a handler, status and body, is found under its key for 86,400,000 ms and not after |
| MiddlewareTheorems.ReplayLastsADay | apps/api/src/services/idempotency.ts:8-50 | from the moment a handler answers no handler of the key starts for 24 hours, whatever comes in; then one can |
| DriverQueue.WithoutKeepsOthers | apps/web/src/lib/driverActionQueue.ts:69 | removing the sent entries removes exactly the entries with their ids |
| DriverQueue.FailedKeepsIds | apps/web/src/lib/driverActionQueue.ts:60-64 | counting a failed attempt changes no id and no position |
| DriverQueue.WithoutIsAfterFlush | apps/web/src/lib/driverActionQueue.ts:60-69 | removal by id and counting by id come to cutting the accepted prefix and counting one attempt on the entry after it, each if its write arrives |
| DriverQueue.AfterFlushIs | apps/web/src/lib/driverActionQueue.ts:58-69 | in plain terms: the accepted entries are gone, the refused one leads with one attempt more, the others are as they were |
| DriverQueue.DriverActionQueue.Enqueue | apps/web/src/lib/driverActionQueue.ts:36-50 | appends with no attempts and keeps the newest 50; a failed write leaves the queue, and the answer counts the action either way |
| DriverQueue.DriverActionQueue.RecordFailure | apps/web/src/lib/driverActionQueue.ts:58-67 | counts one attempt on the stored entry, if it is still there; no entry moves or disappears |
| DriverQueue.DriverActionQueue.RemoveSent | apps/web/src/lib/driverActionQueue.ts:69-70 | entries not sent by this flush stay stored |
| DriverQueue.DriverActionQueue.Flush | apps/web/src/lib/driverActionQueue.ts:51-71 | undisturbed, sends in order up to the first refusal and leaves exactly the rest, one attempt counted on the refused entry, for either write failing or not |
| ExactlyOnce.SystemStepKeepsInv | apps/web/src/lib/driverActionQueue.ts:36-71 | every event of phone or server keeps queue order, snapshots and server runs in agreement |
| ExactlyOnce.SystemRunKeepsInv | apps/web/src/lib/driverActionQueue.ts:36-71 | so does every overlap of flushes, enqueues, lost requests and lost replies |
| ExactlyOnce.SucceedKeepsInv | apps/web/src/lib/driverActionQueue.ts:56-69 | a flush that ends in success keeps the invariant and every stored action outside its snapshot |
| ExactlyOnce.FailKeepsInv | apps/web/src/lib/driverActionQueue.ts:58-69 | a flush that breaks off keeps the invariant and every stored action it did not get answered |
| ExactlyOnce.LeavesOnlyWhenDone | apps/web/src/lib/driverActionQueue.ts:51-71 | an action that is gone and was not pushed out by the cap has a run answered with a status from 200 to 299, its only run while none is spent |
| ExactlyOnce.RefusedAnswerMovesNothing | apps/web/src/lib/api.ts:126-130 | an answer with a status below 200 or from 300 up never moves a flush on |
| ExactlyOnce.AcceptedAnswerMovesOn | apps/web/src/lib/driverActionQueue.ts:54-57 | an answer with a status from 200 to 299 moves it on by one entry |
| ExactlyOnce.ConflictKeepsAction | apps/web/src/lib/driverActionQueue.ts:55-67 | an action answered with 409 stays in the queue |
| ExactlyOnce.FailureCountsOneAttempt | apps/web/src/lib/driverActionQueue.ts:58-66 | an attempt that fails leaves its entry stored with one attempt more |
| ExactlyOnce.CapPushesOutOldest | apps/web/src/lib/driverActionQueue.ts:23-49 | in every reachable state an action goes to the end of at most 50, the oldest goes when it is the 51st, and nothing else enters or is pushed out |
| ExactlyOnce.FlushSendsItsEntry | apps/web/src/pages/DriverWorkspace.tsx:85-102 | a flush sends its current entry with its id as the key, and only such requests count as queued |
| ExactlyOnce.FlushStartsFromStored | apps/web/src/lib/driverActionQueue.ts:51-54 | a flush starts at the first entry of what is stored |
| ExactlyOnce.EffectsInQueueOrder | apps/web/src/lib/driverActionQueue.ts:54-68 | a run that a queue delivery started, on any key, started after everything queued before it had been answered with a status from 200 to 299 or was pushed out by the cap |
| ExactlyOnce.QueueStartsInOrder | apps/web/src/lib/driverActionQueue.ts:54-68 | the same at the very moment of the start, in every reachable state |
| ExactlyOnce.StartInOrderExactly | apps/web/src/pages/DriverWorkspace.tsx:103-129 | a handler of an action that is in the queue, started by any request, starts in queue order if and only if nothing stored ahead of the action is unsettled |
| ExactlyOnce.LiveRunInOrderExactly | apps/web/src/pages/DriverWorkspace.tsx:103-129 | a handler of an action that is queued only afterwards started in queue order if and only if nothing unsettled was stored at its start and what was queued in between was settled by then |
| ExactlyOnce.LiveAttemptOvertakes | apps/web/src/pages/DriverWorkspace.tsx:118-128 | a run in which a live attempt takes effect before an action queued earlier |
| ExactlyOnce.LateStartOvertakes | apps/web/src/lib/api.ts:83-103 | a run in which the phone times out and queues the action before its handler starts, ahead of an action queued earlier |
| ExactlyOnce.AnsweredFlushIsFinal | apps/web/src/lib/driverActionQueue.ts:54-69 | a flush that got a success for every entry, and whose last write arrived, has emptied the queue of its snapshot for good |
| ExactlyOnce.LeftForGood | apps/web/src/lib/driverActionQueue.ts:36-69 | an action that has left the queue never comes back, whatever overlapping flushes write |
| ExactlyOnce.RememberedFailureBlocks | apps/api/src/app.ts:636-652 | while a failure is remembered for an action, no flush started meanwhile succeeds on it |
| ExactlyOnce.EnqueuedDuringFlushSurvives | apps/web/src/lib/driverActionQueue.ts:59-69 | what is enqueued after a flush took its snapshot is still stored when the flush ends |
| Csv.ParseCsv | apps/api/src/services/bulkOrders.ts:64-95 | the index loop computes the reader that the following laws are about |
| Csv.QuotedIsParity | apps/api/src/services/bulkOrders.ts:72-76 | being inside quotes is the parity of the quote characters read |
| Csv.ConsumeSplits | apps/api/src/services/bulkOrders.ts:69-89 | reading can be cut anywhere a quote character does not come next, even between a carriage return and its line feed |
| Csv.LinesCompose | apps/api/src/services/bulkOrders.ts:64-95 | text with an even number of quotes, a line end and more text read as the rows of the one and then the rows of the other |
| Csv.LineEndsDoNotMatter | apps/api/src/services/bulkOrders.ts:80-85 | LF, CR and CRLF between lines give the same rows |
| Csv.CsvRowJoins | apps/api/src/app.ts:220-225 | a written row is its sanitised and quoted cells joined with commas |
| Csv.CellTextIs | apps/api/src/app.ts:220-224 | a cell is written in quotes, its own quotes doubled, exactly if it holds a quote, a comma or a line feed |
| Csv.WrittenCellIsHeld | apps/api/src/app.ts:220-224 | the reader takes a written cell in, before trimming, as the cell itself, after an apostrophe if it starts with one of = + - @; so what it holds never does |
| Csv.CleanRowsAreReadBack | apps/api/src/services/bulkOrders.ts:77-88 | the rows of the round trip are, cell by cell, the trimmed cells, after an apostrophe where they were formulas, without the rows that come out blank |
| Csv.FormulaComesBackExactly | apps/api/src/app.ts:220-224 | what is read back starts with one of = + - @ if and only if the cell did not, but does after trimming |
| Csv.TrimIs | apps/api/src/services/bulkOrders.ts:78-83 | trimming takes away space at both ends and nothing else |
| Csv.RoundTrip | apps/api/src/app.ts:220-225 | reading the joined lines of the writer gives the rows back, cells defused with an apostrophe where they are formulas and trimmed, and blank rows dropped, for all rows without an unquoted carriage return |
| Csv.FileReadsRowByRow | apps/api/src/services/bulkOrders.ts:64-95 | a written file reads as its rows one by one, carriage returns or not |
| CsvReturns.RowsRead | apps/api/src/services/bulkOrders.ts:80-85 | a written row reads as nothing exactly when it is blank, and never as a wider row |
| CsvReturns.RowSurvivesExactly | apps/api/src/app.ts:220-225 | a row that is not blank reads back if and only if each unquoted carriage return is in the leading space of its first or the trailing space of its last cell |
| CsvReturns.FileSurvivesExactly | apps/api/src/app.ts:220-225 | the round trip for all files: it holds if and only if every row that is not blank is such a row |
| CsvReturns.CellSurvivesExactly | apps/api/src/app.ts:220-224 | between two cells without unquoted carriage returns a cell reads back if and only if it has none |
| CsvReturns.ReturnBreaksRow | apps/api/src/app.ts:223 | a row with a carriage return between two letters that does not come back |
| BulkOrders.FindMissing | apps/api/src/services/bulkOrders.ts:119 | names the first required field that is missing or blank, if there is one |
| BulkOrders.RequiredAreNeeded | apps/api/src/services/bulkOrders.ts:104-108 | the thirteen needed fields in their order |
| BulkOrders.FindUnmapped | apps/api/src/services/bulkOrders.ts:109-110 | lists exactly the required fields no column maps to, in order |
| BulkOrders.ReadRows | apps/api/src/services/bulkOrders.ts:113-126 | each data row is one complete candidate or one issue naming its first missing field, in file order |
| BulkOrders.FieldsHoldCells | apps/api/src/services/bulkOrders.ts:115-118 | a field is there if and only if some column is mapped to it, and holds the cell of the last such column, or nothing where the row is shorter |
| BulkOrders.AccountedRowsHoldCells | apps/api/src/services/bulkOrders.ts:113-126 | each candidate holds the cells of its row with all thirteen needed fields more than space; each issue names a needed field that is only space or has no column |
| BulkOrders.ParseBulkOrderCsv | apps/api/src/services/bulkOrders.ts:97-127 | refuses a file with the error of the first check it fails, all missing columns included, and accounts for each row of any other |
| BulkOrders.CandidatesAndIssuesAreDisjoint | apps/api/src/services/bulkOrders.ts:113-126 | no row is both a candidate and an issue |
| BulkOrders.AcceptRows | apps/api/src/app.ts:856-891 | the loop with its shared set of codes judges each candidate against the codes accepted before it |
| BulkOrders.JudgeIsFair | apps/api/src/app.ts:856-891 | accepted and issues add up, accepted codes differ from each other and from existing ones, accepted drop-offs are served |
| BulkOrders.JudgeDecidesEach | apps/api/src/app.ts:856-891 | each candidate became the next accepted entry or the next issue, with its own row, by the three checks against the codes accepted before it |
| BulkOrders.AcceptedExactly | apps/api/src/app.ts:874-890 | a candidate is accepted if and only if it is valid, its parcel code is neither known nor taken in this batch, and it is served; otherwise which issue it is |
| BulkOrders.OrderList.RollBack | apps/api/src/app.ts:903-908 | takes out the first occurrence of each order of the batch |
| BulkOrders.FailedCommitLeavesNoTrace | apps/api/src/app.ts:893-909 | a failed commit leaves the list as if the batch had never been, whatever others inserted and removed meanwhile |
| BulkOrders.RollBackLeavesOthersWork | apps/api/src/app.ts:893-909 | the same at any point of the batch, with part of it already inserted |
| BulkOrders.CommitBatch | apps/api/src/app.ts:894-909 | with any requests of others at every await, all orders of the batch are inserted, or the list is as those requests alone would have made it |
| BulkOrders.UndisturbedCommit | apps/api/src/app.ts:894-902 | with no other requests the committed batch stands in front of the list, its last order first |
| BulkOrders.AcceptAndCommit | apps/api/src/app.ts:851-911 | from the rows of a file to the answer and the list: a dry run and any issue change nothing |
| BulkOrders.RunBulkImport | apps/api/src/app.ts:849-912 | the same from the text, with every row of the file accounted for as accepted or an issue |
| RouteOptimizer.LegsAppend | apps/api/src/services/optimizer.ts:25-33 | one more stop adds one leg |
| RouteOptimizer.LengthIs | apps/api/src/services/optimizer.ts:25-33 | the length in plain terms: one leg from each place to the next and the way back if asked for |
| RouteOptimizer.BestIsFirstMinimum | apps/api/src/services/optimizer.ts:182-209 | the chosen stop has the least score, and is the first that has |
| RouteOptimizer.PickBest | apps/api/src/services/optimizer.ts:182-209 | the scan with its running best finds that stop |
| RouteOptimizer.BuildGreedy | apps/api/src/services/optimizer.ts:175-215 | the loop builds the greedy tour that the following laws are about |
| RouteOptimizer.GreedyIsPermutation | apps/api/src/services/optimizer.ts:181-215 | the greedy tour visits the given stops, each as often as given |
| RouteOptimizer.SwappedMultiset | apps/api/src/services/optimizer.ts:226-230 | reversing a stretch keeps the stops |
| RouteOptimizer.SwappedAt | apps/api/src/services/optimizer.ts:226-230 | the stretch from i to j in the opposite order, every other stop where it was |
| RouteOptimizer.TwoOptPass | apps/api/src/services/optimizer.ts:223-239 | a pass only shortens, each move by more than the threshold; one without a move proves that no reversal helps |
| RouteOptimizer.TwoOpt | apps/api/src/services/optimizer.ts:220-240 | the result is a locally optimal permutation, or the cap stopped it after exactly 50 passes and at least 50 moves |
| RouteOptimizer.LocallyOptimalMeans | apps/api/src/services/optimizer.ts:231-236 | turning round any stretch of a locally optimal route shortens it by no more than 0.00001 km |
| RouteOptimizer.FewMoves | apps/api/src/services/optimizer.ts:231-236 | never longer than the greedy tour, and fewer moves than its length over the threshold |
| RouteSimulation.BoundaryIsNextOccurrence | apps/api/src/services/optimizer.ts:53-62 | a shift end given as a time of day is its next occurrence at or after the start |
| RouteSimulation.Simulate | apps/api/src/services/optimizer.ts:83-150 | the timeline, the route's length with any return leg, and the two refusals with their precedence |
| RouteSimulation.TimeIsConserved | apps/api/src/services/optimizer.ts:91-136 | finish is start plus the time to drive the length plus all waiting plus one service per stop |
| RouteSimulation.TimelineIsOrdered | apps/api/src/services/optimizer.ts:97-129 | arrivals and departures never go back, and with windows respected no arrival precedes its window |
| RouteSimulation.VisitIs | apps/api/src/services/optimizer.ts:97-128 | each line of the timeline in numbers: drive, window, lateness (exactly when past the promise), service |
| RouteSimulation.DurationIs | apps/api/src/services/optimizer.ts:135 | the duration is the least whole number of minutes that covers the route |
| RouteSimulation.RefusalsAre | apps/api/src/services/optimizer.ts:137-148 | a route is refused over the limit of minutes, or past the given instant or time of day |
| RouteSimulation.DemandIs | apps/api/src/services/optimizer.ts:172 | each stop adds its kilograms once |
| RouteSimulation.TimedIs | apps/api/src/services/optimizer.ts:217-219 | a route is timed exactly when some stop has a window or a promise |
| RouteSimulation.GreedyTakesBest | apps/api/src/services/optimizer.ts:181-215 | at every step the tour goes to a stop of least score among all still to visit |
| RouteSimulation.ScoreIs | apps/api/src/services/optimizer.ts:198-204 | the score is the kilometres plus four for each foreseen minute late less 42, 18 or 0 |
| RouteSimulation.ForeseenIs | apps/api/src/services/optimizer.ts:186-200 | the lateness in it is the minutes past the promise after the drive and the window |
| RouteSimulation.GreedyChoosesLeast | apps/api/src/services/optimizer.ts:181-215 | at every step of the tour these numbers are least for the chosen stop among all later ones |
| RouteSimulation.UrgentGoesFirst | apps/api/src/services/optimizer.ts:35-39 | of stops equally near that will not be late urgent goes before express before standard |
| RouteSimulation.UrgentAtTwoKilometres | apps/api/src/services/optimizer.ts:182-214 | an urgent stop at 2 km is visited before a standard one at 1 km |
| RouteSimulation.GreedyClockIs | apps/api/src/services/optimizer.ts:212-214 | the greedy clock advances by the drive and the service, in milliseconds |
| RouteSimulation.ClocksDifferByWaiting | apps/api/src/services/optimizer.ts:213 | the greedy clock differs from the simulated clock by the waiting so far, from any starting point |
| RouteSimulation.TwoClocksAgree | apps/api/src/services/optimizer.ts:178-215 | the greedy clock is never later than the simulated one, and equal exactly while nobody has waited |
| RouteSimulation.VisitAt | apps/api/src/services/optimizer.ts:97-129 | each visit sets out from the stop before it when that one is done |
| RouteSimulation.ForeseenLatenessHappens | apps/api/src/services/optimizer.ts:187-200 | over the whole tour, the lateness in the score of each stop is at most that of its visit, and equal up to the first wait |
| RouteSimulation.OptimizeRoute | apps/api/src/services/optimizer.ts:165-256 | the whole call: over capacity, or a good route that is then refused or returned with its timeline |
| Eta.IndexOfFinds | apps/api/src/services/eta.ts:50-52 | the position of the order is its first occurrence in the run |
| Eta.ServiceIs | apps/api/src/services/eta.ts:18-22 | 4, 5 or 6 minutes of service by priority |
| Eta.EstimateOutsideRun | apps/api/src/services/eta.ts:50-71 | the estimate for an order outside the run, in numbers |
| Eta.EstimateInRun | apps/api/src/services/eta.ts:50-71 | the estimate for an order in the run, in numbers |
| Eta.EstimateWaitsForWindow | apps/api/src/services/eta.ts:72-75 | the estimate is never before the window opens and otherwise unchanged |
| Eta.EtaSpeedIs | apps/api/src/services/eta.ts:41-49 | 24 km/h by default, at least 5, a fifth less with a stale position |
| Eta.EstimateMatchesPlan | apps/api/src/services/eta.ts:50-71 | for every priority the estimate is the planned departure less planned waiting and less what the priority takes off the service, hence equal to it exactly for a standard order without planned waiting |
| Eta.EstimateWithinPlan | apps/api/src/services/eta.ts:66-76 | with the window taken into account the estimate lies between the window's start and the planned departure |
| Eta.StaleIsNeverEarlier | apps/api/src/services/eta.ts:46-71 | a stale position never makes the estimate earlier |
| Territories.PointInPolygon | apps/api/src/services/territories.ts:4-15 | the two-index loop computes the parity of boundary crossings |
| Territories.RotationInvariant | apps/api/src/services/territories.ts:4-15 | the answer does not depend on which vertex comes first |
| Territories.ReversalInvariant | apps/api/src/services/territories.ts:4-15 | nor on the direction of the vertex list |
| Territories.SouthCountsEveryChange | apps/api/src/services/territories.ts:9-12 | south of a path the crossings are odd exactly when its ends lie on different sides, so a closed one has an even number |
| Territories.InsideIsInBox | apps/api/src/services/territories.ts:4-15 | no point outside the half-open bounding box is inside |
| Territories.CutDividesInside | apps/api/src/services/territories.ts:4-15 | a cut between two vertices divides the polygon: inside the whole exactly when inside one part and not the other |
| Triangles.CrossesBySide | apps/api/src/services/territories.ts:9-11 | an edge that straddles the point's meridian is crossed exactly by the points south of its line |
| Triangles.InsideTriangle | apps/api/src/services/territories.ts:4-15 | a point on the inner side of all three edges of a triangle is inside |
| Triangles.OutsideTriangle | apps/api/src/services/territories.ts:4-15 | a point on the outer side of some edge of a triangle is not inside |
| Triangles.TriangleMeaning | apps/api/src/services/territories.ts:4-15 | off its three lines, a point is inside a triangle if and only if it is on the inner side of all edges |
| Triangles.InsideIsFanParity | apps/api/src/services/territories.ts:4-15 | for every polygon, a point is inside if and only if it is inside an odd number of the triangles of its fan |
| Territories.ServiceAreaMeaning | apps/api/src/services/territories.ts:17-26 | without an active territory everything is served, with one exactly the points inside some active territory of the organization |
| Settlements.Ledger.MergeRows | apps/api/src/services/settlements.ts:127-143 | the map loop, the stable sort and the cut replace this organization's rows and no other's |
| Settlements.Ledger.ReviewSettlement | apps/api/src/services/settlements.ts:300-323 | answers whether the row exists, and changes nothing if not |
| Settlements.MergeKeepsInv | apps/api/src/services/settlements.ts:127-143 | an import leaves one row per reference, newest first, at most a thousand |
| Settlements.ReviewTouchesOneRow | apps/api/src/services/settlements.ts:307-310 | a review changes status and note of the first row with the id and nothing else |
| Settlements.LedgerStaysSound | apps/api/src/services/settlements.ts:127-143 | any sequence of imports and reviews keeps the ledger so |
| Settlements.ImportKeepsDecisions | apps/api/src/services/settlements.ts:130-138 | a row that survives an import keeps its id, its decision and any note |
| Settlements.ImportBringsFacts | apps/api/src/services/settlements.ts:131-137 | the facts of each imported row, of several with one reference those of the last, are in the map that is sorted and cut |
| Settlements.OldestFallOff | apps/api/src/services/settlements.ts:139-142 | rows are lost only from a full ledger, and none is newer than one that stays |
| Settlements.ReturnedRowIsStoredExactly | apps/api/src/services/settlements.ts:219-243 | the row a provider event returns is the one in the ledger after sort and cut if and only if the notes do not conflict and, for a new reference, the ledger is not full of rows at least as new |
| Settlements.UpsertStoresExactly | apps/api/src/services/settlements.ts:131-137 | the map entry is the returned row exactly when the notes do not conflict |
| Settlements.OldestStaysLast | apps/api/src/services/settlements.ts:139-142 | the sort is stable, so a last row no newer than the others stays last |
| Settlements.ConflictingNoteIsNotStored | apps/api/src/services/settlements.ts:219-243 | an event whose note differs from the stored one returns a row that is not stored |
| Settlements.FullLedgerLosesEvent | apps/api/src/services/settlements.ts:139-142 | a full ledger of the same millisecond drops the row that is returned |
| Settlements.CountsAddUp | apps/api/src/services/settlements.ts:279-293 | the four status counts cover every row once |
| Settlements.SummaryCounts | apps/api/src/services/settlements.ts:279-293 | which rows each count of the summary counts |
| Orders.AssignedMinusRejected | apps/api/src/domain/store.ts:341-354 | in a log that replays, assignments exceed rejections by at most one, and not at all while pending |
| Orders.TerminalIsLast | apps/api/src/domain/stateMachine.ts:3-14 | in a log that replays, no status event follows a terminal one |
| Orders.EffectKeepsInv | apps/api/src/app.ts:1027-1409 | every accepted request keeps the invariant of orders, drivers and logs |
| Orders.RunKeepsInv | apps/api/src/app.ts:1027-1409 | so does every run, with any writes failing |
| Orders.OneActiveOrderPerDriver | apps/api/src/domain/store.ts:341-372 | over every run a driver is busy exactly when one active order points to it, never two, and that order fits |
| Orders.DriverStatusExactly | apps/api/src/domain/store.ts:341-372 | over every run a driver with an active order is busy, and every other has the status it started with |
| Orders.FreedDriverIsEligible | apps/api/src/app.ts:1213-1231 | over every run a driver that started available can be given an order that fits exactly while it has none |
| Orders.WaysOfAnOrder | apps/api/src/domain/stateMachine.ts:3-11 | the transition table, pair by pair |
| Orders.AcceptedExactly | apps/api/src/app.ts:1027-1409 | which requests are accepted, condition by condition |
| Orders.LogsOnlyGrow | apps/api/src/domain/store.ts:341-372 | a step adds events of its moment to the log of the order it is about, changes no other order, and nothing if it refuses |
| Orders.WayToDelivery | apps/api/src/app.ts:1159-1409 | a pending order and a free driver with the capacity can go all the way to delivery, after which the driver is free again |
| Orders.LogDeterminesStatus | apps/api/src/domain/store.ts:323-372 | over every run replaying an order's log gives its status, and the log obeys the two laws above |
| Orders.DeliveryNeedsProof | apps/api/src/app.ts:1358-1384 | over every run delivered, delivery time and proof come together, the proof is the assigned driver's, and a pending order has no driver |
| Orders.DeliveryTimeIsProofTime | apps/api/src/app.ts:1358-1384 | over every run the delivery time is the time of the proof and of the delivery event |
| Orders.DriverlessOrderIsNeverDelivered | apps/api/src/app.ts:1164-1180 | an order marked assigned without a driver never gets one and is never delivered, over every run |
| Orders.BecomesDriverlessExactly | apps/api/src/app.ts:1164-1180 | a step makes an order active without a driver if and only if it is a status change of that order to assigned that takes effect |
| Orders.StaffedExactly | apps/api/src/app.ts:1027-1409 | over every run, all active and delivered orders always have a driver if and only if no status change to assigned ever takes effect |
| Orders.FailedWriteUndoneExactly | apps/api/src/app.ts:1255-1284 | a failed write leaves every order (with its time of update) and driver as it was if and only if the request is no exception report, no acceptance (unless repeated within the same millisecond) and no position with a geofence event |
| Orders.FailedWritesStay | apps/api/src/app.ts:1713-1756 | a run in which the writes of an acceptance, an exception report and an arrival fail and all three events stay |
| Orders.OfficeCanAssignNobody | apps/api/src/app.ts:1164-1180 | such an order can be reached in two requests |
| Orders.GeofenceHistoryIsRegular | apps/api/src/app.ts:1482-1504 | over every run in which time does not go back, arrivals and departures are logged at most once, in order and with ordered times |
| OrderStore.Store.CreateOrder | apps/api/src/domain/store.ts:296-327 | a fresh pending record goes to the front; the others are untouched |
| OrderStore.Store.AssignDriver | apps/api/src/domain/store.ts:341-354 | fails exactly unless pending; otherwise order, driver and log change together |
| OrderStore.Store.Transition | apps/api/src/domain/store.ts:355-372 | fails exactly outside the table; a terminal status frees the driver |
| OrderStore.Store.RestoreBoth | apps/api/src/app.ts:230-233 | restoring both snapshots brings the whole store back |
| OrderStore.Store.PostOrder | apps/api/src/app.ts:821-848 | is the create step; a failed write takes the order out again |
| OrderStore.Store.PatchStatus | apps/api/src/app.ts:1159-1206 | is the status step, with the refusals in the order of the code |
| OrderStore.Store.PostAssign | apps/api/src/app.ts:1207-1254 | is the assign step, undone if the write fails |
| OrderStore.Store.PostAccept | apps/api/src/app.ts:1255-1284 | is the accept step, which keeps its event and time of update even if the write fails |
| OrderStore.Store.PostException | apps/api/src/app.ts:1713-1765 | is the exception step, which keeps its event and time of update even if the write fails |
| OrderStore.Store.Unassign | apps/api/src/app.ts:1303-1313 | order, driver and log change together, outside the transition table |
| OrderStore.Store.PostReject | apps/api/src/app.ts:1285-1329 | is the reject step, undone if the write fails |
| OrderStore.Store.PostProof | apps/api/src/app.ts:1330-1409 | is the proof step, undone if the write fails |
| OrderStore.Store.PostCancel | apps/api/src/app.ts:1027-1070 | is the cancel step, undone if the write fails |
| OrderStore.Store.LogPosition | apps/api/src/app.ts:1485-1501 | is the location step for one order |
| Geofence.DetectTransitions | apps/api/src/services/geofence.ts:15-63 | the loop over both stops finds the events that the following laws are about |
| Geofence.TransitionsExactly | apps/api/src/services/geofence.ts:20-61 | which events a position causes: an arrival within the radius, a departure beyond it after an arrival, each once, and in which statuses |
| Geofence.VisitMatchesEvents | apps/api/src/services/geofence.ts:38-43 | the two membership tests tell exactly what the history of a place is |
| Geofence.TransitionsKeepVisits | apps/api/src/services/geofence.ts:34-61 | whatever the position, no second arrival or departure and no departure without an arrival is logged |
| Geofence.TransitionsStayTimely | apps/api/src/services/geofence.ts:34-61 | with time not going back a departure is no earlier than its arrival |
| GeofenceAnalytics.ReadSession | apps/api/src/domain/store.ts:448-475 | the session loop reads the sorted events of one place |
| GeofenceAnalytics.SessionOfVisit | apps/api/src/domain/store.ts:448-475 | what a regular history gives: nothing, an open visit, or one dwell time; a backdated departure leaves the visit open |
| GeofenceAnalytics.FiguresCountEvents | apps/api/src/domain/store.ts:441-447 | arrivals and departures are the events of these kinds in all logs together |
| GeofenceAnalytics.FiguresAddUp | apps/api/src/domain/store.ts:441-481 | currently inside is arrivals less departures and dwell samples are departures, each off by exactly the backdated ones |
| GeofenceAnalytics.FiguresAgreeExactly | apps/api/src/domain/store.ts:441-481 | the figures agree if and only if no departure is backdated |
| GeofenceAnalytics.FiguresAgreeOverRuns | apps/api/src/domain/store.ts:441-481 | they agree over every run of the order machine in which time does not go back |
| DriverClocks.FailureUndoneExactly | apps/api/src/app.ts:1471-1501 | a failed write of an HTTP request changes nothing if and only if the request is no current new position, no position with a geofence event, no exception report and no acceptance (unless repeated within the same millisecond) |
| DriverClocks.FailedFixLogsNothing | apps/api/src/app.ts:1475-1484 | after an HTTP position whose write failed there is no history entry, and no event at the driver's orders unless another of its positions is being handled |
| DriverClocks.PositionIs | apps/api/src/app.ts:1470-1481 | what a position over either channel leaves in the live position and in the history |
| DriverClocks.TrackedStepKeepsWorld | apps/api/src/realtime/socket.ts:126-168 | positions over HTTP and over the socket keep the invariant of orders, drivers and logs |
| DriverClocks.TrackedStepKeepsInv | apps/api/src/app.ts:1469-1498 | every position and request, unless a socket position disturbs a clock, keeps: an open visit that was not handed over began no later than the clock of the order's driver |
| DriverClocks.HandedOverMeans | apps/api/src/app.ts:1303-1312 | an order that was handed over has a rejection in its log after the arrival |
| DriverClocks.BackdatedNeedsHandover | apps/api/src/app.ts:1465-1498 | over every run a departure is stamped before its arrival only on an order its driver rejected in between, or when a socket position disturbed a clock |
| DriverClocks.FiguresAgreeWithoutHandover | apps/api/src/domain/store.ts:441-481 | over every run without either the analytics figures agree |
| DriverClocks.HandoverCanBackdate | apps/api/src/domain/store.ts:448-475 | a run of two drivers over HTTP whose figures do not agree |
| DriverClocks.SocketCanBackdate | apps/api/src/realtime/socket.ts:126-163 | a run of one driver, whose socket position sets the clock back, whose figures do not agree |
| LiveLocation.DriverPosition.PostLocation | apps/api/src/app.ts:1465-1481 | a fix from the future is refused; the live position moves exactly if the fix is not older, even if the write fails, and history grows exactly if it does not |
| LiveLocation.FailedFixUndoneExactly | apps/api/src/app.ts:1470-1475 | a fix leaves the live position as it was if and only if it is not current or says what was known |
| LiveLocation.TakeIs | apps/api/src/app.ts:1469-1474 | a fix that is not older than the last one is taken over with place and time, an older one is not |
| LiveLocation.TakeAllIsNewest | apps/api/src/app.ts:1469-1474 | after any fixes the live position is the newest one at or after the initial time |
| LiveLocation.ArrivalOrderDoesNotMatter | apps/api/src/app.ts:1469-1474 | fixes with distinct times give the same live position in any order of arrival |
| LiveLocation.TwoFixesCommuteExactly | apps/api/src/app.ts:1469-1474 | two fixes commute if and only if their times differ, or they agree, or neither is current |

## Left out

- Databases, Redis, queues, mail, payments and map services: persistence is a step that succeeds or fails, and tables are modelled in memory mode (`dbEnabled` false), so remembered answers and settlement rows are never reloaded.
- Isolation between overlapping handlers: each lifecycle handler is one step, so a request that runs between another handler's mutation and its `restore` is not modelled; only the bulk import's roll-back is proved against interleaved insertions and removals.
- Audit and notification failures: in order creation any failure takes the order out again, as in the code; in the other handlers a failure after the write, which changes the answer but not the stored state, is not modelled.
- Authentication, roles, tenants, permission checks, schemas and PIN hashing: requests are validated ones, and a proof carries the result of its verification.
- Choice of the nearest eligible driver: the assign step takes any eligible driver the caller names.
- Driver and order identity: drivers are named by their position in the fixed driver list and orders by their position at the time of the request; `PATCH /api/drivers/:id`, which sets a driver's status freely, and route-run publication, which gives one driver many orders, are outside the machine because the one-order-per-driver invariant does not hold with them.
- Fields of an order that no property speaks of: labels, prices, payment, `cancelledAt`, event messages and actors; and the list of delivery exceptions and the table of delivery PINs, whose new entries stay when a write fails.
- The location handler as one call: `DriverClocks` has its first part and its loop over the driver's orders as separate steps, any of whose writes may fail; `LiveLocation` and `OrderStore` have the two parts as methods.
- Header checks of the idempotency key, and the string that joins organization, route and key: a scope key is abstract.
- Middleware.Step: handlers are arbitrary, so it does not model whether a handler ever answers; the progress result is that waiters can be served when it does, not that they will be. A connection may close at any moment of a handler; one that closed before the listener was registered is freed by `res.json` only, which is one of the runs of the model.
- DriverQueue.DriverActionQueue.Flush: models a flush during which nothing else touches the queue; overlapping ones are in ExactlyOnce.
- Eta.EstimateMatchesPlan: compares with a plan of the same speed and six minutes per stop; confidence, age of the position and late risk are left out.
- BulkOrders.ParseBulkOrderCsv: header normalisation and the alias table are the parameter `fieldOf`, and cells are text (conversion to numbers belongs to the schema).
- BulkOrders.RunBulkImport: ids are as many as a file can have rows and unknown to other requests, as random ids are; the parcel codes known at the start are a parameter.
- DriverClocks.TrackedApply: the events of an HTTP position are logged order by order with the driver's latest clock; an order that changes hands in the middle of that loop is not modelled, nor are the socket's rate limit, the driver record it makes for an account without one, and `PATCH /api/drivers/:id`, which sets the clock to the server's time as well.
- ExactlyOnce.SystemStep: one browser tab, so a read-modify-write of local storage is not interrupted; entries dropped by the shape filter of `read` and corrupt storage are not modelled; an id is stored once.
- RouteOptimizer.Score: arithmetic is exact, so floating-point rounding, `toFixed`, rounded minutes and non-finite numbers are not modelled.
- RouteSimulation.OptimizeRoute: the start time is fixed and readable and a shift end is readable, so the errors for unreadable dates, the defaults for absent constraints, the clock read again on each call, and the list of warnings are left out.
- Territories.Height: over exact reals, so points within rounding distance of an edge are not covered.
- Settlements.Ledger.MergeRows: building rows from CSV columns, matching orders, status rules and amounts in minor units are left out.
- Timestamps: integers or reals instead of ISO strings, which compare the same way while all have the same format.
- The CSV readers in settlements.ts and operatingCosts.ts, which repeat the one modelled here.
- locationQueue.ts, whose flush drops fixes enqueued meanwhile, so it has no survival property to prove.
- forecast.ts, reconciliation.ts, slaInbox.ts, routeRuns.ts, removeOperatingCosts and the rest of the analytics summary: filters, counts and sums that would only add easy members.
- The user interface, maps, sockets and geolocation.
