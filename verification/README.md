# Chronos in Dafny

A model of Chronos, a real-time database testbed, and proofs of what its server promises. The model keeps
the source's shape: the ready queue, the database handle, the shared server context, the direct server, the
update thread and the client cache are classes whose methods change their fields and are proved against
specification functions; threads that interleave are step systems; macros that assign fields are methods.

| files | what they model |
|---|---|
| `Ring`, `ReadyQueue`, `Monitor` | the bounded ring with tickets: as a value, as the object both sides update under its mutex, and with its two condition variables and any number of threads |
| `ReplyProtocol`, `ReplyLaws`, `ReplyAlways`, `ReplyResults` | who holds which request, when a handler's `txn_done` and `txn_rc` cells are written and read, and which result it reads |
| `Server`, `ServerInvariants`, `ServerRuns`, `ServerLaws`, `ServerScenarios` | the queued server as one step system: handlers, update threads, processing threads, both queues, the database, the admission counter and the die flag; its refinement of the reply protocol and of the direct server; and the runs that show where it promises less |
| `AdmissionLaws`, `ServerThreads`, `ServerLedger` | more laws over runs of that system: how completions let throttled handlers in, what becomes of every refresh, how threads stop, and the ledger's conservation and prices for the server's own database |
| `Ledger`, `BenchmarkDbs`, `LedgerLaws`, `LedgerRuns` | the portfolio ledger: tables, batches, the id counter outside of transactions |
| `Controller`, `ServerContext`, `ControllerLaws`, `TickLaws` | the sampling timer: five slot history, adaptive periods, smoothed overload, admission counter; and what each tick reports and decides, counted from the transactions that finished |
| `DirectServer` | the server without queues, which the queued one is measured by |
| `UpdateSchedule` | which items an update thread refreshes, and how often |
| `Time` | the seconds and nanoseconds arithmetic of `chronos.h` |
| `ClientCache` | which users a client thread acts for |

## What the code does less than intended

Each is proved of the code as it is, with the exact condition under which the intended property holds.

- A completion writes `*txn_done` before `*txn_rcP`. A handler can then return success for a request that
  failed (`ServerScenarios.StaleReply`), and the write it did not wait for can land in its next request, even
  after both writes for that one (`ServerScenarios.LateReply`, and with a single processing thread
  `ServerScenarios.LateReplyAlone`), so that a request that succeeded is reported failed. No run tells anybody a
  wrong result if and only if the two writes are made in another order or at once
  (`ServerScenarios.RepliesRightIff`). What a handler reads, in every reachable state, is what was stored in its
  `txn_rc` last since its call, or success if nothing was: its own result if and only if that store was for its
  own request or the values are equal (`ReplyResults.ReturnVerdict`). A handler that never itself returned
  between two writes for it is told only right results, whatever others do (`ServerRuns.QueuedRefinesDirect`).
- `dispatchTableFn` ignores the enqueue result. That is harmless if and only if there are no more handlers than
  the ring has slots (`ServerScenarios.IgnoredEnqueueIff`); beyond that a handler can wait forever.
- A thread that is asked to die in a timed wait takes its signal along (`Monitor.WakeupsKeptIff`,
  `Monitor.DyingLosesWakeup`).
- The adaptive period keeps old slot contents when a change would leave the range, so it climbs seven times and
  then goes round five values for good (`ControllerLaws.PeriodClosedForm`). Were an item found hot at the first
  tick, its period would become zero (`ControllerLaws.HotFirstTickEmptiesPeriod`).
- A statistics record that is written after its slot was left is lost (`ControllerLaws.LateRecordLostIff`).
- The portfolio id counter restarts at the number of records. After an abort left a gap, a valid purchase fails
  on a reopened handle (`LedgerRuns.ReopenSafeIff`, `LedgerRuns.ReopenFirstCreateIff`,
  `LedgerRuns.ReopenCollides`).
- Purchase amounts are not checked. Holdings stay non-negative if and only if a batch asks for no pair less than
  nothing in all, or can never commit (`LedgerRuns.NonNegativeIff`).
- `CHRONOS_TIME_ADD` carries on `>`: sums are exact but not always in normal form (`Time.SumAllExact`).
- With 50 users and three or four clients, two users have no client (`ClientCache.FiftyUsers`).

Only the sampling timer itself writes `accessUpdateRatio`; accesses and updates are both counted in
`updateFrequency`. On the server's runs the ratio therefore stays zero, and every item counts as cold. The model
follows the code.

## Model

| member | source | states |
|---|---|---|
| Ring.EnqueuedRefines | src/chronos_queue.c:88-100 | an enqueue into the ring appends one entry, with the next ticket, to the sequence it stands for, and keeps indices, occupancy and ticket numbering consistent |
| Ring.DequeuedRefines | src/chronos_queue.c:35-46 | a dequeue removes the oldest entry of that sequence, whose ticket is the lowest live one |
| ReadyQueue.ReadyQueue.constructor | include/chronos_server.h:88-101 | a new queue is empty and has given no ticket |
| ReadyQueue.ReadyQueue.Put | src/chronos_queue.c:88-110 | the critical section, in place: contents grow by one entry with the ticket returned |
| ReadyQueue.ReadyQueue.Take | src/chronos_queue.c:35-49 | the critical section, in place: returns the oldest entry and leaves the rest in order |
| ReadyQueue.ReadyQueue.Dequeue | src/chronos_queue.c:10-57 | the whole call with its wait loop, whatever other threads do during each wait |
| ReadyQueue.ReadyQueue.Enqueue | src/chronos_queue.c:60-119 | the whole call with its wait loop, whatever other threads do during each wait |
| ReadyQueue.DequeueOutcome | src/chronos_queue.c:22-49 | a dequeue takes the head of what the others left after some of its waits, or fails and changes nothing; it blocks only on an empty ring |
| ReadyQueue.EnqueueOutcome | src/chronos_queue.c:75-100 | an enqueue appends the next ticket to what the others left, or fails and changes nothing; it blocks only on a full ring |
| Monitor.StepInv | src/chronos_queue.c:22-110 | every stay under the mutex, of any thread, keeps the ring sound, keeps what was enqueued equal to what was dequeued followed by what is queued, and numbers tickets 1, 2, 3, ... |
| Monitor.QueueIsFifo | src/chronos_queue.c:10-119 | over every run of any number of threads, what came out is a prefix of what went in, in ticket order, and occupancy and indices stay consistent |
| Monitor.WakeupsKeptIff | src/chronos_queue.c:22-49 | a step keeps "no sleeper without a woken thread for the work or space it waits for" if and only if it is not a thread leaving with the last spare signal because it was asked to die |
| Monitor.RunKeepsWakeups | src/chronos_queue.c:73-110 | no wakeup is lost on any run on which the process is not asked to die |
| Monitor.NeverAllParked | src/chronos_queue.c:22-110 | on such runs consumers all sleep only on an empty queue, producers only on a full one, and never both kinds with nobody woken, even without the five second timeout |
| Monitor.DyingLosesWakeup | src/chronos_queue.c:28-32 | a run with a die request that leaves a consumer asleep beside an entry |
| Time.NanoOffset | include/chronos.h:74-89 | for normalised stamps the interval is exact and its parts never have opposite signs |
| Time.SignedUnique | include/chronos.h:74-89 | an amount has one such form, so the result is determined, and swapping begin and end negates it |
| Time.MsOfInterval | include/chronos.h:152-153 | the millisecond value is the exact interval cut towards zero, and antisymmetric |
| Time.SecOffset | include/chronos.h:91-106 | the whole seconds between two stamps, cut towards zero |
| Time.Add | include/chronos.h:108-122 | the sum is exact, and of normalised stamps normalised unless the nanoseconds add up to exactly one second |
| Time.SumAllExact | include/chronos.h:108-122 | adding up any list keeps the exact total with at most 10^9 nanoseconds; it is normalised if and only if the total is no whole second made up of nanoseconds |
| Time.Average | include/chronos.h:124-138 | a count of zero leaves the field alone; else the result times the count is the total up to less than the count, for all signs; for a positive count and no negative parts it is the total divided by the count, rounded down, in normal form |
| Time.MsToTime | include/chronos.h:155-159 | milliseconds to time and back is the identity |
| Ledger.Scan | src/benchmark_common.c:2076-2087 | the cursor loop returns a record of the pair, and fails only if there is none |
| BenchmarkDbs.BenchmarkDbs.constructor | include/benchmark_common.h:125-147 | an open handle on an empty portfolios table |
| BenchmarkDbs.BenchmarkDbs.StartXact | src/benchmark_common.c:1275-1325 | remembers the tables as they are |
| BenchmarkDbs.BenchmarkDbs.CommitXact | src/benchmark_common.c:1328-1371 | forgets them, keeping the new tables |
| BenchmarkDbs.BenchmarkDbs.AbortXact | src/benchmark_common.c:1374-1408 | puts the tables back, but not the id counter |
| BenchmarkDbs.BenchmarkDbs.GetPortfolio | src/benchmark_common.c:2018-2112 | the cursor loop finds the first match |
| BenchmarkDbs.BenchmarkDbs.CreatePortfolio | src/benchmark_common.c:2312-2381 | draws an id, stores a record under it, or fails if it is taken |
| BenchmarkDbs.BenchmarkDbs.PlaceOrder | src/benchmark_common.c:1807-2015 | the whole new store and result, branch by branch |
| BenchmarkDbs.BenchmarkDbs.SellStocks | src/benchmark_common.c:1607-1804 | the whole new store and result, branch by branch |
| BenchmarkDbs.BenchmarkDbs.UpdateStock | src/benchmark_common.c:1501-1603 | succeeds exactly when the symbol has a quote; sets it, or moves it by a tenth in the drawn direction, never down from zero or below, and keeps every other quote |
| BenchmarkDbs.BenchmarkDbs.Purchase | src/purchase_txn.c:90-136 | the batch loop with commit and abort computes the batch of the specification |
| BenchmarkDbs.BenchmarkDbs.Sell | src/sell_txn.c:92-138 | the batch loop with commit and abort computes the batch of the specification |
| BenchmarkDbs.BenchmarkDbs.ViewStock | src/view_stock_txn.c:183-227 | succeeds if and only if every symbol has a quote |
| BenchmarkDbs.BenchmarkDbs.Execute | src/startup_server_2.c:1322-1362 | the transaction switch |
| LedgerLaws.FindCorrect | src/benchmark_common.c:2066-2112 | the search succeeds exactly when a record of the pair exists, and returns its primary key |
| LedgerLaws.ScanOrderIrrelevant | src/benchmark_common.c:2066-2087 | it finds the same record in whatever order the index lists the keys |
| LedgerLaws.CreateOk | src/benchmark_common.c:2335-2372 | in a sound ledger the put with no overwrite succeeds, and keeps one record for each pair, listed once, with an id below the counter |
| LedgerLaws.PlaceOrderOk | src/benchmark_common.c:1864-1946 | orders, forced or not, keep the ledger sound: the pair stays unique |
| LedgerLaws.SellStocksOk | src/benchmark_common.c:1671-1733 | sales, forced or not, keep the ledger sound |
| LedgerLaws.BuyEffect | src/benchmark_common.c:1807-2015 | a forced order succeeds exactly when account, stock and quote exist and the quote is within the limit; it moves that holding only, and a failed one changes no table |
| LedgerLaws.SellEffect | src/benchmark_common.c:1607-1804 | the same for sales, which also need enough stocks |
| LedgerLaws.PurchaseAtomic | src/purchase_txn.c:106-135 | a purchase batch commits exactly when each item can be bought; it then moves every holding by all that was asked, also when a pair is named repeatedly, and otherwise leaves all tables unchanged |
| LedgerLaws.SaleAtomic | src/sell_txn.c:108-137 | a sale batch commits exactly when each item can be sold after the ones before it; all or nothing |
| LedgerLaws.UnforcedOrder | src/benchmark_common.c:1905-1946 | an order whose flag is not 1 succeeds exactly when account and stock exist, whatever the quote; it leaves a wish to buy in the pair's record and touches nothing else, or makes one new record, with the wish if the flag is 0 and with the stocks if it is another number |
| LedgerLaws.UnforcedSale | src/benchmark_common.c:1671-1733 | a sale whose flag is not 1 succeeds exactly when account, stock and enough stocks exist, and only leaves a wish to sell |
| LedgerLaws.UpdateEffect | src/benchmark_common.c:1501-1603 | in every store: a price update succeeds exactly when the symbol has a quote and else changes nothing; it sets that quote only, to the value given or by exactly a tenth in the drawn direction, upwards from zero or below, and keeps all other quotes, tables and the counter |
| LedgerLaws.RequestEffect | src/startup_server_2.c:1322-1362 | in every store: viewing stocks succeeds exactly when each symbol has a quote and changes nothing, no request changes accounts, stocks or quotes, and a failed one changes no table |
| LedgerRuns.Conservation | src/purchase_txn.c:90-136 | over every run a holding changes by exactly the committed purchases less the committed sales, and the ledger stays sound |
| LedgerRuns.EmptyTableRun | src/benchmark_common.c:2335-2372 | from an empty table a holding is the net of the run, ids stay below the counter, and a create never collides, whatever was aborted |
| LedgerRuns.SaleCovered | src/benchmark_common.c:1681-1684 | no sale batch drives a holding below zero, whatever its amounts |
| LedgerRuns.NonNegativeIff | src/benchmark_common.c:1893-1895 | exactly which purchase batches keep every sound ledger, with quotes that runs can reach, non-negative: those that can never commit, or ask for no pair less than nothing in all |
| LedgerRuns.NeverNegative | src/purchase_txn.c:113-119 | over every run of such batches, any sales and any price moves, no holding is negative |
| LedgerRuns.ReopenSafeIff | src/view_portfolio_txn.c:48-54 | a reopened handle has only free ids ahead if and only if the stored ids have no gap |
| LedgerRuns.ReopenRuns | src/view_portfolio_txn.c:48-54 | the reopened ledger is sound if and only if there is no gap; then, after any further run, a purchase batch commits exactly when its items can be bought |
| LedgerRuns.ReopenFirstCreateIff | src/view_portfolio_txn.c:54 | the first new portfolio of a reopened handle fails exactly when the id equal to the number of records is taken |
| LedgerRuns.ReopenCollides | src/benchmark_common.c:2335-2371 | an aborted batch, a committed one and a reopening after which a valid purchase fails |
| LedgerRuns.RetriesRecover | src/benchmark_common.c:2335-2371 | a purchase that meets taken ids fails exactly as often as there are taken ids in a row from the counter on, changing nothing but the counter, and then succeeds |
| LedgerRuns.PricesStayAbove | src/benchmark_common.c:1539-1550 | over every run no quote falls to a tenth below zero |
| LedgerRuns.QuotesWalk | src/benchmark_common.c:1539-1555 | over every run from any store the quoted symbols stay the same, and a quote is the last value it was set to, or its start, plus a tenth for each step up and less a tenth for each step down since |
| LedgerRuns.RefreshedQuote | src/benchmark_common.c:1542-1550 | a quote that is only refreshed ends where it started, plus a tenth times its ups less its downs |
| ServerContext.ServerContext.constructor | src/startup_server_2.c:314-320 | statistics are zero and each item has its smallest period in slot 0 |
| ServerContext.ServerContext.HandlerSampling | src/startup_server_2.c:499-609 | the whole tick, in place, equals the specification's tick, whose numbers `TickLaws.TickReports`, `TickLaws.TickAdapts` and `TickLaws.RunPeriods` give |
| ServerContext.ServerContext.ClearRow | src/startup_server_2.c:517-522 | clears the new slot's cells and no other |
| ServerContext.ServerContext.AdaptPeriods | src/startup_server_2.c:525-556 | every item is adapted by itself, and the ratio's divisor is never zero |
| ServerContext.ServerContext.MeasureDelay | src/startup_server_2.c:563-575 | the average delay of the slot just left: times the number of successes it is their milliseconds, and zero without any |
| ServerContext.ServerContext.SumRow | src/startup_server_2.c:563-569 | the sums over all threads of a slot |
| ServerContext.ServerContext.ControlAdmission | src/startup_server_2.c:580-596 | bound times one plus the degree is the larger of average and bound; smoothed degree, queue total, and the counter as a rounded share of it |
| ServerContext.ServerContext.Finish | src/startup_server_2.c:1369-1404 | one throttled transaction less, and in the thread's cell of the current slot one success with its milliseconds, timely within the bound, or one failure; all other cells are kept |
| ControllerLaws.PeriodClosedForm | src/startup_server_2.c:517-559 | when periods adapt, the period after tick t is min times 1.1^e(t), with e(t) = t below 8 and 3 + (t - 3) mod 5 from then on, whatever the update counts; so it stays between min and 2 min |
| ControllerLaws.PeriodFixed | src/startup_server_2.c:552-554 | in the other modes it is the smallest period after every tick |
| ControllerLaws.PeriodRange | src/startup_server_2.c:525-556 | for any access ratios and any number of ticks every slot is zero or in range, and once all are in range they stay there, although old slots are reused |
| ControllerLaws.HotFirstTickEmptiesPeriod | src/startup_server_2.c:528-549 | the first tick makes the period zero if and only if the item is not found cold, an item without updates counting as a tenth of one |
| ControllerLaws.StatisticsConserved | src/startup_server_2.c:517-568 | over any run, what all ticks reported plus what the current slot holds is what was there plus all that was recorded: nothing is reported twice or dropped |
| ControllerLaws.TimelyBelowSuccessful | src/startup_server_2.c:1388-1398 | in every cell at all times no more transactions are timely than succeeded |
| ControllerLaws.LateRecordLostIff | src/startup_server_2.c:1384-1404 | a record under a slot number read earlier goes unreported by all later ticks if and only if that slot is not current |
| ControllerLaws.SmoothedIsWeighted | src/startup_server_2.c:586-587 | after any run the smoothed degree is the sum of all degrees, each times 0.4 and faded by its age, plus the faded start |
| ControllerLaws.FadedIsPower | src/startup_server_2.c:586-587 | fading over n ticks is a factor of (3/5)^n |
| ControllerLaws.SmoothedBetween | src/startup_server_2.c:580-587 | it is never negative and never above the largest degree seen |
| ControllerLaws.QuietSmooth | src/startup_server_2.c:580-587 | once no tick finds a violation it decays as (3/5)^m |
| ControllerLaws.QuietTicksRelease | src/startup_server_2.c:588-596 | then, with at most two full rings queued, the admission counter is set to zero by every tick from a number of ticks on that the degree at the start determines; `ServerLaws.QueuesWithinCapacity` draws the bound from the rings |
| ControllerLaws.WaitCountBound | src/startup_server_2.c:588-596 | in the throttling modes a tick's counter is a hundredth of the smoothed degree times the queued transactions, rounded down, and else zero; it is at most the transactions queued if the smoothed degree is at most 100, with the exact condition |
| TickLaws.CountsConserved | src/startup_server_2.c:1388-1404 | over every run, what ticks reported plus what the current slot holds grows by one success or failure for each finished transaction, by the milliseconds of the successful ones, and by one timely transaction for each of these within the bound |
| TickLaws.CellsGrow | src/startup_server_2.c:1382-1404 | between ticks each thread's cell of the current slot grows by what this thread finished, and nothing else changes |
| TickLaws.TickReports | src/startup_server_2.c:562-596 | every tick of every run, counted from the events since the tick before: with n successes of ms milliseconds in all, average * n == ms and bound * n * (1 + degree) == max(ms, bound * n); zero for n == 0; a violation is found exactly if ms > bound * n; and the counter is a hundredth of the smoothed degree times the queued transactions, rounded down |
| TickLaws.TickAdapts | src/startup_server_2.c:525-556 | a tick turns accesses into accesses per update, and sets one period: a tenth longer with fewer accesses than updates, a tenth shorter with more, if in range, else what the slot held; all other slots are kept |
| TickLaws.PeriodLattice | src/startup_server_2.c:537-548 | whatever is counted, after t ticks a period slot is empty or the smallest period changed at most t times by a tenth |
| TickLaws.RunPeriods | src/startup_server_2.c:511-559 | on runs of the whole timer with any number of items: the slot in use is the number of ticks modulo five, and the period of every item in it is the closed form |
| ReplyProtocol.MoveKeeps | src/startup_server_2.c:1312-1366 | every move of handlers and processing threads, under any write order, keeps the full reply invariant, as long as no handler returns between the two writes for it |
| ReplyLaws.NoReturnInWindow | src/startup_server_2.c:882-886 | with the result written first, or both cells at once, no handler can return between them |
| ReplyLaws.CleanVerdict | src/startup_server_2.c:882-886 | as long as no handler has returned between two writes for it: a return reads the handler's own result if and only if no thread is between the two writes for it, or the result was success |
| ReplyResults.MoveRecorded | src/startup_server_2.c:1365-1366 | on all runs, for every write order: a `txn_rc` holds the result of the transaction that stored into it last since the call, which is one of the same handler, or its initial value |
| ReplyResults.ReturnVerdict | src/startup_server_2.c:882-886 | in every reachable state, for every write order: a returning handler reads its own result if and only if that was stored last, or what was stored last, by an earlier request of its own or not at all, is equal |
| ReplyResults.MovePrompt | src/startup_server_2.c:1365-1366 | a handler that does not itself return between two writes for it stays free of late writes, whatever other handlers do |
| ReplyResults.PromptReturn | src/startup_server_2.c:882-886 | and then reads its own result |
| ReplyResults.DanglingIsHalf | src/startup_server_2.c:1365-1366 | a thread points to the `txn_rc` of a handler that does not wait for its transaction only with the code's order, and only between the two writes |
| ReplyLaws.OwnersDistinct | src/startup_server_2.c:849-877 | the queue entries from any position on belong to as many different handlers as there are entries |
| ReplyAlways.ForgetCommutes | src/startup_server_2.c:1365-1366 | with results forgotten, the code's two writes are one step: each of its moves is a move of the one step protocol, or none |
| ReplyAlways.MoveKept | src/startup_server_2.c:1312-1366 | so the exactly-once invariant is kept on all runs, for the code's write order too |
| ReplyAlways.ExactlyOnce | src/startup_server_2.c:849-898 | the `txn_done` of a waiting handler is pointed to from exactly one place, queue or thread, until it is set, and that of others from none; with the other write orders so is `txn_rc` |
| ReplyAlways.OccupancyBound | src/startup_server_2.c:872-886 | the user queue holds at most one entry for each waiting handler |
| ReplyAlways.ReturnsOwn | src/startup_server_2.c:882-886 | a handler returns only after its own request met the database |
| ReplyAlways.SkippedNeverReturns | src/startup_server_2.c:872-884 | a handler whose enqueue failed never returns, and no move changes that |
| ServerInvariants.StepRefines | src/startup_server_2.c:849-898 | every event of the server is a move of the reply protocol or none, and a queue changes only by its own monitor's events |
| ServerInvariants.StepSound | src/startup_server_2.c:1546-1574 | every event keeps both queues sound |
| ServerInvariants.StepLands | src/startup_server_2.c:1365-1366 | the server records which result each `txn_rc` got last |
| ServerRuns.StepSimulates | src/startup_server_2.c:1322-1362 | forward simulation: each event of the queued server is one step of the direct server, or none |
| ServerRuns.RunReplays | src/startup_server.c:1220-1289 | after any run the direct server, on the same transactions in the order they met the database, has the same database and results |
| ServerRuns.CleanKeeps | src/startup_server_2.c:1365-1366 | runs without a return between the two writes keep the full reply invariant |
| ServerRuns.AlwaysClean | src/startup_server_2.c:1365-1366 | unless `txn_done` is written first, no handler ever returns between two writes for it |
| ServerRuns.RunPrompt | src/startup_server_2.c:1365-1366 | on a run on which one handler never does, no write for an earlier request of that handler is outstanding |
| ServerRuns.ReplyVerdict | src/startup_server_2.c:882-886 | the verdict on what a handler reads, in every reachable state of the server |
| ServerRuns.RunTold | src/startup_server_2.c:882-886 | what a handler returned, followed by what it still has to return, is what its requests resulted in, in order: the requests on every run, the results on every run on which this handler did not return between two writes for it |
| ServerRuns.QueuedRefinesDirect | src/startup_server_2.c:849-898 | the queued server refines the direct one on every run: same database, each handler returns once for each of its requests in order, and with the direct server's results unless that handler itself returned between two writes for it |
| ServerLaws.TicketOrder | src/startup_server_2.c:1546-1574 | with one processing thread transactions meet the database in dequeue order, which for user requests is ticket order, and no dequeue ever waits |
| ServerLaws.CellsPointedToOnce | src/startup_server_2.c:849-898 | exactly once, for `txn_done`, and the bound on the user ring, in every reachable state of the server |
| ServerLaws.ServerKeepsWakeups | src/chronos_queue.c:22-110 | neither queue of the server loses a wakeup before it is asked to die |
| ServerLaws.StepCounter | src/startup_server_2.c:1369-1374 | the admission counter less the decrements under way never falls below minus the number of threads, at any step |
| ServerLaws.CounterBound | src/startup_server_2.c:1459-1464 | with the test and the decrement as separate steps of T threads, and ticks at any time, the counter never falls below -T |
| ServerLaws.OneStepCounter | src/startup_server_2.c:1369-1374 | with both as one step it is never negative, over any run of completions and ticks, and k completions take it from n to n - k or zero |
| ServerLaws.QueuesWithinCapacity | src/startup_server_2.c:588 | in every reachable state a tick finds at most two full rings |
| ServerLaws.FadedTickReleases | src/startup_server_2.c:588-596 | so in every reachable state a tick whose degree has faded over the known number of quiet ticks lets all handlers go |
| AdmissionLaws.StepBalance | src/startup_server_2.c:1369-1374 | at every step but a tick: the counter, less the threads that owe it a decrement, plus the completions so far, changes only by the tests that find nothing to wait for; a refresh that fails completes nothing |
| AdmissionLaws.AdmissionBalance | src/startup_server_2.c:1369-1374 | between two ticks, on every run with any number of threads, the counter goes down by one for each completion, except those still on their way to the decrement and those whose test found nothing to wait for |
| AdmissionLaws.EveryCompletionCounts | src/startup_server_2.c:1459-1464 | while there is something to wait for, each completion counts exactly once, so the counter n cannot stay positive over n + T completions |
| AdmissionLaws.EntersAtZero | src/startup_server_2.c:970-990 | a handler leaves its idle state only in a state in which the counter is not positive |
| AdmissionLaws.ThrottledStayIdle | src/startup_server_2.c:970-990 | on every run on which the counter stays positive, idle handlers stay idle |
| AdmissionLaws.EnteringCosts | src/startup_server_2.c:970-990 | between two ticks, a handler that was idle when the counter was n gets in only after at least n completions, less those that were on their way to a decrement then |
| AdmissionLaws.AloneExact | src/startup_server_2.c:1369-1374 | with one processing thread, from loop head to loop head without a tick, k completions take the counter from n to exactly max(n - k, 0) |
| ServerThreads.RefreshesConserved | src/startup_server_2.c:1639-1642 | on every run, each refresh an update thread offered is with that thread, in the queue, in the hands of a processing thread, has met the database once, or was dropped by a thread asked to die in its wait for space |
| ServerThreads.DyingDrains | src/startup_server_2.c:1546-1574 | once asked to die, a processing thread makes at most thirteen more steps from anywhere in its loop, whatever is queued |
| ServerThreads.NoneGone | src/startup_server_2.c:1546-1574 | and no thread leaves before that |
| ServerLedger.StepApplies | src/startup_server_2.c:1322-1362 | each event leaves the database and its record of transactions alone, or applies one transaction and records its result |
| ServerLedger.ServerConservation | src/startup_server_2.c:1322-1362 | over every run of the server, with any number of threads, its database is a sound ledger, namely what the recorded transactions make of the first one in turn, and each holding has changed by what the transactions with result success bought less what they sold |
| ServerLedger.ServerQuotes | src/startup_server_2.c:1449-1452 | over every run of the server each quote is where it started plus a tenth times the ups less the downs of its refreshes, never a tenth or more below zero, and no symbol gains or loses a quote |
| ServerScenarios.NoStarvation | src/startup_server_2.c:1546-1574 | a queue's k-th oldest transaction is taken by the k-th pass over that queue, whatever arrives in either |
| ServerScenarios.PassesAlternate | src/startup_server_2.c:1546-1574 | with one processing thread the passes over the two queues alternate |
| ServerScenarios.StaleReply | src/startup_server_2.c:1365-1366 | for every request, whatever its result, there is a run on which its handler reports success and goes on while a thread still points to its `txn_rc` |
| ServerScenarios.LateReply | src/startup_server_2.c:1365-1366 | with two processing threads, for any two requests: a run on which the handler reports the first result for the second request, outside of any window |
| ServerScenarios.LateReplyAlone | src/startup_server_2.c:1365-1366 | the same with one processing thread, inside the second window |
| ServerScenarios.DanglesIff | src/startup_server_2.c:1365-1366 | a run can leave a thread with the `txn_rc` of a handler that has gone on if and only if `txn_done` is written first, and then only between the two writes |
| ServerScenarios.RepliesRightIff | src/startup_server_2.c:1365-1366 | no run tells any handler a wrong result if and only if `txn_done` is not written first |
| ServerScenarios.OrphanRun | src/startup_server_2.c:870-877 | with more handlers than slots, a run that leaves a handler waiting for a request that was never enqueued |
| ServerScenarios.IgnoredEnqueueIff | src/startup_server_2.c:870-877 | no run does so if and only if there are at most 1024 handlers |
| ServerScenarios.OrphanForever | src/startup_server_2.c:882-884 | and such a handler waits forever |
| Controller.Decremented | src/startup_server.c:1293-1298 | one decrement never takes a counter that is not negative below zero |
| DirectServer.DirectServer.ProcessUserTransaction | src/startup_server.c:1220-1340 | the caller gets the result of its own request, the database, counter and statistics change accordingly, and the call is one step of the server that queued runs are replayed on |
| DirectServer.DirectServer.ProcessRefreshTransaction | src/startup_server.c:1344-1382 | a refresh, which counts for admission control only if it succeeds |
| UpdateSchedule.SlicesPartition | src/startup_server_2.c:363-365 | no item belongs to two update threads; slices stay in bounds if and only if threads times k is at most the items, and miss none if and only if it is at least that |
| UpdateSchedule.UpdateThread.constructor | src/startup_server_2.c:355-366 | the slice of a thread |
| UpdateSchedule.UpdateThread.Pass | src/startup_server_2.c:1622-1653 | one round enqueues exactly the due items, in order, counts each in the current slot, schedules those again, and touches no other item |
| UpdateSchedule.DueItemsExact | src/startup_server_2.c:1622-1624 | the due items are in increasing order, and are exactly those of the slice whose time has come |
| UpdateSchedule.UpdateThread.Rounds | src/startup_server_2.c:1614-1662 | the endless loop, in place, for any number of rounds: each item follows its looks, the rounds that enqueue it are exactly those at whose looks it was due, and so no window holds more of its refreshes than the periods allow |
| UpdateSchedule.RefreshesSpaced | src/startup_server_2.c:1624-1650 | successive refreshes of an item are apart by at least the integer part of the period set at the first |
| UpdateSchedule.RefreshesOnTime | src/startup_server_2.c:1618-1650 | if items are looked at every d ms, no refresh comes later than d after it was due |
| UpdateSchedule.RateBound | src/startup_server_2.c:1618-1653 | with periods of at least f ms any window of w ms holds at most w / f + 1 refreshes of an item |
| UpdateSchedule.ServerRate | src/startup_server_2.c:836-838 | on the server's runs, in every mode and whenever the ticks come, f is the smallest period |
| UpdateSchedule.RateReached | src/startup_server_2.c:1650 | the bound is reached, and below one millisecond there is none |
| ClientCache.Share | src/chronos_cache.c:86-87 | ten for smaller even shares, a hundred for larger ones, and the even share between |
| ClientCache.StockAtDrawn | src/chronos_cache.c:104-111 | a drawn stock has the id drawn, modulo the number of symbols, its own symbol, an amount below 100 and the fixed price |
| ClientCache.ClientCache.DrawStocks | src/chronos_cache.c:103-111 | the stocks of one user are those drawn, within range |
| ClientCache.ClientCache.CreatePortfolios | src/chronos_cache.c:66-125 | every slot in use has the user of the assignment, by id and name, and stocks as drawn, and the rest of the arrays is untouched |
| ClientCache.AssignmentBalanced | src/chronos_cache.c:97-103 | over n clients every user is held by the integer part of nP / U slots, or one more |
| ClientCache.DistinctIff | src/chronos_cache.c:97-99 | a client names no user twice if and only if P <= U |
| ClientCache.ExclusiveIff | src/chronos_cache.c:97-99 | for two clients or more: none share a user if and only if nP <= U |
| ClientCache.CoveringIff | src/chronos_cache.c:97-99 | every user has a client if and only if nP >= U |
| ClientCache.FiftyUsers | src/chronos_cache.c:8-99 | the code's own numbers: never a user twice in a client, shared users exactly from six clients on, all users covered exactly if there are not three or four clients |

## Left out

- Sockets, polling, signals, timers, thread creation and the start barrier: plumbing around the dispatch call and the admission wait, which are modelled.
- Berkeley DB itself: the store is maps with a snapshot that an abort puts back, transactions are serial, and commits, cursors and environments do not fail. The order in which a cursor meets keys with the same account is abstract; `LedgerLaws.ScanOrderIrrelevant` shows that it does not matter.
- Reads that only print: viewing portfolios is modelled as succeeding and changing nothing.
- The random direction of a price, the random stocks of a client, clocks and the die flag: inputs that may take any value.
- Rounding of floats and doubles, wrap-around of 64 bit tickets and of holdings: reals and unbounded integers stand for them.
- The five second timeout of the waits: an event that may wake a parked thread at any time, like a spurious wakeup.
- Memory of a returned handler: its cells are modelled as one place for each handler, the frame it uses for every request, so a late second write lands in the handler's next request.
- Lost updates of the admission counter when two threads decrement at the same instant: a decrement is one event, and its test another.
- Statistics: `StatisticsConserved` takes recording and ticking as atomic; `LateRecordLostIff` says what a late record loses.
- The processing loop's tests of the two queues read one field each and are events of their own; the loads inside a library call are not.
- An update thread's failed enqueue: the thread goes on to its next item, as in the code, and no claim is made about that refresh.
- Fixed-width copying of request packets and the limits on items in a packet: requests are records with sequences.
- Loading of data files, command lines, tracing, the client programs' own statistics, and scripts.
- BenchmarkDbs.BenchmarkDbs.StartXact: a transaction that cannot be started is not modelled.
- BenchmarkDbs.BenchmarkDbs.CommitXact: a commit that fails, which the code answers with an abort, is not modelled.
- BenchmarkDbs.BenchmarkDbs.AbortXact: an abort that itself fails is not modelled.
- BenchmarkDbs.BenchmarkDbs.Execute: viewing portfolios only prints, and is taken to succeed.
