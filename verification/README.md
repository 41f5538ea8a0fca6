# A verified model of the report framework's core

The framework keeps a local copy of a user's trading history and builds reports from it. This project
models the parts of it that are loops over changing state whose outcome should match something simple,
and proves that it does. All paths below start at the root of the framework's repository.

**Tax lots.** `LotMatching` defines one turn of the inner and of the outer loop of the look-up on
values and the pass that they add up to; `LookUpTrades` and `LookUpLoops` are the loops themselves, on
objects that they update in place, proved to compute that pass. About the pass: fills stay between zero
and the amount (`LotProgress`), every match of a priced buy moves something (`LotMoves`), both sides'
books balance (`LotBooks`, `LotGains`), a sale takes all it can and FIFO takes the oldest lots first
(`LotDiscipline`), and the rows say what the transactions and their matches make (`TaxFigures`).
`TaxReport` is the report with its two look-ups; `PeriodSafety` and `ReportRows` carry all this over
to the second one, which starts from partly used and newly priced lots, and `ReportRun` is a report in
figures; `PeriodSplit`, `PeriodMerge` and `PeriodTheorem` prove that in FIFO these two give the period
exactly what one look-up on the whole history gives it, and that in LIFO they need not. `TrxPrices` and `FindPublicTrade` are the prices the look-up works with.

**Data access.** `DaoSerialiser` is the protocol by which queued queries and transactions wait for each
other, as a machine over the steps between two awaits; `BetterSqliteDao` takes the same steps on the
sets of promises. `TempTableMove` is the copy of a temporary table in chunks.

**Ledgers.** `LedgerRows` and `LedgerPages` compare the balance computed from one page with the balance
of the whole table, which `LedgerSums` proves to be a sum; `LedgerPaging` and `LedgerCoverage` say which rows the pages reach; `LedgerRecalc`
is the recalculation on the table and `LedgerRun` one in figures; `LedgerTies` says which items a page can get wrong, `LedgerStall` shows
rows that are never reached.

**Sync queue.** `SyncJobs` and `SyncQueue` are adding and processing jobs, `SyncHistory` the whole life
of a queue with overlapping calls and restarts, `SyncProgress` the progress figure and `SyncOvershoot`
what additions during a run do to it.

**Time series.** `TimeFrames`, `GroupByTimeframe`, `SetMtsToFrames`, `MergeData`, `CalcGroupedData` and
`CarryForward` are the grouping by time frames, the join on timestamps, the calculation over the joined
rows and the carried wallet balances.

**Public collections.** `PublicConf` reconciles the stored configuration with a requested one;
`PublicConfHistory` lets the steps of several edits overlap.

Amounts, prices and balances are reals. An absent or non-finite number is `None`. A loop's interleaving
with the rest of the process is given by parameters where it matters (`rounds` in the sync queue, the
steps of `DaoSerialiser`), and so are the market prices (`quote`) and the calendar (`cal`).

Some results differ from what one might expect of the code:

- The pages of the ledger recalculation skip only the rows of the page before. If two pages of rows
  share a moment and another row follows, the paging returns to the same rows until its cap and never
  gets further. `LedgerCoverage.EveryRowIsReached` says that this is the only obstacle;
  `LedgerStall.LastRowIsNotRecalced` is a recalculation of 40001 rows that meets it.
- What a page finds for an item of one sub-account depends on where the page begins exactly when another
  sub-account of the user is tied with it: it has, in the same wallet and currency, a row that counts for
  the item and one of the same moment with a higher entry number (`LedgerTies.EveryPageFindsUnlessTied`).
  `LedgerTies.TieMakesPagesMatter` is a recalculation that writes 3 instead of 8 for that reason.
- A job that a restart leaves locked, after runs that looked at all jobs, is taken up again exactly when
  the first look after the restart is made by someone who may see it; otherwise it stays locked, and blocks
  new jobs for its collection, until the next restart (`SyncHistory.LeftBehindIsTakenUp`,
  `SyncHistory.NotTakenUpStaysLocked`).
- `add` reads the pending jobs and inserts later. Two overlapping calls of one user that ask for
  everything both find nothing pending and both insert (`SyncHistory.OverlappingCallsDuplicate`). Over any
  history there are no duplicates exactly when every insertion finds its names distinct and not pending
  for its owner (`SyncHistory.NoDuplicatesExactly`), which holds as long as no owner has two calls on the
  way at once (`SyncHistory.AloneNeverDuplicates`).
- An undisturbed `add` compares a request with itself only if something is pending; a request that repeats
  a collection is inserted as it is into a queue without pending jobs (`SyncJobs.ReadIsClear`).
- Jobs that are added while a run goes on can take its progress beyond 100
  (`SyncOvershoot.AddingWhileRunningOvershoots`), exactly when something that weighs is added after a job
  that weighs something has ended; its last telling, of 100, is its end
  (`SyncOvershoot.WithinExactlyIfLateJobsAreFree`). They can also take it back
  (`SyncOvershoot.AddingWhileRunningGoesBack`), but not as long as nothing that weighs is added between two
  tellings of such a job (`SyncOvershoot.CalmReportsClimb`).
- An edit of a stored configuration reads, inserts, removes and updates in separate steps. Two overlapping
  edits of one user can store a symbol twice (`PublicConfHistory.OverlappingEditsStoreTwice`). An insertion
  does so exactly when one of its keys has been stored since its edit read
  (`PublicConfHistory.StoresOnceExactly`); an edit that is the only one of its user and configuration on
  the way has its full effect, whatever other edits come in between (`PublicConfHistory.AloneIsExact`).
- A buy hands on its fee in proportion to what it has left, which shrinks, while its fee does not. Two
  sales that use up one buy therefore take its whole fee and a share of it besides, unless the fee is zero
  or the first of them takes nothing (`LotProgress.FeeIsTakenAgain`).
- A price derived from the cached value is an absolute value, so it comes back exactly when it was
  positive (`TrxPrices.TradeRoundTrip`, `TrxPrices.MovementRoundTrip`).
- Grouping data without any integer date by a time frame calls the calculation once, on nothing.

## Model

| member | source | states |
|---|---|---|
| LookUpTrades.TrxRecord.Fill | workers/loc.api/sync/transaction.tax.report/helpers/look-up-trades.js:287-368 | the three fill branches on two transaction objects leave both as the value-level fill says, the fee share of a partial fill included |
| LookUpTrades.TrxRecord.MeetBuy | workers/loc.api/sync/transaction.tax.report/helpers/look-up-trades.js:215-368 | one turn of the inner loop on two objects: what is skipped, what throws, what only loses its price, what is filled |
| LookUpTrades.TrxRecord.CloseSale | workers/loc.api/sync/transaction.tax.report/helpers/look-up-trades.js:371-383 | the asset, amount, acquisition and sale time, proceeds and gain written on a sale after its inner loop |
| LookUpLoops.LookUpBuys | workers/loc.api/sync/transaction.tax.report/helpers/look-up-trades.js:190-369 | the inner loop in either direction changes the sale and the older transactions as the value-level scan does, and nothing before the sale |
| LookUpLoops.LookUpSale | workers/loc.api/sync/transaction.tax.report/helpers/look-up-trades.js:73-384 | one turn of the outer loop: classification, the error for a pair that cannot be split, the missing price, the matching |
| LookUpLoops.LookUpSales | workers/loc.api/sync/transaction.tax.report/helpers/look-up-trades.js:48-384 | both loops, oldest or newest sale first, turn the objects into the result of the pass; after an error everything is as far as it got |
| LotProgress.MatchMovesTheSmallerRest | workers/loc.api/sync/transaction.tax.report/helpers/look-up-trades.js:296-357 | one match moves exactly the smaller of the two rests, which is positive when the amounts are, so the division of the fee share is never by zero; whichever side had it ends filled |
| LotProgress.MatchTakesItsShareOfTheFee | workers/loc.api/sync/transaction.tax.report/helpers/look-up-trades.js:324-357 | what one match adds to the fees of the sale is to the fee of the buy as the quantity is to what the buy had left |
| LotProgress.FeeIsTakenAgain | workers/loc.api/sync/transaction.tax.report/helpers/look-up-trades.js:336-344 | of two sales that use a buy up the second takes its whole fee, so together they take the fee if and only if it is zero or the first took nothing |
| LotMoves.PassMatches | workers/loc.api/sync/transaction.tax.report/helpers/look-up-trades.js:284-357 | over any pass, in any direction and also with an error, a match moves a strictly positive quantity exactly when its buy has a price, which it always has when all is valued at zero, and a sale that met a buy without a price is marked |
| TrxPrices.RemappedHaveAmounts | workers/loc.api/sync/transaction.tax.report/helpers/remap-trades.js:15-24 | what the remappers hand over has an execution price or is traded for fiat, as that result asks of the transactions |
| LotProgress.PassFilled | workers/loc.api/sync/transaction.tax.report/helpers/look-up-trades.js:52-384 | over any pass, in any direction and also with an error, every fill stays between zero and the amount and the flag is set exactly when fill and amount are equal |
| LotProgress.ScanKeepsSales | workers/loc.api/sync/transaction.tax.report/helpers/look-up-trades.js:204-369 | the inner loop writes nothing on older transactions but their buy side |
| LotBooks.PassBalances | workers/loc.api/sync/transaction.tax.report/helpers/look-up-trades.js:316-357 | per asset and over all assets, what a pass adds to the sale fills, the sales' cost and the value of the fills at the sale price is what it adds to the buy fills, the value at the buy price and the buys' proceeds |
| LotGains.DoubleEntry | workers/loc.api/sync/transaction.tax.report/helpers/look-up-trades.js:316-368 | on fresh input the totals of both sides are equal: fill with fill, buys' proceeds with sale fill times sale price, sales' cost with buy fill times buy price |
| LotGains.PassSettles | workers/loc.api/sync/transaction.tax.report/helpers/look-up-trades.js:359-383 | after a pass in any direction every filled buy, kept from the period before or not, says what was bought and when and carries what it brought less its cost as its gain, and every priced sale that is not kept its proceeds less its cost plus the fees |
| LotGains.GainsAgree | workers/loc.api/sync/transaction.tax.report/helpers/look-up-trades.js:364-383 | without fee deduction, when all is matched in full, the gains over the sales equal the gains over the buys |
| TaxFigures.PassTells | workers/loc.api/sync/transaction.tax.report/helpers/look-up-trades.js:121-383 | after a pass in any direction over transactions that are newest first, every transaction that is not kept is marked without a price exactly when what it sells has none or it met a buy that has none; otherwise, if it sells something, it says the currency, the amount, the proceeds at the price of that currency, as its cost the sum of the matched quantities at the prices of their buys, the gain with its own fee and those of the matches, and the earliest matched moment; all matches are with older transactions that buy the currency |
| TaxFigures.EndIsEarliest | workers/loc.api/sync/transaction.tax.report/helpers/look-up-trades.js:373-378 | of matches collected in one direction of time, either one, the moment that is kept is the earliest |
| TaxFigures.RowsTell | workers/loc.api/sync/transaction.tax.report/helpers/look-up-trades.js:386-453 | such transactions give exactly one row each, in order, if they are payments or sell something and are not marked, with these figures |
| LotDiscipline.ScanExhausts | workers/loc.api/sync/transaction.tax.report/helpers/look-up-trades.js:204-369 | a sale that ends unfilled leaves every wanted buy in its range filled |
| LotDiscipline.ScanTakesInOrder | workers/loc.api/sync/transaction.tax.report/helpers/look-up-trades.js:190-357 | a buy is only taken from when every wanted buy visited before it is filled, so all consumed buys but the last end filled |
| LotDiscipline.PassGrows | workers/loc.api/sync/transaction.tax.report/helpers/look-up-trades.js:316-357 | no pass takes a fill back or unsets a flag |
| LotDiscipline.PassExhausts | workers/loc.api/sync/transaction.tax.report/helpers/look-up-trades.js:52-384 | after a whole pass in any direction a priced sale that is not filled leaves no older buy of its asset with anything left |
| LotDiscipline.FifoTakesOldestFirst | workers/loc.api/sync/transaction.tax.report/helpers/look-up-trades.js:190-369 | in FIFO on fresh input, when anything is taken from a buy, every older buy of the asset is filled |
| LotDiscipline.FifoLeavesOnePartlyFilled | workers/loc.api/sync/transaction.tax.report/helpers/look-up-trades.js:190-369 | in FIFO on fresh input no two buys of an asset are partly filled |
| TaxReport.Collect | workers/loc.api/sync/transaction.tax.report/helpers/look-up-trades.js:386-453 | the last loop returns the rows of the realised sales, which `TaxFigures.RowsTell` is about, and, when asked to, marks and returns the very objects of the buys that are not used up |
| TaxRows.LeftoversAreKept | workers/loc.api/sync/transaction.tax.report/helpers/look-up-trades.js:386-397 | the buys kept are, in order, exactly those not marked without a price that have been seen to buy something and have something left |
| TaxReport.LookUp | workers/loc.api/sync/transaction.tax.report/helpers/look-up-trades.js:23-458 | a look-up gives the rows and the left-over buys of the pass on what the objects held before, and leaves them as the pass does |
| TaxReport.GetTransactionTaxReport | workers/loc.api/sync/transaction.tax.report/index.js:131-217 | the report on shared objects equals the two look-ups on values: the history first, its left-over buys behind the period, the prices that lack, the period; its rows are exactly one, in order, for each payment and each sale of the period that is not marked, with the figures that the transactions and their matches make |
| ReportRows.ReportTells | workers/loc.api/sync/transaction.tax.report/index.js:144-216 | in FIFO and in LIFO each row says the asset, amount, proceeds, cost over its matches, gain, time of the sale and earliest time of its matches, or amount times price plus fee for a payment; which transactions of the period have none because of a missing price; and that their matches are with older transactions, of the period or left over, that buy what they sell |
| ReportRows.ReportTakesAllItCan | workers/loc.api/sync/transaction.tax.report/index.js:185-195 | when the matches of a sale of the period do not make up its amount, every older transaction that buys its currency at a known price has given all it bought |
| ReportRun.Run | workers/loc.api/sync/transaction.tax.report/index.js:144-216 | a report in figures: a payment, a sale for dollars and a swap, the latter two fed by one earlier buy with a fee, give three rows of literal values |
| TaxRows.RowsOfCurrentOnly | workers/loc.api/sync/transaction.tax.report/helpers/look-up-trades.js:399-410 | buys kept from the time before the period give no rows of the report |
| PeriodSplit.PassTwins | workers/loc.api/sync/transaction.tax.report/index.js:157-169 | a look-up that values everything at zero, on transactions without prices, fills exactly what a look-up with prices fills |
| PeriodSafety.SecondInputIsFilled | workers/loc.api/sync/transaction.tax.report/index.js:171-183 | whatever the strategy, the left-over buys are still well filled once they are priced, and so is all that the second look-up starts from |
| PeriodSafety.ReportFills | workers/loc.api/sync/transaction.tax.report/index.js:157-195 | in FIFO and in LIFO both look-ups keep every fill between zero and the amount with the right flags, and the second one takes no fill back |
| PeriodSafety.ReportExhausts | workers/loc.api/sync/transaction.tax.report/index.js:185-195 | in FIFO and in LIFO a priced sale of the period that is not filled leaves no older buy of its asset, of the period or left over, with anything left |
| PeriodSafety.ReportGains | workers/loc.api/sync/transaction.tax.report/index.js:185-195 | so do, in FIFO and in LIFO, the sales of the period and the buys in the second look-up of the report |
| PeriodSafety.FirstMatchesAreReal | workers/loc.api/sync/transaction.tax.report/index.js:157-169 | every match of the first look-up moves a strictly positive quantity |
| PeriodSafety.ReportMatchesMove | workers/loc.api/sync/transaction.tax.report/index.js:157-195 | in FIFO and in LIFO every match of both look-ups moves a strictly positive quantity exactly when its buy had a price |
| PeriodTheorem.FirstLookUpKeeps | workers/loc.api/sync/transaction.tax.report/index.js:144-183 | what the first look-up keeps is what remains of the priced history after one FIFO pass, but for transactions no sale can use |
| PeriodMerge.PassAgrees | workers/loc.api/sync/transaction.tax.report/index.js:171-195 | a FIFO pass over the period behind which the used-up lots have been dropped does to the period what the pass behind the whole history does |
| PeriodTheorem.FifoSplitIsExact | workers/loc.api/sync/transaction.tax.report/index.js:144-216 | in FIFO, with prices known, the two look-ups give every transaction of the period the matches, quantities, cost, fees, times and gain of one look-up on the whole history, and the report is the rows of that |
| PeriodTheorem.LifoSplitDiffers | workers/loc.api/sync/transaction.tax.report/index.js:154-195 | three earlier transactions and one sale for which, in LIFO, the sale costs 10 in the report and 20 in one look-up |
| TrxPrices.TrxPriceCalculator.CalcPrice | workers/loc.api/sync/transaction.tax.report/helpers/trx.price.calculator.js:38-104 | which prices and which cached value are written for either side and with triangulation, and that nothing but the quote is written when it throws |
| TrxPrices.PricesAreConsistent | workers/loc.api/sync/transaction.tax.report/helpers/trx.price.calculator.js:62-104 | whichever side was quoted, it has the quote as its price, the first price is the last price times the execution price, and the cached value is the amount at the first price |
| TrxPrices.FeeIsItsWorth | workers/loc.api/sync/transaction.tax.report/helpers/get-trx-fee-usd.js:5-33 | a fee counts, when fees are deducted and for payments only in their own row, at the price of the side it was paid in, the same as its worth on the other side, and not at all in a third currency |
| TrxPrices.RemapTrades | workers/loc.api/sync/transaction.tax.report/helpers/remap-trades.js:14-70 | the loop rewrites usable trades in place and returns, as the same objects, the remapped ones and those that need a market price: against USD the execution price is the price and one that of the dollar; with a cached value the amount at the price makes that value, and the first price is the absolute value of the last one times the execution price; otherwise there are no prices, and only those need the market |
| TrxPrices.RemappedAreRight | workers/loc.api/sync/transaction.tax.report/helpers/remap-trades.js:14-70 | that this is so for any trades, and nothing but prices, fee and kind is changed |
| TrxPrices.UsdSaleBringsItsPrice | workers/loc.api/sync/transaction.tax.report/helpers/remap-trades.js:45-49 | so a sale for dollars has its amount times its execution price as its proceeds |
| TrxPrices.TradeRoundTrip | workers/loc.api/sync/transaction.tax.report/helpers/remap-trades.js:51-65 | prices derived again from the cached value are the absolute values of the original ones, and so equal to them if and only if the quote and the execution price are positive |
| TrxPrices.RemapMovements | workers/loc.api/sync/transaction.tax.report/helpers/remap-movements.js:15-98 | the loop returns the remapped movements in order and those that need a market price |
| TrxPrices.MovementIsPriced | workers/loc.api/sync/transaction.tax.report/helpers/remap-movements.js:36-97 | a remapped movement is its amount against USD; its price, also its execution price, makes its cached value, or is one for a payment in USD, or is missing, and exactly then the market is asked |
| TrxPrices.MovementRoundTrip | workers/loc.api/sync/transaction.tax.report/helpers/remap-movements.js:82-95 | a movement priced from its cached value is the one priced from the market if and only if the quote is positive |
| FindPublicTrade.Find | workers/loc.api/sync/transaction.tax.report/helpers/find-public-trade.js:3-23 | the search ends, finds the trade of the moment if there is one, and a neighbour of the moment otherwise; it finds nothing only in nothing |
| DaoSerialiser.StepKeepsInv | workers/loc.api/sync/dao/dao.better.sqlite.js:119-259 | every step of every interleaving keeps the sets complete, the waits right and the turns in order |
| DaoSerialiser.InvHoldsAlways | workers/loc.api/sync/dao/dao.better.sqlite.js:119-259 | so these hold in every state of every run |
| DaoSerialiser.RunsAlone | workers/loc.api/sync/dao/dao.better.sqlite.js:165-259 | while a transaction body runs no other body and no queued query runs |
| DaoSerialiser.NothingOverlaps | workers/loc.api/sync/dao/dao.better.sqlite.js:132-259 | in every run two bodies never overlap, and no queued query executes from the moment a transaction enters the serialiser until its call has settled |
| DaoSerialiser.BodiesRunInOrder | workers/loc.api/sync/dao/helpers/manage-transaction/index.js:3-29 | in every run the bodies begin in the order of entry, each after all before it have settled |
| DaoSerialiser.WaitsForDescends | workers/loc.api/sync/dao/dao.better.sqlite.js:132-259 | in every run the waits-for relation goes down in a fixed order and so has no cycle |
| DaoSerialiser.EveryStepCounts | workers/loc.api/sync/dao/dao.better.sqlite.js:119-259 | every step that is not a new call uses up one of finitely many steps |
| DaoSerialiser.NobodyWaitsForever | workers/loc.api/sync/dao/dao.better.sqlite.js:119-259 | as long as a call is pending or in a set some step is possible, so every call settles and is removed |
| DaoSerialiser.SchedulesEnd | workers/loc.api/sync/dao/dao.better.sqlite.js:119-259 | without new calls every run can be continued by exactly the steps that are left, in whatever order, and then all calls have settled and all sets are empty |
| DaoSerialiser.QueuedQueryInsideBodyWaitsForIt | workers/loc.api/sync/dao/dao.better.sqlite.js:128-136 | a queued query issued while a body runs waits for that body's transaction, which is why bodies issue unqueued ones |
| BetterSqliteDao.Dao.RunToTheEnd | workers/loc.api/sync/dao/dao.better.sqlite.js:119-259 | the code of the steps, driven until none is possible with any preference between the calls, ends with all calls settled and out of the sets |
| BetterSqliteDao.Dao.CallQuery | workers/loc.api/sync/dao/dao.better.sqlite.js:132-138 | a query takes the pending transactions and adds itself to the queries; the invariant holds |
| BetterSqliteDao.Dao.BeginTrans | workers/loc.api/sync/dao/dao.better.sqlite.js:227-247 | a transaction takes the pending queries and adds itself to the transactions; the invariant holds |
| BetterSqliteDao.Dao.ManageTransaction | workers/loc.api/sync/dao/helpers/manage-transaction/index.js:9-17 | on entering the serialiser a body takes the bodies that are pending and adds itself |
| BetterSqliteDao.Dao.StartBody | workers/loc.api/sync/dao/helpers/manage-transaction/index.js:11-15 | a body begins when those it took have settled, and then nothing else runs |
| BetterSqliteDao.Dao.EndBody | workers/loc.api/sync/dao/helpers/manage-transaction/index.js:19-28 | a settled body removes exactly itself from the serialiser, with or without an error, before the call around it settles |
| TempTableMove.MainTable.MoveTempTableDataToMain | workers/loc.api/sync/dao/dao.better.sqlite.js:580-627 | for any gaps between the ids and any positive chunk length the copy ends, visits every row once in the order of the ids, and leaves the main table as one insert-or-replace pass over all rows |
| TempTableMove.UpsertAppend | workers/loc.api/sync/dao/dao.better.sqlite.js:609-616 | inserting two stretches one after the other is inserting both at once |
| TempTableMove.OtherKeysStay | workers/loc.api/sync/dao/dao.better.sqlite.js:609-616 | a key without a temporary row keeps what it had |
| TempTableMove.LastRowWins | workers/loc.api/sync/dao/dao.better.sqlite.js:609-616 | of several rows with one key the one with the highest id is stored at the end |
| LedgerRows.FindIsNewest | workers/loc.api/sync/data.inserter/hooks/recalc.sub.account.ledgers.balances.hook.js:88-109 | in records sorted newest first the row found for a sub-account is its newest one at or before the item, and nothing is found only if there is none |
| LedgerPages.FairPageIsRight | workers/loc.api/sync/data.inserter/hooks/recalc.sub.account.ledgers.balances.hook.js:374-404 | page independence: for an item that no other sub-account is tied with, the balance computed from a page and the rows fetched for it is that of the whole table |
| LedgerSums.WholeTableBalanceIsSum | workers/loc.api/sync/data.inserter/hooks/recalc.sub.account.ledgers.balances.hook.js:36-148 | the balance of the whole table is, in each column, the sum over the set of the sub-accounts of the user of what there is of that column in their latest rows at or before the item, the own value of the row where there is nothing, and it is marked exactly when the user has sub-accounts |
| LedgerSums.RecalcBalanceIsSum | workers/loc.api/sync/data.inserter/hooks/recalc.sub.account.ledgers.balances.hook.js:36-148 | the same of the balance computed on a page, over the records of the page |
| LedgerPages.PageIsFair | workers/loc.api/sync/data.inserter/hooks/recalc.sub.account.ledgers.balances.hook.js:352-365 | every page the query can return is one to which that applies |
| LedgerPaging.StepForward | workers/loc.api/sync/data.inserter/hooks/recalc.sub.account.ledgers.balances.hook.js:352-419 | the next page holds the rows at the cursor's moment that were not on the page before and then new rows, at least one |
| LedgerCoverage.PagesReach | workers/loc.api/sync/data.inserter/hooks/recalc.sub.account.ledgers.balances.hook.js:345-420 | after any number of pages the rows reached are exactly a prefix in the order of time and entry number, of at least half a page for each page |
| LedgerCoverage.PrefixGrows | workers/loc.api/sync/data.inserter/hooks/recalc.sub.account.ledgers.balances.hook.js:345-420 | the next page makes this prefix strictly longer as long as rows are left |
| LedgerCoverage.EveryRowIsReached | workers/loc.api/sync/data.inserter/hooks/recalc.sub.account.ledgers.balances.hook.js:345-420 | every row is on some page if and only if nowhere two pages of rows share a moment and another row follows them |
| LedgerStall.LastRowIsNotRecalced | workers/loc.api/sync/data.inserter/hooks/recalc.sub.account.ledgers.balances.hook.js:291-421 | a recalculation of 40001 rows of one moment, with pages of 20000, leaves the last one as it was |
| LedgerRecalc.GetInitialElems | workers/loc.api/sync/data.inserter/hooks/recalc.sub.account.ledgers.balances.hook.js:200-286 | the nested loops fetch, per first row of a group and other sub-account, its latest row up to that moment |
| LedgerRecalc.LedgersTable.WritePage | workers/loc.api/sync/data.inserter/hooks/recalc.sub.account.ledgers.balances.hook.js:374-411 | the rows of a page get the balances computed from its records and no other row changes |
| LedgerRecalc.LedgersTable.WritePages | workers/loc.api/sync/data.inserter/hooks/recalc.sub.account.ledgers.balances.hook.js:345-420 | after at most 1000 pages every row has what the last page that held it makes of it, which for an untied row is the balance of the whole table; fewer pages mean that none is left |
| LedgerRecalc.LedgersTable.Execute | workers/loc.api/sync/data.inserter/hooks/recalc.sub.account.ledgers.balances.hook.js:291-421 | every untied row on the pages gets, in both columns, the sum of the latest rows of the sub-accounts; if no moment holds the paging up and the pages do not run out, these are all untied rows from the first unrecalculated moment on |
| LedgerRecalc.FirstIsFirst | workers/loc.api/sync/data.inserter/hooks/recalc.sub.account.ledgers.balances.hook.js:321-343 | it begins at the earliest row of a sub-account of the users in question that is not marked as recalculated, and nothing is done only if there is none |
| LedgerRun.Run | workers/loc.api/sync/data.inserter/hooks/recalc.sub.account.ledgers.balances.hook.js:291-421 | a recalculation in figures: 2 BTC worth 60000 of one sub-account and 3 BTC without a worth of another give 2 and 60000, then 5 and 60000 |
| LedgerTies.EveryPageFindsUnlessTied | workers/loc.api/sync/data.inserter/hooks/recalc.sub.account.ledgers.balances.hook.js:88-109 | for a page of any length, every page that holds an item finds the latest row of another sub-account if and only if the two are not tied |
| LedgerTies.FirstPageFindsUnlessTied | workers/loc.api/sync/data.inserter/hooks/recalc.sub.account.ledgers.balances.hook.js:200-285 | the first page of a run that begins at the item's moment misses that row if and only if the two are tied and the row is of an earlier moment |
| LedgerTies.TieMakesPagesMatter | workers/loc.api/sync/data.inserter/hooks/recalc.sub.account.ledgers.balances.hook.js:291-421 | a recalculation of three rows, two of one moment, with pages of 20000 writes 3 where the balance of the whole table is 8 |
| SyncJobs.UniqueNamesAreNew | workers/loc.api/sync/sync.queue/index.js:390-401 | the names chosen are distinct, requested and not pending, and every requested name is chosen or pending |
| SyncJobs.RequestedIsDecided | workers/loc.api/sync/sync.queue/index.js:114-155 | for every call and queue: nothing is inserted while a job for all collections waits, runs or has failed that is of the scheduler, of the asking user or, for the scheduler, of a signed-in user; if there is another such job, exactly the requested collections that have none, once each, in the order of their first request; otherwise the request as it is |
| SyncJobs.GetNext | workers/loc.api/sync/sync.queue/index.js:403-432 | the job chosen is the candidate with the lowest id, and none is chosen only if there is none |
| SyncJobs.NextHasLowestId | workers/loc.api/sync/sync.queue/index.js:403-432 | it has the lowest id of all that wait, have failed or, in the first look, were left locked, and are visible to the one who looks |
| SyncJobs.InsertKeepsNoDuplicates | workers/loc.api/sync/sync.queue/index.js:139-161 | an insertion keeps the queue free of two pending jobs of one owner and collection if and only if at that moment its names are distinct and none is pending for the owner |
| SyncJobs.ReadIsClear | workers/loc.api/sync/sync.queue/index.js:120-147 | while nothing has changed, what a call decides to insert is so if and only if the call repeats no collection or is compared with pending jobs |
| SyncQueue.SyncQueue.BeginAdd | workers/loc.api/sync/sync.queue/index.js:83-155 | both errors, the scheduler without users, and what is decided on the pending jobs that are read, as in `SyncJobs.RequestedIsDecided` |
| SyncQueue.SyncQueue.EndAdd | workers/loc.api/sync/sync.queue/index.js:156-161 | the jobs appended, whatever has happened since the reading, and when that makes duplicates |
| SyncQueue.SyncQueue.Add | workers/loc.api/sync/sync.queue/index.js:83-162 | a call that nothing comes between: both errors, the new jobs of the owner, in the order of the names decided as in `SyncJobs.RequestedIsDecided`, and when that makes duplicates |
| SyncQueue.SyncQueue.PickJobs | workers/loc.api/sync/sync.queue/index.js:164-202 | the loop with calls of `add` during any job: which jobs it picked, the state it left each in on each of the five exits, that none that was due was passed over |
| SyncQueue.SyncQueue.Process | workers/loc.api/sync/sync.queue/index.js:164-258 | on every exit the picked ids ascend, are at most ten and none is locked; all other jobs keep their state, only finished ones are removed; a drained run leaves nothing due |
| SyncQueue.CleanedLeavesTheLast | workers/loc.api/sync/sync.queue/index.js:434-443 | at most a hundred finished jobs stay and each was updated after every one that went |
| SyncQueue.CleanedLeavesAHundred | workers/loc.api/sync/sync.queue/index.js:434-443 | and all jobs stay or exactly a hundred finished ones do |
| SyncHistory.NoDuplicatesExactly | workers/loc.api/sync/sync.queue/index.js:83-258 | over any history, with any number of overlapping calls of `add`, an owner never has two pending jobs of one collection if and only if every insertion finds its names distinct and not pending for the owner |
| SyncHistory.AloneNeverDuplicates | workers/loc.api/sync/sync.queue/index.js:83-162 | as long as no owner has two calls on the way at once, and none repeats a collection it compares with nothing, there are never duplicates |
| SyncHistory.OverlappingCallsDuplicate | workers/loc.api/sync/sync.queue/index.js:130-161 | two overlapping calls of one user for all collections leave two pending jobs for them |
| SyncHistory.LockedMeansRunning | workers/loc.api/sync/sync.queue/index.js:164-258 | over any history of runs that look at all jobs, a locked job is the one that runs or the one a restart left behind, before the first look, and all before it are finished |
| SyncHistory.LeftBehindIsTakenUp | workers/loc.api/sync/sync.queue/index.js:403-432 | after a restart the first look takes up the job left behind if and only if the one who looks may see it |
| SyncHistory.NotTakenUpStaysLocked | workers/loc.api/sync/sync.queue/index.js:417-423 | otherwise it stays locked over any history up to the next restart |
| SyncHistory.AbandonedIsStuck | workers/loc.api/sync/sync.queue/index.js:445-459 | so does a job whose last update of the state fails |
| SyncProgress.WeightIsShareOfColls | workers/loc.api/sync/sync.queue/index.js:267-292 | a job weighs as many of the synced collections as it stands for: all, the private ones, the public ones or one |
| SyncProgress.WholeOfOneMore | workers/loc.api/sync/sync.queue/index.js:294-331 | a pending job counts in what shares are shares of if and only if it is the owner's, or there is none, and among the first ten such jobs |
| SyncProgress.ShareIsAtMost | workers/loc.api/sync/sync.queue/index.js:294-376 | a job's share is not negative and at most its weight over the weight of the owner's jobs of the run, for a queue of any length |
| SyncProgress.SharesAreAtMostOne | workers/loc.api/sync/sync.queue/index.js:294-376 | the shares of a run add up to no more than one at any time |
| SyncProgress.SharesMakeOne | workers/loc.api/sync/sync.queue/index.js:294-376 | for at most ten jobs of one owner they add up to exactly one |
| SyncProgress.ReportsClimb | workers/loc.api/sync/sync.queue/index.js:461-478 | with the progress of each job climbing in 0..100 over a queue that stays as it is, the reported figures never go down and stay in 0..100 |
| SyncProgress.ProgressOfRun.AsyncProgressHandler | workers/loc.api/sync/sync.queue/index.js:461-478 | what is reported for one figure of one job, and when nothing is |
| SyncProgress.ProgressOfRun.Process | workers/loc.api/sync/sync.queue/index.js:164-258 | whatever is added meanwhile, the run sends out exactly these figures and 100 at the end unless interrupted; over a queue that stays as it is they never go down or exceed 100 |
| SyncOvershoot.ShareAgainstAll | workers/loc.api/sync/sync.queue/index.js:343-376 | measured against all jobs of the run a share is at least its job's weight, and equal to it if and only if nothing that weighs anything was missing from the queue |
| SyncOvershoot.WithinExactlyIfLateJobsAreFree | workers/loc.api/sync/sync.queue/index.js:164-258 | a run of at most ten jobs of one owner, to which jobs are added, ends at no more than 100 if and only if none that weighs anything is added after one that does has last told its progress, which is its end |
| SyncOvershoot.ReportsStayWithin | workers/loc.api/sync/sync.queue/index.js:461-478 | then every figure of the run is between 0 and 100 |
| SyncOvershoot.FigureExceedsExactly | workers/loc.api/sync/sync.queue/index.js:461-478 | jobs tell whole figures: one can report more than 100 if and only if it would at 99, that is if the level there is at least 100.5 |
| SyncOvershoot.AddingWhileRunningOvershoots | workers/loc.api/sync/sync.queue/index.js:164-258 | a run to its end, to which a third job is added while the second one runs, sends out 50, 75, 83, 116 and 100 |
| SyncOvershoot.GoesDownExactly | workers/loc.api/sync/sync.queue/index.js:294-376 | what a job tells again is reported lower if and only if the job weighs something and something that weighs has been added in between |
| SyncOvershoot.CalmReportsClimb | workers/loc.api/sync/sync.queue/index.js:461-478 | if that never happens the figures of a run never go down |
| SyncOvershoot.AddingWhileRunningGoesBack | workers/loc.api/sync/sync.queue/index.js:164-258 | a run to its end, to whose only job a second one is added before it ends, sends out 99, 75 and 100 |
| GroupByTimeframe.GroupByTimeframe | workers/loc.api/sync/helpers/group-by-timeframe.js:146-268 | one call per distinct frame, oldest first, on exactly the frame's rows in their order; no row lost or counted twice, sorted or not; the groups come out strictly newest first, each in its own frame; one call without a named frame |
| GroupByTimeframe.RunIsCalls | workers/loc.api/sync/helpers/group-by-timeframe.js:103-144 | the calls are made one after the other, each with the state the one before left and the start of its frame, the given number or the date of its oldest row as its moment; the groups are exactly what they gave |
| GroupByTimeframe.CallsAreFrames | workers/loc.api/sync/helpers/group-by-timeframe.js:32-51 | parts that have one frame each, ascending, and make up the dated rows are the filters of the data by frame, and no frame is missing |
| GroupByTimeframe.ChainIsFrames | workers/loc.api/sync/helpers/group-by-timeframe.js:172-265 | for newest-first data there is only one way to split it so: one part per distinct frame, ascending, none empty |
| GroupByTimeframe.FramesAscend | workers/loc.api/sync/helpers/group-by-timeframe.js:32-51 | the distinct frames of newest-first data, as its rows first show them from the end, ascend and are exactly the frames of dated rows |
| GroupByTimeframe.GroupsAddUp | workers/loc.api/sync/helpers/group-by-timeframe.js:172-265 | sums over the groups make the sum over the dated data |
| GroupByTimeframe.GroupsHaveOwnFrames | workers/loc.api/sync/helpers/group-by-timeframe.js:103-144 | whatever groups the calculation leaves empty, the others carry the start of their own frame, later frames first |
| SetMtsToFrames.SetMtsToStartingAndEndingFrames | workers/loc.api/sync/helpers/set-mts-to-starting-and-ending-frames.js:18-56 | which moments are rewritten in place, and that a single group takes only the end |
| SetMtsToFrames.RewrittenExactly | workers/loc.api/sync/helpers/set-mts-to-starting-and-ending-frames.js:7-56 | a moment is rewritten if and only if the requested one lies in the frame of its group or there is no named frame |
| SetMtsToFrames.OrderAndFramesStay | workers/loc.api/sync/helpers/set-mts-to-starting-and-ending-frames.js:7-56 | with a named frame the list stays strictly newest first and every group stays in its frame, wherever start and end lie |
| SetMtsToFrames.OrderWithoutFrames | workers/loc.api/sync/helpers/set-mts-to-starting-and-ending-frames.js:7-16 | without one the order stays if and only if start and end fit around the moments between |
| MergeData.PutItem | workers/loc.api/sync/helpers/calc-grouped-data.js:46-103 | one row goes to the front, the end, over the row of its moment or between two, so that the list stays strictly descending and only that moment's values under that key change |
| MergeData.MergeInputs | workers/loc.api/sync/helpers/calc-grouped-data.js:31-107 | for inputs in any order and of any lengths the two loops compute the join of all of them |
| MergeData.JoinIsOuterJoin | workers/loc.api/sync/helpers/calc-grouped-data.js:31-107 | the join is strictly descending, has exactly the moments of the valid rows, and under each key the last values for the moment |
| MergeData.JoinIsUnique | workers/loc.api/sync/helpers/calc-grouped-data.js:31-107 | what is said of the join determines it: two lists that satisfy it are equal |
| CalcGroupedData.CalcGroupedData | workers/loc.api/sync/helpers/calc-grouped-data.js:132-188 | the calculation visits every row of the join once, in the order of time or against it, each time with the state the visit before left; the results are exactly what the visits gave, under the moments of their rows, newest first either way |
| CalcGroupedData.AreCalculated | workers/loc.api/sync/helpers/calc-grouped-data.js:132-188 | that this is so of either recursion over any rows that are newest first |
| CalcGroupedData.RecorderSeesAll | workers/loc.api/sync/helpers/calc-grouped-data.js:132-188 | a calculation that records its rows has seen all of them in the order of time, or against it |
| CalcGroupedData.RunningSum | workers/loc.api/sync/helpers/calc-grouped-data.js:158-185 | a running sum over 3 and then 5 gives 8 at the newer and 3 at the older moment in the order of time, and 5 and 8 against it |
| CarryForward.CarriedIsDistinct | workers/loc.api/sync/balance.history/index.js:68-75 | there stays one entry per wallet and currency if and only if the frame has no more than one |
| CarryForward.HoldsLastKnown | workers/loc.api/sync/balance.history/index.js:65-79 | after any frames the state holds exactly one entry per wallet and currency seen, which is its last row |
| CarryForward.GroupedIsSum | workers/loc.api/sync/balance.history/index.js:47-63 | the reduction gives per currency the sum over its wallets with a finite balance, and no other currency |
| CarryForward.ResultIsSumOfLastKnown | workers/loc.api/sync/balance.history/index.js:47-79 | a frame's result is per currency the sum of the last known balances of all wallets seen so far |
| CarryForward.WalletsInTimeframe.Calc | workers/loc.api/sync/balance.history/index.js:68-78 | the closure, on the state it keeps, returns that for the frames it has been called with |
| PublicConf.HasConfIsHasKey | workers/loc.api/sync/colls.accessors/public.colls.conf.accessors.js:58-76 | entries are the same exactly when their keys are: the symbol and, for candles, the time frame |
| PublicConf.FirstsAreFirst | workers/loc.api/sync/colls.accessors/public.colls.conf.accessors.js:121-160 | the entries collected for inserting and for updating are the requested keys that are not, or are, stored, each once, as first requested |
| PublicConf.EditedIsRequested | workers/loc.api/sync/colls.accessors/public.colls.conf.accessors.js:105-193 | after the edit the stored keys are exactly the requested ones, with the start of the first request for each, and once each if they were so before |
| PublicConf.KeysAreRequests | workers/loc.api/sync/colls.accessors/public.colls.conf.accessors.js:58-76 | having the requested keys and starts means having the requested symbols, with the requested time frames for candles |
| PublicConf.PublicCollsConfTable.EditPublicCollsConf | workers/loc.api/sync/colls.accessors/public.colls.conf.accessors.js:105-193 | an edit that nothing comes between has that effect: every requested entry is stored, and every stored one is requested and has the start of the first request with its symbol and, for candles, its time frame; the rows of other users and names stay as they are, in their order |
| PublicConfHistory.StepLeavesOthers | workers/loc.api/sync/colls.accessors/public.colls.conf.accessors.js:162-192 | no step of an edit touches the rows of another user or another configuration |
| PublicConfHistory.AloneIsExact | workers/loc.api/sync/colls.accessors/public.colls.conf.accessors.js:105-193 | whatever steps of other edits come in between, an edit that is the only one of its user and configuration on the way has its full effect |
| PublicConfHistory.StoresOnceExactly | workers/loc.api/sync/colls.accessors/public.colls.conf.accessors.js:162-181 | whatever has come in between, an insertion keeps every key stored once if and only if none of its keys has been stored since its edit read; removing and updating always do |
| PublicConfHistory.OverlappingEditsStoreTwice | workers/loc.api/sync/colls.accessors/public.colls.conf.accessors.js:111-192 | two overlapping edits of one user for one symbol store it twice |

## Left out

- Rounding: amounts are reals, so the limited precision of a BigNumber division and of floating-point numbers is not modelled.
- The list of currencies without a price: only the flag on the sale is modelled, not the collected names.
- The references from a buy back to the sales it was matched with; the matches are recorded on the sale, with the quantity, the price and the fee share that the program only adds up.
- Interrupts of the tax report, which then returns nothing, and its progress messages.
- Splitting a symbol into its currencies, the list of fiat currencies and the tax type of a row in full: parameters or fields of a transaction.
- Fetching public trades and triangulating over a third currency in the report's conversion: the `quote` parameter stands for it; the calculator itself is modelled with its triangulation.
- TrxPrices.TradeRoundTrip: stated for trades that are not quoted in USD, because those never use the cached value.
- PeriodTheorem.FifoSplitIsExact: stated for FIFO only, because in LIFO the two ways differ (`PeriodTheorem.LifoSplitDiffers`).
- Retries on a locked database: a retried query counts as a new call and a retried body as a longer one; the retry counters are not modelled.
- Unqueued queries and queries in worker threads, which wait for nothing and are waited for by nothing.
- The hooks before and after a transaction, and which tables the copy of temporary tables runs over.
- LedgerPages.FairPageIsRight: the variant that also looks into a temporary table is not modelled, and rows without an entry number are not.
- LedgerRecalc.LedgersTable.Execute: the error for missing sessions is not modelled; without sessions no user is asked for.
- SyncQueue.SyncQueue.Process: the data insertion of a job is what the parameter `rounds` says of it; other runs do not write to the queue meanwhile, and an update of a state does not fail.
- SyncProgress.ReportsClimb: the queue stays as it is during the run and holds no job that someone else left locked; what additions do is the subject of `SyncOvershoot`.
- SyncOvershoot.WithinExactlyIfLateJobsAreFree: for at most ten jobs of one owner in all; of more jobs only ten of the waiting ones are counted.
- SyncHistory.LockedMeansRunning: one run at a time; two calls that both pass the test for a run in progress are not modelled, and a failed update of a state is the event `Abandon`, which this result excludes.
- The rules of the calendar: a time frame is any function that maps moments to the start of their frame.
- The default calculation over joined rows, the conversion of balances to USD, and the regrouping of weeks at the turn of the year.
- MergeData.MergeInputs: an input is named by its place, and the values of a row are copied as a whole.
- PublicConf.PublicCollsConfTable.EditPublicCollsConf: a requested candles entry has a time frame and every entry a start, as the request's schema demands.
- Reading public data with the configuration, the network, authentication, and the writers of reports.
