# Satorna verification

A Dafny model of the parts of Satorna where money, resumability and concurrency have to be exactly right, with proofs
of what those parts promise. Each module follows one piece of the program: code that works by changing state step by
step is a class or a method with loops, proved against a specification function; code made of expressions is a
function; everything that several processes, workers or sessions do together is a state machine over its atomic steps,
and its theorems are about every run.

* **The finance report** (`FinanceRows`, `FinanceFold`, `Allocator`, `AllocationDrift`, `FinanceAllocation`,
  `FinanceReport`, `FinanceReconciliation`, `FinanceUnits`, `FinanceSettlement`, `FinanceColumns`, `CumulativeAbc`). Operations of the
  marketplace are folded into one row per article, for the period and for every day; costs that name no article are
  spread by largest remainder in proportion to revenue; commissions are settled. The theorems follow every kopeck: what
  the articles' rows hold is what the operations say, for the period, for each day, and between the two views, however
  the rounding fell.
* **Resumable collectors** (`FinanceCursor`, `BasketsChunks`, `AdsFetch`, `AdsTree`). A cursor over a ledger with
  checkpoints, a ledger of day and chunk, and a fetcher that halves a refused batch until the bad campaign is alone.
  Servers are oracles, crashes, aborts and failures are arbitrary, and the result is that of one clean run.
* **Notification pages** (`Base64Url`, `NotificationClaims`, `NotificationCursor`, `NotificationJson`,
  `NotificationPaging`). Pages of an append-only log, fenced by the number of events, under a token of canonical JSON in
  unpadded base64url (section 5 of RFC 4648).
* **The automatic repricer** (`PriceClamp`, `NightWindow`, `RepricerExecution`, `RepricerDecisions`, `RepricerRuns`).
  The guard clamp, the arithmetic of the night window, the executor with its cache of samples and marks, exactly when
  it does what, and all its runs, with storage that may fail at any call.
* **The browser extension** (`Workers`, `PhotoPool`, `OrderPhotos`, `SnapshotQueue`). Asynchronous worker pools that
  share a cursor and counters, and a queue of uploads chained by promises; a step is what runs between two `await`
  points.
* **Notification preferences** (`PreferenceVersions`, `Preferences`). A compare-and-set on one locked row in which every
  database or guard call may fail, the commit even after it took effect.

`Arith`, `Dicts`, `Sorting` and `Keys` hold the arithmetic, the insertion-ordered dict, the sort and the comparison of
decimal keys that the others use. `dafny verify dfyconfig.toml` checks everything.

Money is an integer number of kopecks. A day, and an instant, is an integer. Percentages are exact fractions, rounded
half to even where the program calls `round`. A dict whose order could matter is a map with its insertion order, so
that independence of the order is a theorem.

Where the proofs disagree with expectations one might have of the code:

* No article is off by more than **one** kopeck on the two identities that rounding can break, and one does happen
  (`FinanceAllocation.AllocatedDrift`, `AllocationDrift.OneKopeckDriftHappens`).
* Account totals of a cost over days equal the period total exactly when its undated operations cancel out
  (`FinanceReconciliation.CostsReconcile`), and advertising metrics exactly when the undated contributions add up to
  zero or the period is one day (`AdsTree.DaysReconcile`): an undated node counts on every day.
* Costs are lost exactly when no operation of the period names an article (`FinanceReport.PeriodConserves`).
* A row of the finance report is accepted with its id under "rrd_id", but a killed collection can be started again
  from its checkpoint exactly when every row it saved has "rrdId"; otherwise every later start raises
  (`FinanceCursor.RestartsExactlyWithRrdId`, `FinanceCursor.OneRowStuck`). A checkpoint that cannot be read is taken for
  a missing one: the start begins from nothing, its first saved page replaces what was saved before
  (`FinanceCursor.UnreadStartOverwrites`), and only such a start frees a collection that is stuck
  (`FinanceCursor.StuckExactlyUntilUnread`, `FinanceCursor.UnreadStartCollects`).
* Interruptions of the daily baskets leave no trace exactly when the chunks of a day agree on the articles they share
  (`BasketsChunks.ConvergesExactlyWhenChunksAgree`); with a single chunk a day they always do.
* The interval between changes and the single night correction per window hold exactly as far as there are records. An
  upload that is not seen accepted, because the marketplace still works on it, limits questions about it or answers
  unreadably, leaves neither a changelog entry nor a mark: the next change may follow at once, and the same correction
  is uploaded again in the next cycle, with all storage working. So may they when a changelog cannot be read, or an
  entry or a mark is not stored (`RepricerRuns.GuardStopsExactly`, `RepricerRuns.RepeatedExactlyWhenUnmarked`, with
  every cause at work in `RepricerRuns.TwoChangesInOneMinute` and `RepricerRuns.TwoCorrectionsInOneMorning`). A cache
  that cannot be read when an article is decided makes no correction then
  (`RepricerExecution.UnreadCacheCorrectsNothing`).
* While samples are collected no night-enabled article is repriced, forced or not, unless it is being liquidated
  (`RepricerExecution.NoRepricingWhileCollecting`).
* A changed price that a strategy had its guards check before the clamp is not clamped again
  (`RepricerExecution.ChangedPriceInBand`).

## Model

| member | source | states |
|---|---|---|
| Allocator.AllocateSignedTotal | backend/app/repricer_bff.py:407-421 | the call computes the specified allocation: floors, then one kopeck each to the largest remainders, ties by key, sign restored; zero totals and empty weights included |
| Allocator.RoundUp | backend/app/repricer_bff.py:416-419 | the loop over the first keys of the ranking adds one kopeck to exactly those keys |
| Allocator.SharesSum | backend/app/repricer_bff.py:407-421 | shares add up to the signed total for any non-empty weights, also when the weights do not add up to something positive |
| Allocator.ShareIsRounded | backend/app/repricer_bff.py:407-421 | every share misses its exact quota by less than one kopeck, at the weights really used |
| Allocator.ZeroWeightPaysNothing | backend/app/repricer_bff.py:407-421 | a zero weight gets zero whenever the weights add up to something positive |
| Allocator.LargerWeightPaysNoLess | backend/app/repricer_bff.py:407-421 | a larger weight never gets a share of smaller magnitude |
| Allocator.EqualWeightsByText | backend/app/repricer_bff.py:417-419 | of two equal weights the key that is first as a text never gets the smaller share |
| Allocator.NegatedTotal | backend/app/repricer_bff.py:420-421 | allocating a refund gives the negated shares of the charge of the same size |
| Allocator.InsertionOrderIrrelevant | backend/app/repricer_bff.py:416-417 | the shares do not depend on the insertion order of the dict |
| AllocationDrift.LuckyByRank | backend/app/repricer_bff.py:417-419 | a key gets an extra kopeck exactly when fewer keys rank ahead of it than kopecks are left |
| AllocationDrift.SplitTogetherOrApart | backend/app/repricer_bff.py:407-421 | allocating two amounts separately or their sum at once changes no share by more than one kopeck |
| AllocationDrift.CancellingShares | backend/app/repricer_bff.py:407-421 | for any three signed totals that cancel, the three shares of one article are off by at most one kopeck |
| AllocationDrift.OneKopeckDriftHappens | backend/app/repricer_bff.py:407-421 | at equal weights of two articles, two charges of 1 and a refund of 2 drift by one kopeck, so the bound is tight |
| FinanceRows.AbsorbExact | backend/app/repricer_bff.py:3785-3883 | one operation keeps penalty, deduction, revenue, additional payment and loyalty cost equal to their definitions |
| FinanceFold.FoldAt | backend/app/repricer_bff.py:3726-3883 | for every additive column, an article's row holds the sum over that article's operations, in any list |
| FinanceFold.FoldTotal | backend/app/repricer_bff.py:3726-3883 | the total of a column over all articles is the sum over all operations that name one |
| FinanceFold.FoldExact | backend/app/repricer_bff.py:3726-3883 | before account-level costs arrive every row satisfies its identities exactly |
| FinanceFold.SplitGlobals | backend/app/repricer_bff.py:3726-3732 | operations with and without an article partition every sum |
| FinanceAllocation.TotalCosts | backend/app/repricer_bff.py:440-443 | the loop adds up every cost of the account-level rows |
| FinanceAllocation.AllocateGlobalFinanceCosts | backend/app/repricer_bff.py:424-464 | the nested loops leave exactly the specified dict: weights of the dict or of the fallback, every nonzero total spread, new rows where needed |
| FinanceAllocation.CreditShares | backend/app/repricer_bff.py:447-464 | the inner loop credits every share to its article, penalty and deduction breakdowns included |
| FinanceAllocation.AllocatedTotal | backend/app/repricer_bff.py:424-464 | the column total grows by exactly the account-level total, or by nothing when there is no article at all |
| FinanceAllocation.ChargedBySellerRevenue | backend/app/repricer_bff.py:432-464 | an article's cost grows by its part of the account-level total in proportion to its own positive seller revenue, of the dict or of the fallback, to within one kopeck; by an equal part when nobody has any; articles outside bear nothing |
| FinanceAllocation.AllocatedUntouched | backend/app/repricer_bff.py:447-464 | columns that are not costs keep their value in every row and their total |
| FinanceAllocation.RawIdentities | backend/app/repricer_bff.py:385-401 | additional payment and loyalty cost equal their definitions in the raw totals of any rows |
| FinanceAllocation.AllocatedDrift | backend/app/repricer_bff.py:441-464 | after allocation no article is off by more than one kopeck on either identity |
| FinanceReport.AggregateFinanceReportRows | backend/app/repricer_bff.py:3717-4111 | both passes of the function compute the specified period report and daily report |
| FinanceReport.FoldPeriod | backend/app/repricer_bff.py:3723-3883 | the loop of the first pass folds the operations and sets the account-level rows aside |
| FinanceReport.FoldDays | backend/app/repricer_bff.py:3951-4097 | the loop of the second pass does so for every operation date |
| FinanceReport.ChargeEachDay | backend/app/repricer_bff.py:4098-4103 | the loop charges each day's account-level rows to that day's articles, or to the period's |
| FinanceReport.DailyReportAt | backend/app/repricer_bff.py:3951-4111 | every day of the daily report is the report of that day's operations alone |
| FinanceReport.DaysCovered | backend/app/repricer_bff.py:3954-3961 | no dated operation falls outside the days of the report |
| FinanceReport.ReportTotal | backend/app/repricer_bff.py:3723-3920 | what any report of rows, period or day, holds in one cost column |
| FinanceReport.PeriodConserves | backend/app/repricer_bff.py:467-487 | for every cost the rows' total equals the raw total of the operations, exactly when some operation names an article or there is nothing to lose |
| FinanceReconciliation.DayConserves | backend/app/repricer_bff.py:4098-4103 | every single day is conserved, also one with account-level rows only |
| FinanceReconciliation.CostsReconcile | backend/app/repricer_bff.py:3951-4103 | account totals over days equal the period total exactly when the undated costs add up to zero or no operation names an article |
| FinanceReconciliation.SellerRevenueReconciles | backend/app/repricer_bff.py:3788-3834 | for every article, seller revenue over days equals seller revenue of the period, with no condition |
| FinanceUnits.UnitsReconcile | backend/app/repricer_bff.py:3801-3831 | sold (and returned) units over days are at least those of the period, and equal exactly when no unit key of the article spans two days |
| FinanceUnits.PeriodUnits | backend/app/repricer_bff.py:3801-3831 | the units of an article in the period are the sum over its sales (or returns) of the quantity without a unit key, and of at least one for the first document of each key |
| FinanceUnits.UnitsOnDay | backend/app/repricer_bff.py:4023-4048 | the same on one day, from that day's documents |
| FinanceSettlement.PeriodRow | backend/app/repricer_bff.py:3855-3920 | in every row of the period report the breakdowns of penalty, deduction and revenue are exact and both derived columns are within one kopeck |
| FinanceSettlement.DayRow | backend/app/repricer_bff.py:4098-4111 | the same in every row of every day |
| FinanceSettlement.AccountIdentities | backend/app/repricer_bff.py:385-401 | in account totals both derived columns are exact again |
| FinanceSettlement.PayoutIsRevenueLessExpenses | backend/app/repricer_bff.py:237-272 | whenever the payable is confirmed, the payout of the settlement is buyer revenue less the expenses of the diagnostic less advertising |
| FinanceSettlement.PayoutConserves | backend/app/repricer_bff.py:5399-5412 | when every payable is confirmed the payouts add up to the signed payable of the articles' operations less the raw costs plus the raw additional payment, however the kopecks were split |
| FinanceColumns.PeriodTrade | backend/app/repricer_bff.py:3786-3852 | operations, buyer and seller revenue, gross sales, returns, formula commission and payable of an article are sums over its sales, less sums over its returns; seller revenue counts within the period only |
| FinanceColumns.DayTrade | backend/app/repricer_bff.py:4008-4065 | the same on one day, from that day's operations |
| FinanceColumns.TradeOverDays | backend/app/repricer_bff.py:3951-4065 | over all days buyer revenue, formula commission and payable are those differences over the dated operations |
| FinanceColumns.PeriodCommission | backend/app/repricer_bff.py:1768-1783 | the commission of a finished row by its source: settled from buyer revenue, payable and acquiring when every trade has a payable, else as reported, else by formula |
| FinanceColumns.DayCommission | backend/app/repricer_bff.py:1768-1783 | the same for a day |
| FinanceColumns.PeriodCosts | backend/app/repricer_bff.py:373-404 | the rows of the period hold every cost total, written out in the fields of the operations: promotion deductions as advertising, acquiring of returns negative |
| FinanceColumns.PeriodBreakdown | backend/app/repricer_bff.py:3857-3883 | charges and refunds of penalty and deduction are the positive and negative parts of own operations, plus those of the charge |
| FinanceColumns.DayBreakdown | backend/app/repricer_bff.py:4070-4083 | the same for a day |
| FinanceColumns.PeriodCharge | backend/app/repricer_bff.py:432-464 | what an article of the period bears beyond its own operations is its part of each account-level total by seller revenue in the period |
| FinanceColumns.DayCharge | backend/app/repricer_bff.py:4098-4103 | on a day with articles by revenue of that day, on any other day to the articles of the period by revenue of the period |
| FinanceColumns.PayoutKnownExactly | backend/app/repricer_bff.py:5385-5415 | a payout is known for exactly the articles whose trades all have payables, or that sold, returned, paid and cost nothing |
| CumulativeAbc.Classify | backend/app/repricer_bff.py:5433-5448 | the loops compute the specified classification; an unknown value or no positive one blocks the axis |
| CumulativeAbc.ClassifiedByRank | backend/app/repricer_bff.py:5443-5448 | the dict answers for exactly its articles, each with the group of its position in the ranking |
| CumulativeAbc.RankedByValue | backend/app/repricer_bff.py:5445 | the ranking goes by value, equal values by the text of the key |
| CumulativeAbc.BlockedExactly | backend/app/repricer_bff.py:5440-5442 | everyone is answered None exactly when some value is unknown or none is positive; otherwise everyone has a group |
| CumulativeAbc.GroupsAreShortestPrefixes | backend/app/repricer_bff.py:5443-5447 | A is the shortest, non-empty prefix of the ranking reaching 80 percent of the positive total, A and B the shortest reaching 95 |
| CumulativeAbc.GroupsFollowValues | backend/app/repricer_bff.py:5443-5447 | nonpositive values are C and a larger value is never in a worse group |
| CumulativeAbc.InsertionOrderIrrelevant | backend/app/repricer_bff.py:5445 | ranking and groups do not depend on the order of the dict |
| CumulativeAbc.ScaleIrrelevant | backend/app/repricer_bff.py:5440-5447 | multiplying all values by a positive integer changes no group |
| FinanceCursor.Collector.Resume | backend/app/repricer_bff.py:3633-3637 | a checkpoint is taken over exactly when every saved row has its id under "rrdId"; rows, index, cursor and pages are then those of the checkpoint |
| FinanceCursor.Collector.AbsorbItem | backend/app/repricer_bff.py:3664-3691 | one row: which error, whether it is a repeat, what the rows are after it |
| FinanceCursor.Collector.AbsorbPageInPlace | backend/app/repricer_bff.py:3664-3695 | one page: the first failing row decides, otherwise rows, cursor and page count advance |
| FinanceCursor.AbsorbsExactly | backend/app/repricer_bff.py:3664-3691 | which row is refused for what, among clean rows: id, content under a known id, cursor, revenue and price of trades, in this order; any other row is appended, a known one changes nothing |
| FinanceCursor.TextIdExactly | backend/app/repricer_bff.py:3666-3671 | a text is an id exactly when it is the decimal form of a positive number |
| FinanceCursor.StepSound | backend/app/repricer_bff.py:3664-3702 | every step keeps memory, storage and the result of a finished run equal to the rows sent for them; every saved page moves the cursor of its process strictly forward, to its last row, and adds only rows above the old cursor |
| FinanceCursor.AnyServer | backend/app/repricer_bff.py:3628-3709 | any run against any server, with crashes and starts that cannot read their checkpoint: ids are positive and distinct, trades have finite revenue and price, every row sent since the run last began from nothing is kept verbatim and once, no two different rows are merged |
| FinanceCursor.HonestStepKeeps | backend/app/repricer_bff.py:3638-3709 | against a ledger served in ascending pages no page is refused, and finishing means the whole ledger was collected |
| FinanceCursor.CrashesLoseNothing | backend/app/repricer_bff.py:3628-3709 | wherever the run is killed and however often it is started, storage holds a prefix of the ledger, a finished run the ledger itself, in order; at most one ledger of pages is saved for each time the collection began anew, and beyond that no more pages than there are rows in storage |
| FinanceCursor.RestartsExactlyWithRrdId | backend/app/repricer_bff.py:3636-3673 | every killed run of a ledger can be started again from its checkpoint exactly when all rows of the ledger have "rrdId" |
| FinanceCursor.OneRowStuck | backend/app/repricer_bff.py:3633-3673 | a ledger of one valid row with "rrd_id" is saved, and after a kill never collected while checkpoints can be read; a start that cannot read it collects the row |
| FinanceCursor.StuckExactlyUntilUnread | backend/app/repricer_bff.py:3633-3636 | once a start raises, nothing changes before the first start that cannot read its checkpoint, and that one begins from nothing |
| FinanceCursor.UnreadStartOverwrites | backend/app/repricer_bff.py:3633-3702 | after a start that could not read its checkpoint and a first page of j rows, storage holds those j rows and no more, whatever any run before had saved |
| FinanceCursor.UnreadStartCollects | backend/app/repricer_bff.py:3633-3709 | from any stored rows, such a start can still collect the whole ledger |
| BasketsChunks.FetchBasketsDailyDetail | backend/app/repricer_bff.py:3408-3568 | the loops over days and chunks compute the specified run |
| BasketsChunks.AbortedFetch | backend/app/repricer_sync.py:1629-1680 | a call that raises after any chunk of any day leaves, through its callbacks, exactly the rows and ledger the next call is given |
| BasketsChunks.RunDaysEffect | backend/app/repricer_bff.py:3425-3542 | which chunks are requested, which count as done and which days have entries after a run |
| BasketsChunks.RequestsAsPlanned | backend/app/repricer_bff.py:3431-3542 | a run makes exactly the requests it announced, each missing chunk once and in order |
| BasketsChunks.RequestedExactly | backend/app/repricer_bff.py:3412-3466 | a run requests exactly the chunks of its days that the ledger does not call done, of days that are not rows without a single entry, and none twice |
| BasketsChunks.RowsAfterRun | backend/app/repricer_bff.py:3468-3545 | the rows of a day after a run: those before, overlaid with what came in of its missing chunks in order, of a failed request the pages before the failure; other days keep their rows |
| BasketsChunks.DaysAfterRun | backend/app/repricer_bff.py:3441-3545 | after a run exactly those days have rows, if only an empty collection, that had some before or were asked for and had a chunk that was not done |
| BasketsChunks.LastPageWins | backend/app/repricer_bff.py:3479-3505 | of several pages of a chunk with an article the last one counts |
| BasketsChunks.ResumeRequestsFailures | backend/app/repricer_bff.py:3408-3542 | feeding the output back requests exactly the failed chunks, in order |
| BasketsChunks.RunDaysOnePerChunk | backend/app/repricer_bff.py:3510-3536 | at most one entry per day and chunk, if the input had no more |
| BasketsChunks.StoredFollows | backend/app/repricer_bff.py:3458-3542 | whatever the attempts, stored rows lie over those of the start: what no missing chunk has is as it was, and a chunk done since is there completely, as the server has it but for articles that an open chunk may overwrite |
| BasketsChunks.ConvergesToCleanRun | backend/app/repricer_bff.py:3408-3568 | when chunks of a day agree, from any stored rows and ledger and through any returned or aborted attempts, once a run ends without a failure its daily rows equal those of one failure-free run from the same start; pages of one chunk may disagree |
| BasketsChunks.CollectsEverything | backend/app/repricer_bff.py:3441-3542 | from nothing, every day then holds exactly the rows of its chunks, all pages of each merged in order |
| BasketsChunks.ConvergesExactlyWhenChunksAgree | backend/app/repricer_bff.py:3408-3568 | a day ends with the rows of a clean run after every possible sequence of attempts exactly when its chunks agree on the articles they share |
| AdsFetch.DateWindows | backend/app/repricer_bff.py:2373-2380 | the loop computes the specified windows |
| AdsFetch.WindowsPartition | backend/app/repricer_bff.py:2373-2380 | consecutive blocks of 31 days, the last of 1 to 31, from start to end |
| AdsFetch.DayInOneWindow | backend/app/repricer_bff.py:2373-2380 | every day of the span lies in exactly one window |
| AdsFetch.FetchIsolates | backend/app/repricer_bff.py:2383-2427 | if exactly the batches with a bad id are refused, each window covers every good campaign once and in order and no bad one, in at most 2n - 1 requests per window |
| AdsFetch.BisectionIsolates | backend/app/repricer_bff.py:2405-2427 | the same for one window |
| AdsFetch.RequestsLinear | backend/app/repricer_bff.py:2405-2427 | 2n - 1 requests suffice whatever is refused and why |
| AdsFetch.RequestsLogarithmic | backend/app/repricer_bff.py:2405-2427 | few bad campaigns cost few requests: one, and two per halving around each bad one |
| AdsFetch.OnlyAccepted | backend/app/repricer_bff.py:2406-2427 | against any server, every campaign in the result was asked for in a batch the server accepted |
| AdsFetch.FetchRaisesExactly | backend/app/repricer_bff.py:2405-2425 | the call raises exactly when some batch that comes up in some window is answered with an error other than invalid payload |
| AdsTree.Aggregates.Merge | backend/app/repricer_bff.py:4141-4183 | the recursive walk leaves the specified dict |
| AdsTree.FillAggregates | backend/app/repricer_bff.py:4272-4282 | every payload is walked once for the period and once for each day |
| AdsTree.MergedReceives | backend/app/repricer_bff.py:4141-4183 | a walk adds to every article and metric exactly what its accepted nodes contribute |
| AdsTree.PeriodIsSum | backend/app/repricer_bff.py:4141-4183 | what the period says of an article: six sums over the contributing dicts that name it and whose nearest date is missing or lies in the period; no row without such a dict |
| AdsTree.DayIsSum | backend/app/repricer_bff.py:4280-4282 | what a day says: the same over those whose nearest date is missing or that day |
| AdsTree.DaysAddUp | backend/app/repricer_bff.py:4279-4282 | the sum over days exceeds the period by the undated contributions once for each further day |
| AdsTree.DaysReconcile | backend/app/repricer_bff.py:4279-4282 | days and period agree exactly when the period is one day or the undated contributions add up to zero |
| AdsTree.DatedDaysReconcile | backend/app/repricer_bff.py:4156-4183 | they agree for every nested payload whose contributing nodes have an own or inherited date |
| Base64Url.RoundTrip | backend/app/notification_list.py:35-51 | decoding the encoding of any non-empty bytes gives them back |
| Base64Url.EncodeInjective | backend/app/notification_list.py:35-36 | different bytes have different texts |
| Base64Url.Canonical | backend/app/notification_list.py:39-47 | which texts are accepted: alphabet, possible length, zero pad bits; an accepted text encodes back to itself |
| Base64Url.AcceptedIsEncoding | backend/app/notification_list.py:39-47 | a text decodes to given bytes exactly when it is their encoding |
| NotificationClaims.JsonSize | backend/app/notification_list.py:29-32 | the canonical JSON of a token is at most 2716 bytes, for scopes that fit their columns |
| NotificationJson.JsonInjective | backend/app/notification_list.py:29-32 | no two contents are printed as the same JSON, so the comparison with the canonical form tells them apart |
| NotificationJson.CharReads | backend/app/notification_list.py:29-32 | no printed character begins another, surrogate pairs included |
| NotificationJson.CodecExists | backend/app/notification_list.py:29-130 | a codec exists that satisfies everything the laws of the tokens assume |
| NotificationCursor.TokenSize | backend/app/notification_list.py:72-94 | no token of the service reaches the 4096 characters at which it would be refused |
| NotificationCursor.IssuedIsParsed | backend/app/notification_list.py:72-121 | an issued token of a valid position reads back under the same scope and limit |
| NotificationCursor.ParsedWasIssued | backend/app/notification_list.py:94-130 | an accepted token is, character by character, the one issued for the position it yields |
| NotificationCursor.AcceptsExactlyIssued | backend/app/notification_list.py:72-130 | a token is accepted for a position exactly when it is the one issued for it |
| NotificationCursor.OtherScopeRefused | backend/app/notification_list.py:110-116 | a token of another scope or limit is refused |
| NotificationPaging.Repository.Publish | backend/app/notification_repository.py:96-128 | a known dedupe key returns the stored event unchanged, or an error when its references differ; a new one appends |
| NotificationPaging.ServiceTokensLossless | backend/app/notification_list.py:217-252 | the tokens of the service, under any scope that fits its columns, lose no position: the chain theorems apply to it |
| NotificationPaging.ChainsAreSnapshots | backend/app/notification_list.py:204-264 | in every interleaving of publishes and pages a reader has a prefix of the descending listing of one set of events, and its token continues that listing |
| NotificationPaging.CompleteListsOnce | backend/app/notification_list.py:133-153 | a complete chain lists every event of that set exactly once, newest first |
| NotificationPaging.InvalidExactlyWhenNotIssued | backend/app/notification_list.py:94-130 | a token is refused as invalid, whatever the log, exactly when it was issued for no valid position under this scope and limit |
| NotificationPaging.NewEventStopsChain | backend/app/notification_list.py:232-234 | after a new event the next page is refused, it neither skips nor repeats |
| NotificationPaging.RefusedExactlyWhenStale | backend/app/notification_list.py:217-234 | a next page is refused exactly when events have been added since the first page, and then as a conflict |
| NotificationPaging.QuietChainTerminates | backend/app/notification_list.py:133-264 | without new events n pages are complete exactly when n times the limit covers all events, and have then listed them all |
| PriceClamp.ClampCandidatePrice | backend/app/repricer_execution.py:478-515 | the reassignments of the candidate compute the specified clamp |
| PriceClamp.RoundNearest | backend/app/repricer_execution.py:406-407 | rounding half to even is within half a kopeck of the exact quotient, and even when half a kopeck away |
| PriceClamp.ClampedInBand | backend/app/repricer_execution.py:509-515 | with P_MIN not above P_MAX the result lies in the band |
| PriceClamp.ClampedBetween | backend/app/repricer_execution.py:478-515 | from a price in the band the result lies between that price and the candidate |
| PriceClamp.ClampIdempotent | backend/app/repricer_execution.py:478-515 | clamping twice changes nothing more, for any band |
| PriceClamp.ClampMonotone | backend/app/repricer_execution.py:478-515 | a higher candidate never yields a lower price |
| PriceClamp.StepWithinLimits | backend/app/repricer_execution.py:490-507 | from a price in a proper band no step exceeds the percentage per update or per day, up to the rounding of the limit, in either direction |
| PriceClamp.AllowedUnchanged | backend/app/repricer_execution.py:490-515 | a candidate inside the band and both percentages is taken unchanged |
| PriceClamp.CutOnlyAtLimits | backend/app/repricer_execution.py:490-515 | a step that falls short of the candidate ends at an edge of the band or at one of the percentages |
| PriceClamp.BandNearest | backend/app/repricer_execution.py:509-515 | a price outside the band moves to the nearest price of it |
| PriceClamp.UpperLimitWins | backend/app/repricer_execution.py:509-515 | with P_MIN above P_MAX the result is P_MAX |
| NightWindow.PreviousKeyIsLatestKey | backend/app/repricer_execution.py:1079-1095 | whenever the window is closed the previous-window key is the collection key of the latest minute at which it was open |
| NightWindow.KeyMonotone | backend/app/repricer_execution.py:1079-1085 | collection keys never run backwards |
| NightWindow.PreviousKeyPassed | backend/app/repricer_execution.py:1079-1095 | the window that a closed minute looks back to is never sampled again |
| NightWindow.KeyIsContiguous | backend/app/repricer_execution.py:957-968 | between two open minutes of one key the window is open under that key |
| NightWindow.WindowIsStretch | backend/app/repricer_execution.py:957-968 | the window of a day is exactly the minutes from its start hour to its end hour, past midnight when the end is earlier, and the whole day when both are equal |
| NightWindow.PreviousKeyWhenOpen | backend/app/repricer_execution.py:1088-1095 | while open, the key looked back to is the day before, or the open window itself when it spans midnight; with equal hours it is the day itself from that hour on |
| RepricerExecution.Repricer.CollectBaskets | backend/app/repricer_execution.py:1184-1228 | samples are appended, the last 24 kept, the cache trimmed; an unreadable cache is replaced, an unwritable one stays; nothing happens outside the window |
| RepricerExecution.Repricer.NightApplyPayload | backend/app/repricer_execution.py:1231-1263 | the early returns of the lookup find exactly the window whose correction is still open |
| RepricerExecution.Repricer.ExecuteSingleSku | backend/app/repricer_execution.py:1283-1607 | the early returns, the switch to the night strategy and its second lookup come to the specified decision, mark and changelog entry |
| RepricerExecution.RecommendPrice | backend/app/repricer_execution.py:1539-1596 | rounding, clamp and guard in sequence give the specified price or stop |
| RepricerExecution.Repricer.SettlePrice | backend/app/repricer_execution.py:1598-1770 | draft, rate limit, approval, job and pending approval come to the specified end, with the answer of the job, and store what it says; only an accepted job leaves mark and entry |
| RepricerExecution.SamplesAreLatest | backend/app/repricer_execution.py:1206-1223 | after a collection an observed article has the last 24 of its old samples followed by its new observations, in order, the newest last; any other what it had |
| RepricerExecution.TrimKeepsLatest | backend/app/repricer_execution.py:1177-1181 | the seven latest windows stay, or all if there are no more, each unchanged |
| RepricerExecution.CollectedWindows | backend/app/repricer_execution.py:1184-1228 | what is stored under each key after a collection: the sampled window with its marks, the others as they were |
| RepricerExecution.CollectedKeys | backend/app/repricer_execution.py:1184-1228 | and under which keys: the latest seven of the old ones and the sampled one; only that one when the cache could not be read |
| RepricerExecution.MarkedWindows | backend/app/repricer_execution.py:1266-1280 | a mark adds one article to one window and changes nothing else |
| RepricerExecution.ChangedPriceInBand | backend/app/repricer_execution.py:1539-1584 | a changed price is the one the strategy's own guards passed, or lies in a proper band and, from inside it, between the old price and the rounded advice |
| RepricerExecution.UploadedOnlyWhenAllowed | backend/app/repricer_execution.py:1539-1766 | a price is uploaded, whether the upload is accepted, pending or abandoned, only when approved, with an open draft, not rate limited, under automation unless forced, and with the agreement of a guard to this very price in the strategy that ran |
| RepricerDecisions.UploadedExactly | backend/app/repricer_execution.py:1283-1766 | a price is uploaded exactly when the article may run, its strategy leads to that price, the draft is open, it is approved and to be applied, and the job makes the upload |
| RepricerDecisions.QueuedExactly | backend/app/repricer_execution.py:1283-1770 | a price waits for approval exactly when all that leads to an open draft, nobody approved it and the run keeps a list |
| RepricerDecisions.SkippedExactly | backend/app/repricer_execution.py:1283-1607 | an execution is skipped exactly for a guard in front of the strategies, a refusal, or an unchanged price |
| RepricerDecisions.WindowExactly | backend/app/repricer_execution.py:1231-1263 | a priced execution is a night correction, for the window looked back to, exactly when that has samples and no mark of the article |
| RepricerRuns.OnceCorrectedUnlessUnmarked | backend/app/repricer_execution.py:1231-1280 | over any run, whatever storage and the marketplace do, a second correction of an article in one window, uploaded or queued, can only follow corrections that left no mark |
| RepricerRuns.RepeatedExactlyWhenUnmarked | backend/app/repricer_execution.py:1666-1738 | in any state a correction is made again for the same window, by the same execution under force, exactly when its job was neither accepted nor queued, or its mark could not be read for or written |
| RepricerRuns.TwoCorrectionsInOneMorning | backend/app/repricer_execution.py:1231-1280 | a concrete night and morning in which an upload not seen accepted, or a lost mark, has the correction made twice, and nothing else does |
| RepricerExecution.CorrectionUsesLastWindow | backend/app/repricer_execution.py:1231-1263 | a correction made while the window is closed is decided by samples of the window that closed last |
| RepricerRuns.ChangesKeepInterval | backend/app/repricer_execution.py:177-215 | over any run, whatever storage and the marketplace do, an unforced automatic upload comes at least its interval, and at least five minutes, after every earlier upload or manual change of that article, unless that one has no entry or the changelog was not read |
| RepricerRuns.GuardStopsExactly | backend/app/repricer_execution.py:193-215 | in every state of every run the guard stops a change exactly when the changelog is read and some stored change is younger than the interval |
| RepricerRuns.TwoChangesInOneMinute | backend/app/repricer_execution.py:193-215 | a concrete run in which an unreadable changelog, an entry not stored or an upload not seen accepted, and nothing else, lets a second upload through in the same minute |
| PhotoPool.NumberedOnce | avito-orders-extension/src/listing-photos.js:69-70 | sorting and splitting into two pools neither loses nor repeats a row |
| PhotoPool.PicturedFirst | avito-orders-extension/src/listing-photos.js:69-119 | every row with a known picture belongs to the first pool and is numbered before every row without one |
| PhotoPool.CountersAgree | avito-orders-extension/src/listing-photos.js:60-122 | in every interleaving at most five rows are in flight and (saved - skipped) + failed = processed, each counter counting its attempts |
| PhotoPool.TriedExactly | avito-orders-extension/src/listing-photos.js:71-108 | the history of tries is the sequence of tries that ended, each successful exactly when its row was saved |
| PhotoPool.PausedExactly | avito-orders-extension/src/listing-photos.js:72-119 | in every interleaving the stage is paused exactly when some try was stopped, or some worker found it should stop after taking a row |
| PhotoPool.TriedAtMostOnce | avito-orders-extension/src/listing-photos.js:112-122 | in every interleaving each missing row is tried at most once, over both pools |
| PhotoPool.DoneMeansSaved | avito-orders-extension/src/listing-photos.js:112-123 | the stage is done exactly when a run has ended with every missing row saved; a partial run tried every row |
| PhotoPool.PausedForGood | avito-orders-extension/src/listing-photos.js:71-121 | pausing is final and nothing is tried after it but the rows then in flight |
| PhotoPool.EveryRunEnds | avito-orders-extension/src/listing-photos.js:71-124 | no run takes more than 5n + 12 steps and none gets stuck before its end |
| OrderPhotos.ReportAddsUp | avito-orders-extension/src/background.js:179-204 | in every interleaving saved + missing ends equal to the number of requested rows, with no rows left untaken unless throttled, and at most three errors |
| OrderPhotos.ReportedExactly | avito-orders-extension/src/background.js:179-202 | in every interleaving saved counts the uploads that succeeded, missing those that failed and the rows without a usable address, the errors are the messages of the first three failures, and the upload is paused exactly when one was throttled |
| SnapshotQueue.OneAtATimeInOrder | avito-orders-extension/src/background.js:120-125 | in every interleaving snapshots are posted one at a time, in the order of the calls, whatever fails |
| SnapshotQueue.NeverBlocked | avito-orders-extension/src/background.js:120-125 | while a post has not ended some step is possible: a failed upload never holds up the next |
| PreferenceVersions.VersionsRoundTrip | backend/app/notification_preferences_service.py:44-49 | a text is accepted exactly when it is the decimal form of a version, so the version shown can be sent back |
| Preferences.SequentialFacts | backend/app/notification_preferences_service.py:103-119 | replaces that run one after another count up the version by one each, keep the destination, and leave the flags of the last |
| Preferences.DurableReplacesAreSequential | backend/app/notification_preferences_service.py:78-147 | over any run with faults the row is the one the durable replaces make one after another; no version is replaced twice |
| Preferences.NoSharedVersion | backend/app/notification_preferences_service.py:103-115 | two replaces that expect the same version never both take effect |
| Preferences.OutcomesAreSound | backend/app/notification_preferences_service.py:121-147 | a returned result is committed, every error but READBACK_REQUIRED means this call changed nothing, and only writes get that one |
| Preferences.CommitDecides | backend/app/notification_preferences_service.py:120-147 | a replace without earlier faults: what the commit answers decides row and code, READBACK_REQUIRED with and without the change |
| Preferences.FaultDecides | backend/app/notification_preferences_service.py:78-146 | in every interleaving the first fault of a call decides its code (no membership and refusals: DENIED, the commit of a write: READBACK_REQUIRED, others: UNAVAILABLE), unless ending the transaction or closing fails too |
| Preferences.DeniedWasRefused | backend/app/notification_preferences_service.py:78-146 | a call ends as DENIED only after a fault that denied it |
| Preferences.UndisturbedCall | backend/app/notification_preferences_service.py:78-147 | alone and without faults: what each read and replace answers and leaves, for every row and every expected version |

## Left out

- Parsing of roubles, percentages and texts into numbers: the ledger starts from integer kopeck fields of each operation; seller revenue and formula commission of an operation are given.
- Percentage columns, platform discount, net units, vendor codes and display fields of the finance rows: they do not take part in any of the balances.
- Profit after cost of goods and tax: `settlement_profit_metrics` is followed to the payout only, without the explicit confirmations that a caller may put into a row.
- Dates: operation dates, days and instants are integers; the choice of the date field of an operation is not modelled.
- HTTP requests, retries, rate limits, progress callbacks: servers are oracles that answer, refuse or fail.
- BasketsChunks.AbortedFetch: what the caller with callbacks stores; the other caller stores nothing of an aborted call. A save that fails leaves an earlier state of the same call, which is an abort too. The choice of stored rows and ledger before a call, which may merge an older period or begin from nothing when the cache cannot be read, is the arbitrary start of `ConvergesToCleanRun`.
- FinanceCursor.CrashesLoseNothing: runs with a checkpoint key; the storing of finished operations by `save_operations` is not part of this model.
- Campaign lists, batches of fifty and promotion counts around the advertising fetcher.
- The JSON parser, HMAC, and the timestamp and UUID texts inside a token: functions of the codec, of which the lengths are assumed and that reading back what was printed gives the same value; the printed JSON and the token around it are modelled character by character.
- NotificationPaging.CompleteListsOnce: receipts and the check of source bindings do not influence which events a page lists and are left out; a page or a publish is one atomic step.
- Strategy formulas, price rounding, guards, drafts and the answers of jobs in the executor: parameters of a decision, arbitrary in every step of a run. The direction and size of a night correction are among them.
- RepricerRuns.OnceCorrectedUnlessUnmarked: a pending approval that is approved later is a change by hand; settings are fixed over a run, time is local time in minutes without changes of the clock, the clock stands still during one execution, and executions do not overlap. Storage fails with a database error, which the program swallows; other errors end an execution.
- PhotoPool.CountersAgree: progress callbacks that fail abort the collection and are not modelled; the fetching and checking of a single photo is one of three outcomes.
- The mutual-exclusion flags of the background script.
- The feature switch and the shape of the actor in front of `_execute`, and rows changed by programs other than this service.
- Interleaved code (photo pools, preference sessions, page readers, crashes) is modelled on values, as state machines; aliasing of the shared objects is not.
