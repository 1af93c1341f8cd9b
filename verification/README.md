# Verified model of the stock engine

This project models the arithmetic and bookkeeping cores of a retail stock engine in Dafny and
proves what its comments promise. The engine reads a shop's sales and inventory from an online
store and from branch tills, cleans them into daily demand rates, sizes transfers from a warehouse
to the branches, classifies products, recommends what to do about idle stock, and pushes changes
to open browser tabs over WebSockets.

Quantities, rates and money are exact reals, instants are whole milliseconds, days are day numbers,
and the database is sequences, maps and sets of rows. Code that updates state is a method with the
same loops and branches, or a class with the same fields, proved against a specification function
or an outright property; the properties of whole runs are lemmas about those functions. `dafny
verify dfyconfig.toml` checks everything.

| file | part of the engine |
|---|---|
| `CoverLevel`, `Rounding`, `Transfers`, `DestinationShares` | sizing transfers out of the warehouse |
| `OrderStatistics`, `DaySeries`, `DampedWindow`, `BigBuyer`, `BulkDates` | medians, daily totals, spike damping, bulk-day cleaning |
| `DayRange`, `AdjustedRate`, `OffMidnight`, `TimeOfDay`, `BlockedDays`, `WeeklyMedian`, `CensoredRate`, `CensoredBound` | stockout gaps, day counts and the three baseline rates |
| `Text`, `Decimal`, `Calendar`, `IsoWeeks`, `OwnerReport` | ISO-week period keys and the period lists of the owner's report |
| `SalesHistory`, `PosRollup`, `PosTable`, `PosLines`, `PosPlan`, `PosIngest`, `PosResend`, `LearnedAliases`, `PosRelearn` | the derived sales table and the till feed that keeps it |
| `InventorySync`, `StockFigures` | the inventory pull from the online store |
| `Gateway` | the WebSocket gateway |
| `RecommendationRules`, `RecommendationFacts`, `RecommendationRun` | the idle-stock rules and the nightly life of their recommendations |
| `CountQuantile`, `Abc` | the demand-cover quantile and the ABC classes |
| `Sorting`, `Numbers`, `Wrappers` | stable sorting, filtering and summing of sequences; `Math` on exact numbers; absent values |

## Where the code differs from what is said about it

Each of these is a proved case in which the code departs from its own comments or from what a caller
would take for granted, next to the exact condition under which it behaves as described.

- Week keys round-trip for every date except those in the years 0 to 99, which `Date.UTC` moves
  into the twentieth century (`IsoWeeks.DateRoundTrip`, `IsoWeeks.KeyRoundTrip`).
- Skipping unchanged inventory levels ends where a full rewrite ends for every level except one that
  a single pull moves and then puts back (`InventorySync.SkippingIsExact`,
  `InventorySync.RevertedLevelStaysMoved`).
- The stockout-only day count counts listed dates, not distinct days: a day listed twice is
  subtracted twice unless some day is excluded (`BlockedDays.StockoutCountIsDistinct`,
  `BlockedDays.ListedTwiceCountsTwice`). The lists the engine passes come from inventory snapshots,
  which are unique for a product and a midnight (packages/db/prisma/schema.prisma:465-471), so stored
  data lists no day twice; the functions themselves promise nothing about it.
- The snapshot-truth rate can exceed the best day it is computed from: a month of one unit a day with
  every day listed as a stockout gives more than two a day. With midnight sales it stays at or below the
  best day when the listed days that sold anyway, with what is subtracted beyond the listed days, are no
  more than the unlisted days without a sale, or when at most three days sold, or at most seven with
  every day gone; for even sales only then. So it does whenever no sale day is listed
  (`CensoredBound.MarkedOutRateExceedsBestDay`, `CensoredBound.CensoredWindowExact`,
  `CensoredBound.CensoredRateBetween`).
- The gap-inference rate stays at or below the best day when sales are dated at midnight, as the
  derived sales table dates them, or all at one other time of day with no day excluded. At mixed times a
  window can hold one sale day more than days, and a shop that sells one unit every day gets a rate
  above one; for even sales it stays at or below the best day exactly when the calendar days without a
  sale cover the days taken, and a part of a day at the start (`AdjustedRate.AdjustedRateBetween`,
  `TimeOfDay.SameTimeOfDayBetween`, `OffMidnight.WindowRateExact`,
  `OffMidnight.OffMidnightRateExceedsBestDay`).
- With the same lookups, a payload and a re-post of its tail end with the same receipts and the same
  till rows on every day, except a stale day that only the head's receipts fell on until the tail took
  them back: there the two posts rebuild a day that the one does not
  (`PosResend.PartsAgreeWithWhole`, `PosResend.StaleDayTellsPartsApart`). A store that agrees with its
  ledger has no such day (`PosResend.PartsAgreeAltogether`).
- Each request learns its till codes from the lines stored when it starts, so a payload sent again can
  be matched differently: it changes the ledger exactly when one of its codes has stored matches to
  several products and to just one without the receipts sent again. A third post never changes anything
  (`PosRelearn.RepostExact`, `PosRelearn.RepostSettlesACode`, `PosRelearn.ThirdPostIsQuiet`).
- The demand-cover quantile is monotone in the service level except that a level of one or more
  stands for 0.999999, so a level just under one can ask for more
  (`CountQuantile.MonotoneInTau`, `CountQuantile.FallsAtOne`).
- A suggested discount keeps the exact price at 1.05 times cost, but the whole-number price on the
  tag can fall below a small cost with cents (`RecommendationRules.TagPrice`,
  `RecommendationRules.TagPriceBelowFractionalCost`).

One comment holds only up to a tolerance: the drain feeds the branch with the least cover up to its
comparison slack of 1e-9, which adds up over the branches scanned; it is the documented choice when
covers and rates are equal or further apart than the slack (`Transfers.PickBest`).

## Model

| member | source | states |
|---|---|---|
| CoverLevel.FillLevel | packages/forecast/src/transfers.ts:74-86 | the breakpoint walk returns a level whose shortfalls use up exactly the available units; the return after the loop is not reached |
| CoverLevel.HighestCommonLevel | packages/forecast/src/transfers.ts:67-73 | a common level is affordable if and only if it is not above the level that spends everything: it is the highest one the source can reach |
| CoverLevel.MaxMinOptimal | packages/forecast/src/transfers.ts:98-104 | no non-negative allocation of the same units leaves every destination with more cover than the level |
| CoverLevel.NeedMonotone | packages/forecast/src/transfers.ts:64-65 | total need never falls with the level and rises strictly where it is positive |
| Rounding.RoundWants | packages/forecast/src/transfers.ts:137-154 | the rounded plan sums to the budget and at most the units, gives each want its floor or ceiling, nothing to the others, and no want without a spare unit has a larger fraction, or a faster rate at the same one, or an earlier id at the same of both, for any total order of ids |
| Rounding.SpareBounds | packages/forecast/src/transfers.ts:139-142 | the floors never exceed the budget, and the spare units never exceed the number of fractional wants |
| Rounding.HandOutSpare | packages/forecast/src/transfers.ts:144-154 | all spare units are handed out, one each, to the first wants by fraction, then rate, then the given order of ids |
| Transfers.PickBest | packages/forecast/src/transfers.ts:158-172 | none exactly when every candidate has the drain cover; otherwise an open candidate with the least cover up to the slack, and the first by cover, rate and id when these are separated |
| Transfers.Drain | packages/forecast/src/transfers.ts:156-175 | ends with the source empty or every candidate at the drain cover, takes nothing back, and every branch it fed was lowest and ends below the drain cover plus one unit |
| Transfers.LinesFromPlan | packages/forecast/src/transfers.ts:177-190 | the lines are positive, total at most the units, one for each destination whose planned move is not dropped as small, in candidate order, with its stock, rate and covers before and after, and ship every branch below target at least the whole part of its shortfall |
| Transfers.SizeTransfers | packages/forecast/src/transfers.ts:117-191 | the whole sizing: no lines without stock or rates, else the target or the affordable level below it, quota rounding, the drain and the small-move filter, one described line a destination in order, never more than what is available |
| DestinationShares.SplitRate | packages/forecast/src/transfers.ts:204-227 | each branch's share is its weight over the total of the strongest evidence available |
| DestinationShares.BasisByEvidence | packages/forecast/src/transfers.ts:197-203 | attributed if and only if some branch sold, even if and only if no branch sold or holds anything |
| DestinationShares.SharesAreAWhole | packages/forecast/src/transfers.ts:204-227 | the shares of at least one branch are non-negative and add up to one |
| OrderStatistics.OrderStatistic | packages/forecast/src/baseline.ts:49-54 | a value is at sorted position k if and only if at most k values are below it and more than k are not above it |
| OrderStatistics.MedianPermutation | packages/forecast/src/baseline.ts:49-54 | the median does not depend on the order of the values |
| OrderStatistics.MedianInsensitive | packages/forecast/src/baseline.ts:56-62 | replacing positive values of at least twice the median by others of at least that leaves the median, for odd and even counts |
| OrderStatistics.MedianIsMiddle | packages/forecast/src/baseline.ts:48-54 | the median is the mean of the two middle order statistics, one and the same in an odd list |
| OrderStatistics.MedianHalves | packages/forecast/src/baseline.ts:48-54 | at least half of the values are not above it and at least half not below it |
| OrderStatistics.MedianIgnoresTop | packages/forecast/src/baseline.ts:48-54 | values above the upper middle one can change freely above it |
| OrderStatistics.MedianFollowsMiddle | packages/forecast/src/baseline.ts:48-54 | raising the upper middle value itself of an even list does raise the median |
| DaySeries.SaleMedianInsensitive | packages/forecast/src/baseline.ts:56-62 | the median sale day and the sale days stay when days of at least twice the median change among themselves |
| DampedWindow.ComputeDampedWindow | packages/forecast/src/baseline.ts:85-104 | the loops compute the capped sum and sale-day count of the window's day totals |
| DampedWindow.SpikeInsensitive | packages/forecast/src/baseline.ts:56-73 | a day above the cap counts as a day exactly at it: of days that reach the cap neither units nor sale days show how far |
| DampedWindow.DampingRemovesExcess | packages/forecast/src/baseline.ts:56-104 | with fewer than five sale days the units are all units of the window; with five or more they fall short of these by exactly what each sale day sold beyond twice the median sale day |
| DampedWindow.OnlyDayTotalsMatter | packages/forecast/src/baseline.ts:75-84 | row order and the split of a day over rows or channels do not matter |
| DampedWindow.UnitsBounds | packages/forecast/src/baseline.ts:85-104 | damped units are at most the best day times the sale days, and not negative without net returns |
| BigBuyer.DebulkSeries | packages/forecast/src/big-buyer.ts:44-80 | the loops compute the specified cleaning: caps by date and rows rescaled in place |
| BigBuyer.DebulkIdempotent | packages/forecast/src/big-buyer.ts:44-80 | cleaning a cleaned series with the same options finds no cap and returns the same series |
| BigBuyer.MedianIsFixed | packages/forecast/src/big-buyer.ts:57-72 | capping leaves the median positive day where it was |
| BigBuyer.CappedTotals | packages/forecast/src/big-buyer.ts:62-71 | a flagged day's rescaled rows sum exactly to the cap, returns included; other days keep their totals |
| BigBuyer.FlaggedDay | packages/forecast/src/big-buyer.ts:63-71 | on a flagged day the scale factor lies strictly between 0 and 1 and the capped day is the target |
| BigBuyer.TargetBetween | packages/forecast/src/big-buyer.ts:61-62 | the cap lies above twice the median and below the threshold |
| BigBuyer.CappingConserves | packages/forecast/src/big-buyer.ts:47-79 | over the whole history a flagged eligible day ends on the cap, below its total, and every other day on its own total |
| BigBuyer.RowsKept | packages/forecast/src/big-buyer.ts:73-77 | row order and length stay; only positive rows of flagged eligible days change, and only their quantity, to something smaller and positive |
| BigBuyer.BulkBuyIsFlaggedDay | packages/forecast/src/big-buyer.ts:82-84 | there is a bulk buy if and only if some eligible day is flagged, and none in a cleaned series |
| BulkDates.OtherRowsKept | packages/forecast/src/big-buyer.ts:45-50 | rows of the calendar day of `asOf`, of later days and of excluded days come back as they were |
| BulkDates.OtherRowsDoNotMatter | packages/forecast/src/big-buyer.ts:45-80 | deleting those rows beforehand changes neither a cap nor any other row |
| BulkDates.BulkDayEndsOnCap | packages/forecast/src/big-buyer.ts:30-72 | a completed day, not excluded, of more than 6 units and 5 typical days ends on 3 typical days rounded, at least 5; every other day on what it sold |
| BulkDates.CapsAreBulkDays | packages/forecast/src/big-buyer.ts:58-79 | one cap for each such day and no other, in date order, with what it sold, ends on, the typical day, the threshold and the multiple |
| AdjustedRate.ComputeGapDays | packages/forecast/src/baseline.ts:145-172 | the loops compute the inferred gap days, natural slow sellers and short windows included |
| AdjustedRate.InferenceMeans | packages/forecast/src/baseline.ts:152-158 | in a window of a day or more gaps are inferred exactly between at least two rows that sold half a unit a day or more |
| AdjustedRate.GapSumCounts | packages/forecast/src/baseline.ts:160-170 | the accumulated spans count exactly the days inside long silences that are not excluded |
| AdjustedRate.ClipNeverBites | packages/forecast/src/baseline.ts:160-171 | for sales at any time of day the summed gap is at most the window less one day, so that the clip changes nothing, if and only if the window rounds to at least a day |
| AdjustedRate.DenominatorCountsOpenDays | packages/forecast/src/baseline.ts:193-197 | on midnight-aligned data, window minus gap minus excluded equals the number of window days neither silent nor excluded |
| AdjustedRate.WeightedDailyRateAdjusted | packages/forecast/src/baseline.ts:181-201 | the loop blends the damped rates of the three windows over their effective days |
| AdjustedRate.SaleDaysWithinDenominator | packages/forecast/src/baseline.ts:181-201 | with sales and excluded days dated at midnight, no window has more damped sale days than effective days |
| AdjustedRate.AdjustedRateBetween | packages/forecast/src/baseline.ts:174-201 | with sales dated at midnight the rate is at most the best non-excluded day of the year, and not negative without net returns |
| OffMidnight.WindowRateExact | packages/forecast/src/baseline.ts:191-198 | at any time of day a window's rate is at most its best day when the calendar days it touches without a sale are at least the gap days, the excluded days and, if it starts during a day, one more, or a single day sold; when every sale day sells as much as the best, only then |
| OffMidnight.OffMidnightRateExceedsBestDay | packages/forecast/src/baseline.ts:181-201 | one unit sold every day, after noon but for the last morning, gives at noon a rate above one |
| TimeOfDay.SameTimeOfDayBetween | packages/forecast/src/baseline.ts:181-201 | with all sales at one time of day and none excluded the rate is at most the best day, and not negative without net returns |
| TimeOfDay.SameTimeOfDaySaleDays | packages/forecast/src/baseline.ts:181-201 | then too no window has more damped sale days than effective days |
| BlockedDays.CensoredDaysInWindow | packages/forecast/src/baseline.ts:211-215 | counts the listed stockout dates inside the window |
| BlockedDays.BlockedDaysInWindow | packages/forecast/src/baseline.ts:118-137 | with excluded days the number of distinct blocked days, without any the listed stockout dates |
| BlockedDays.BlockedDaysAreCalendarDays | packages/forecast/src/baseline.ts:115-117 | the distinct count is the number of the window's midnights that are blocked |
| BlockedDays.StockoutCountIsDistinct | packages/forecast/src/baseline.ts:115-124 | the stockout-only count is the distinct count if and only if no stockout day of the window is listed twice |
| BlockedDays.ListedTwiceCountsTwice | packages/forecast/src/baseline.ts:124-124 | a stockout day listed twice counts twice |
| WeeklyMedian.WeeklyRates | packages/forecast/src/baseline.ts:330-343 | the seven-day buckets partition the window; exposure counts exactly its unblocked days |
| WeeklyMedian.BlockSilences | packages/forecast/src/baseline.ts:320-327 | blocks exactly the midnights strictly inside a silence of more than seven days |
| WeeklyMedian.BlockedDays | packages/forecast/src/baseline.ts:307-329 | a window day is unblocked exactly when it is not excluded and either sold or is neither a stockout nor silent |
| WeeklyMedian.ComputeBaseline | packages/forecast/src/baseline.ts:304-349 | one window's rate: the weekly median or, with too little evidence, the exposure mean |
| WeeklyMedian.WeightedDailyRateMedianCensored | packages/forecast/src/baseline.ts:289-352 | the blend of the three windows over completed days, 0 without any |
| WeeklyMedian.OnlyCompletedDays | packages/forecast/src/baseline.ts:296-298 | rows of the day of `asOf` and of later days do not enter the baseline: it is that of the rows dated before that midnight |
| WeeklyMedian.SilenceMeans | packages/forecast/src/baseline.ts:314-319 | silences are inferred exactly with at least two rows in an uncovered stretch of a day or more, at half a unit a day or more |
| WeeklyMedian.UncoveredRows | packages/forecast/src/baseline.ts:312-316 | they are looked for among the window's rows before the first snapshot's day or, without snapshots, among all when no stockout is listed and among none otherwise |
| WeeklyMedian.EffectiveWindowDays | packages/forecast/src/baseline.ts:383-396 | the denominator is never below the in-stock days or 1; in a window of a week or more it is at least 7, or 3 when the signal is consistent, and it exceeds the in-stock days only up to that floor |
| WeeklyMedian.ConsistentMeans | packages/forecast/src/baseline.ts:391-394 | the signal is consistent exactly with at least two sale days on at least 60% of the in-stock days |
| WeeklyMedian.SaleDaysExposed | packages/forecast/src/baseline.ts:328-329 | no window has more damped sale days than exposed days |
| WeeklyMedian.WeekRatesBetween | packages/forecast/src/baseline.ts:332-343 | every weekly average lies between 0 and the best exposed day |
| WeeklyMedian.WindowBaselineBetween | packages/forecast/src/baseline.ts:344-348 | a window's baseline lies between 0 and its best non-excluded day |
| WeeklyMedian.WindowBaselineMeans | packages/forecast/src/baseline.ts:330-347 | with at least four weeks and a positive median of them the baseline is that, with at least half of the weeks on each side; otherwise it times the effective days is the damped units, none if negative; positive units always give a positive baseline |
| WeeklyMedian.MedianBaselineBetween | packages/forecast/src/baseline.ts:280-352 | the weekly-median baseline lies between 0 and the best non-excluded day of its 364 days |
| CensoredRate.WeightedDailyRateCensored | packages/forecast/src/baseline.ts:225-271 | the loop blends the damped rates over the days left after listed stockouts, excluded days and the gaps inferred before the first snapshot; without stockouts or snapshots it is the gap-inference rate |
| CensoredBound.CensoredWindowExact | packages/forecast/src/baseline.ts:258-269 | from midnight sales, a window's rate is at most its best day when the listed days that sold plus the surplus subtractions are no more than the days neither listed nor sold, or at most three days sold, or all days are gone and at most seven sold; when every sale day sells as much as the best, only then |
| CensoredBound.SurplusIsInferred | packages/forecast/src/baseline.ts:118-137 | from lists that name no midnight twice the surplus is the gap inferred before the first snapshot, and nothing once snapshots reach back past the window |
| CensoredBound.CensoredRateBetween | packages/forecast/src/baseline.ts:235-271 | from such lists, with no stockout before the first snapshot and no sale day listed, the rate is at most the best non-excluded day of the year, whatever was sold and inferred |
| CensoredBound.MarkedOutRateExceedsBestDay | packages/forecast/src/baseline.ts:266-269 | one unit on each of thirty days, all listed as stockouts, gives a rate above two |
| CensoredRate.MarkedOutWindowExceeds | packages/forecast/src/baseline.ts:266-268 | a window blocked throughout counts as a week, so with even sales its rate exceeds the best day exactly from eight sale days on |
| CensoredRate.CensoredBetween | packages/forecast/src/baseline.ts:245-271 | when each window has at most as many sale days as effective days the rate is at most the best day |
| IsoWeeks.DateRoundTrip | apps/worker/src/owner-report.ts:116-150 | a date's key reads back as the Monday of its week if and only if its year is not one of 0 to 99 |
| Calendar.YearStart | apps/worker/src/owner-report.ts:116-124 | years start where ECMA-262, section 21.4.1.3, puts them, leap days of every fourth year but three in four centuries included |
| Calendar.MonthLengths | apps/worker/src/owner-report.ts:116-124 | months have their lengths, February a day more in a leap year |
| IsoWeeks.KeyRoundTrip | apps/worker/src/owner-report.ts:116-150 | a valid key comes back from its own Monday if and only if neither its year nor that Monday's is one of 0 to 99 |
| IsoWeeks.WeeksInYear | apps/worker/src/owner-report.ts:115-124 | a year has 53 ISO weeks exactly when 1 January is a Thursday, or a Wednesday of a leap year (ISO 8601:2004, section 2.2.10) |
| IsoWeeks.KeyReadsBack | apps/worker/src/owner-report.ts:136-150 | reading a printed key gives the Monday of its year and week |
| IsoWeeks.KeyOrderIsChronological | apps/worker/src/owner-report.ts:300-300 | for four-digit ISO years the text order of keys is the order of their Mondays, and equal keys are equal weeks |
| OwnerReport.CompletedWeeks | apps/worker/src/owner-report.ts:153-168 | the loop lists the keys of the weeks before the current one, oldest first |
| OwnerReport.CompletedWeeksAreConsecutive | apps/worker/src/owner-report.ts:152-168 | they are as many as asked for, and each reads back as its Monday, counted back from this week's, if and only if neither today nor that Monday lies in the years 0 to 99 |
| OwnerReport.TrailingWeekKeys | apps/worker/src/owner-report.ts:172-182 | the loop collects the keys of the trailing window's weeks; a period that is no date leaves the one key that matches no week |
| OwnerReport.TrailingWeeksAreDistinct | apps/worker/src/owner-report.ts:170-182 | one key for the period and each week just before it, each reading back as its Monday if and only if that is not in the years 0 to 99; if none is, all are different |
| OwnerReport.SoldEverBy | apps/worker/src/owner-report.ts:301-306 | true exactly when some period sold is not after the given one in text order |
| OwnerReport.SoldEverByIsChronological | apps/worker/src/owner-report.ts:300-306 | that is the same as having sold in a week that started no later |
| SalesHistory.Table.ReplaceDays | apps/worker/src/shopify-sync.ts:700-709 | deleting all date chunks and then inserting all row chunks is the one-shot replacement, for any chunk size |
| SalesHistory.ReplaceIsExact | apps/worker/src/shopify-sync.ts:674-678 | the rebuilt days hold exactly the new rows and every other row is as before |
| SalesHistory.ReplaceIdempotent | apps/worker/src/shopify-sync.ts:674-709 | replacing again with the same rows changes nothing |
| SalesHistory.ReplacementsCommute | packages/pos/src/ingest.ts:230-234 | the shop sync and the till rebuild commute: each touches only its own channel |
| PosRollup.BucketsHold | packages/pos/src/aggregate.ts:287-314 | the fold makes one bucket per product and day with a line, holding the sums of its lines and their locations |
| PosRollup.DaysAreIndependent | packages/pos/src/aggregate.ts:287-314 | a day's buckets depend only on that day's lines |
| PosRollup.RowsIgnoreLineOrder | packages/pos/src/aggregate.ts:277-326 | the derived rows do not depend on the order in which the lines are read |
| PosTable.FoldHolds | packages/pos/src/aggregate.ts:277-326 | the fold of a day has one till row for each product with a line that counts, with the sum of their quantities, the sum of subtotal or else price times quantity or else catalogue price times quantity, and a location if and only if all those receipts map to that one real one |
| PosRollup.PadMissesNothing | packages/pos/src/ingest.ts:213-219 | the 36-hour pad misses no receipt of a wanted day for any clock from 12 hours behind to 14 ahead of UTC |
| PosRollup.PadIsExact | packages/pos/src/ingest.ts:214-215 | for a fixed offset the pad is enough if and only if the offset lies from -12 to +36 hours |
| PosPlan.DedupeKeepsLast | packages/pos/src/aggregate.ts:138-147 | no id is left twice and what is left are exactly the last receipts of each id |
| PosPlan.OnlineMeans | packages/pos/src/aggregate.ts:95-103 | a receipt is online exactly when its channel is one of the five online names or its operator is the shop |
| PosPlan.PlanKeepsLast | packages/pos/src/aggregate.ts:147-153 | the receipts planned are exactly the last one of each id where it is physical, each id once |
| PosPlan.PlanSales | packages/pos/src/aggregate.ts:118-259 | the loops plan those receipts; planned and excluded receipts add up to the distinct ids, every stored line is counted as one of matched, unmatched and ignored, and the unmatched queue is the ranked one |
| PosLines.RankedQueueIsExact | packages/pos/src/aggregate.ts:179-247 | the queue has one entry for each unmatched code, with the units and revenue of all its lines and its first spelling, most revenue first |
| PosIngest.Feed.RebuildDays | packages/pos/src/ingest.ts:210-236 | the padded read, day filter, delete and chunked insert replace the days' till rows, and each of the days then has exactly the rows the stored lines call for, field by field |
| PosIngest.Feed.IngestPosSales | packages/pos/src/ingest.ts:63-199 | receipts are replaced by id, the days of the old and new ones then have exactly the rows the stored lines call for, and the receipt, line, row and unmatched-code counts and the sample of codes returned are the true ones |
| PosIngest.Feed.HealPosRollup | packages/pos/src/ingest.ts:239-264 | the recent local days then have exactly the rows the stored lines call for, and the days and till rows are counted; a window length out of range is refused and changes nothing |
| PosIngest.RebuildAgrees | packages/pos/src/ingest.ts:209-236 | a rebuild makes its days equal the ledger's fold whatever they held and leaves other days alone |
| PosIngest.AgreeingDayHolds | packages/pos/src/ingest.ts:209-236 | a day that agrees with the ledger has one till row for each product sold that day, with the units, money and location of its lines |
| PosIngest.IngestAgrees | packages/pos/src/ingest.ts:131-184 | after an ingest each day agrees with the ledger if it did before or a leaving or coming receipt fell on it |
| PosIngest.HealAgrees | packages/pos/src/ingest.ts:238-264 | a repair makes its window agree whatever it held |
| PosIngest.RunAgrees | packages/pos/src/ingest.ts:63-264 | while the lookups stay the same, over every run of ingests and repairs every day keeps exactly the till rows that the stored physical receipts of that local day call for |
| PosIngest.RunFollowsLastLookups | packages/pos/src/ingest.ts:63-264 | over every run with lookups that change from call to call, a day ends as the fold of its receipts under the lookups of the last call that touched it, and a day no call touched keeps its rows and its fold |
| PosIngest.RunNeverRepeatsAReceipt | packages/pos/src/aggregate.ts:138-147 | over every run no receipt id is stored twice, however often payloads repeat it |
| PosIngest.RunFromEmptyAgrees | packages/pos/src/ingest.ts:63-264 | from an empty store every run with the same lookups gives every day exactly those rows |
| PosIngest.OtherChannelsUntouched | packages/pos/src/ingest.ts:231-234 | no run touches a row of another channel |
| PosResend.ReingestChangesNothing | packages/pos/src/ingest.ts:131-184 | with the same lookups, sending a payload again to any store changes neither the ledger, nor any day's till rows, nor which rows the sales table holds |
| PosResend.HealTwiceIsOnce | packages/pos/src/ingest.ts:238-264 | with the same lookups, repairing again leaves the whole store exactly as the first repair did |
| PosResend.PartsAgreeWithWhole | packages/pos/src/aggregate.ts:138-147 | with the same lookups, a payload and its head followed by its tail store the same receipts, and end with the same till rows on a day if and only if the day is not a stale one that only the parts rebuild |
| PosResend.StaleDayTellsPartsApart | packages/pos/src/ingest.ts:131-184 | a stale till row on the day of a receipt that the tail moves survives the whole payload and not its parts |
| PosResend.PartsAgreeAltogether | packages/pos/src/aggregate.ts:145-146 | with the same lookups, from a store that agrees with its ledger the two ways end with the same receipts and the same rows altogether |
| LearnedAliases.MatchMap.MergeLearned | packages/pos/src/ingest.ts:42-58 | known codes stay; an unknown code is added if and only if every hand match of it names one product |
| LearnedAliases.LearningIgnoresOrder | packages/pos/src/ingest.ts:36-41 | what is learned depends only on which matches were made |
| LearnedAliases.LearningTwiceIsOnce | packages/pos/src/ingest.ts:42-58 | learning the same history again adds nothing |
| PosRelearn.IngestRequest | packages/pos/src/ingest.ts:63-199 | a whole request: learns from the lines stored before any is deleted, then ingests with what it learned |
| PosRelearn.RepostExact | packages/pos/src/ingest.ts:104-184 | a payload sent again changes the ledger if and only if one of its codes is settled by it, matched to several products before and to one without the receipts sent again; it reads other lookups if and only if some code is so settled or loses its only matches |
| PosRelearn.RepostIsQuiet | packages/pos/src/ingest.ts:104-184 | when neither happens, sending it again changes no receipt and no row |
| PosRelearn.ThirdPostIsQuiet | packages/pos/src/ingest.ts:104-184 | from any store, a payload sent a third time changes no receipt and no row |
| PosRelearn.RepostSettlesACode | packages/pos/src/ingest.ts:104-184 | a code matched to two products, one only in the receipt sent again, is left unmatched by the first post and matched by the second |
| PosRelearn.RepairAgainIsQuiet | packages/pos/src/ingest.ts:238-264 | a repair learns from a ledger it leaves alone, so a second one changes nothing |
| PosRelearn.PostedPartsAgree | packages/pos/src/ingest.ts:104-184 | when the head settles and loses no code, head and tail posted apart agree with the whole payload as far as with the same lookups |
| InventorySync.Inventory.SyncLocationsAndInventory | apps/worker/src/shopify-sync.ts:436-577 | the nested loops leave the locations, levels and product figures of the specification and report the true counts |
| InventorySync.Inventory.UpdateProducts | apps/worker/src/shopify-sync.ts:562-575 | skipping unmoved products ends as the unconditional rewrite; unseen products keep their figures; nothing is written exactly when nothing moved |
| StockFigures.ProductFigures | apps/worker/src/shopify-sync.ts:476-575 | a product the pull names ends with the units its selling locations have available, or on hand where that is not given, and on order what is incoming anywhere that counts or stands en route; any other keeps its figures |
| InventorySync.SkippingIsExact | apps/worker/src/shopify-sync.ts:502-522 | a level ends as after a full rewrite if and only if the pull does not move it and put it back |
| InventorySync.SkippingIsRefinement | apps/worker/src/shopify-sync.ts:502-522 | for a pull that names each location and product once the tables end exactly as after a full rewrite |
| InventorySync.RevertedLevelStaysMoved | apps/worker/src/shopify-sync.ts:508-522 | a level named twice, moved and put back, stays moved |
| InventorySync.SecondPullIsQuiet | apps/worker/src/shopify-sync.ts:446-577 | an identical second pull writes no level or product and reports no change |
| InventorySync.ConfirmedStays | apps/worker/src/shopify-sync.ts:474-484 | a pull never confirms a location nor changes the type of a confirmed one |
| InventorySync.RoleIsStable | apps/worker/src/shopify-sync.ts:475-485 | the role used equals the stored type's role, and is the same at the next pull |
| InventorySync.RoleRoundTrip | packages/db/src/roles.ts:29-62 | reading the type stored for a role gives the role back |
| Gateway.Server.OnAuthorized | apps/ws-gateway/src/gateway.ts:204-227 | a refused socket is never bound; an authorised one enters both maps |
| Gateway.Server.OnPong | apps/ws-gateway/src/gateway.ts:228-231 | marks a bound socket alive and nothing else |
| Gateway.Server.OnClosed | apps/ws-gateway/src/gateway.ts:232-237 | the captured tenant's set and the socket map lose the socket; an emptied set is dropped |
| Gateway.Server.Heartbeat | apps/ws-gateway/src/gateway.ts:250-265 | terminates exactly the sockets that did not answer and asks the others |
| Gateway.Server.Deliver | apps/ws-gateway/src/gateway.ts:167-173 | tries each open socket of the tenant once, a throwing send or not |
| Gateway.Server.OnMessage | apps/ws-gateway/src/gateway.ts:155-180 | fans out only where channel and envelope agree and reports a failed delivery once |
| Gateway.EveryRunIsConsistent | apps/ws-gateway/src/gateway.ts:131-265 | over every interleaving both maps describe one binding, no tenant set is empty, and every frame ever tried came on the channel of the tenant its socket is bound to, in an envelope naming that tenant |
| Gateway.StepKeepsConsistent | apps/ws-gateway/src/gateway.ts:155-265 | every handler keeps that invariant |
| Gateway.MessageReachesItsTenant | apps/ws-gateway/src/gateway.ts:155-173 | a message is tried exactly once on each open socket bound to the tenant whose channel it came on and whom its envelope names, and nothing else is tried |
| Gateway.ChannelNamesItsTenant | packages/realtime/src/events.ts:57-68 | a channel names a tenant if and only if it is "tenant:" and that non-empty id; every other channel names none |
| Gateway.FailureIsReportedOnce | apps/ws-gateway/src/gateway.ts:163-180 | a message is reported once if a send to one of those sockets threw, and not at all otherwise |
| Gateway.ClosedSocketIsForgotten | apps/ws-gateway/src/gateway.ts:232-237 | a closed bound socket is in neither map |
| Gateway.SilentSocketIsTerminated | apps/ws-gateway/src/gateway.ts:250-258 | a bound socket silent after a heartbeat is terminated at the next |
| Gateway.TerminatedIffSilent | apps/ws-gateway/src/gateway.ts:228-258 | between two heartbeats, a socket that stays bound is terminated at the second if and only if it did not pong |
| RecommendationRules.DiscountIsLargestAffordable | packages/forecast/src/recommendations.ts:69-75 | the discount is the largest multiple of five within the target that keeps the price at 1.05 times cost, and exists if and only if ten percent does |
| RecommendationRules.TagPrice | packages/forecast/src/recommendations.ts:130-138 | the rounded price is within half a unit of that floor; it covers the cost if and only if the exact price is at most half a unit short of the cost rounded up, and always for a whole cost or a cost of ten or more |
| RecommendationRules.TagPriceBelowFractionalCost | packages/forecast/src/recommendations.ts:131-131 | a small cost with cents can exceed the rounded price |
| RecommendationRules.FindAnchors | packages/forecast/src/recommendations.ts:81-87 | a category has an anchor exactly when it has a live A product in stock, and it is the first of the best sellers |
| RecommendationRules.ActionsOf | packages/forecast/src/recommendations.ts:9-19 | which actions an idle product gets, each if and only if its conditions hold, and at most two; none when it is not idle |
| RecommendationRules.RecommendFor | packages/forecast/src/recommendations.ts:77-152 | emits exactly the rules' verdicts, most cash first, and no (product, action) twice |
| RecommendationFacts.RulesSay | packages/forecast/src/recommendations.ts:89-149 | each recommendation for a product has its whole idle units, the cash they cost, and the payload of its kind: planned units, the largest funded cut with the new and the old price rounded, the idle units, or the anchor |
| RecommendationFacts.KindsOf | packages/forecast/src/recommendations.ts:9-19 | in the product's own numbers: a stop exactly with idle units and more planned, then a cut exactly when ten percent is funded, else clearing exactly when dead for two windows, else a bundle exactly with another anchor in its category |
| RecommendationFacts.AnchorsAreBestSellers | packages/forecast/src/recommendations.ts:81-87 | a category has an anchor exactly when a live A product with stock is in it, and that is the fastest seller of these, the first on a tie |
| RecommendationFacts.EmittedListSays | packages/forecast/src/recommendations.ts:77-152 | the emitted list is most cash first, then most units, each entry for one of the products with those numbers |
| RecommendationRules.RulesHaveDistinctKeys | packages/forecast/src/recommendations.ts:15-19 | the rules never give a product the same action twice |
| RecommendationRun.RulesGiveDistinctVerdicts | apps/worker/src/recommendations-cron.ts:171-173 | the sentences of recommendations have distinct keys if and only if the recommendations do |
| RecommendationRun.Recommendations.RunTenant | apps/worker/src/recommendations-cron.ts:164-263 | rules and run together: afterwards the list holds exactly what the rules say today and is not put off, and the three counts say how it changed |
| RecommendationRun.Recommendations.Run | apps/worker/src/recommendations-cron.ts:164-263 | the rows end as specified, and the open, opened, resolved and worded counts returned are the true ones |
| RecommendationRun.RunAt | apps/worker/src/recommendations-cron.ts:184-238 | row by row: a live key as judged, an open row no longer live resolved, every other row as it was, no row dropped |
| RecommendationRun.OpenAfterRun | apps/worker/src/recommendations-cron.ts:159-163 | after a run the open rows are exactly the live keys not snoozed past now |
| RecommendationRun.OpenedAndResolved | apps/worker/src/recommendations-cron.ts:199-219 | the keys counted as opened and resolved are exactly those that entered and left the list |
| RecommendationRun.SecondRunIsQuiet | apps/worker/src/recommendations-cron.ts:182-238 | a second run on the same facts and clock opens and resolves nothing, asks only for wordings the first did not get, and with all of them changes no row |
| RecommendationRun.Recommendations.Close | apps/web/app/(shell)/recommendations/actions.ts:39-46 | only an open row can be closed, and closing takes it off the list |
| RecommendationRun.EveryHistoryIsWellKept | apps/worker/src/recommendations-cron.ts:184-220 | in every history of runs and closings an open row has no closing date or snooze and a closed one has what it needs |
| RecommendationRun.SnoozeIsKept | apps/worker/src/recommendations-cron.ts:198-199 | a closed row stays as closed through every run and click before its snooze ends |
| RecommendationRun.ClosedThenBack | apps/web/app/(shell)/recommendations/actions.ts:19-22 | a closed recommendation is off the list for its 30 or 90 days, and a later run lists it again if and only if it still applies and they are over |
| CountQuantile.CountQuantile | packages/forecast/src/calibrated-quantile.ts:24-55 | returns the least count whose closed-form distribution function reaches tau, or the backstop |
| CountQuantile.MassStep | packages/forecast/src/calibrated-quantile.ts:36-50 | the running term of both loops is the closed-form Poisson or Negative-Binomial probability |
| CountQuantile.MomentsMatch | packages/forecast/src/calibrated-quantile.ts:43-45 | r(1-p)/p and r(1-p)/p² of the fitted parameters are exactly the mean and the variance |
| CountQuantile.FitHasMoments | packages/forecast/src/calibrated-quantile.ts:30-53 | the probabilities the loops add up have the first and second moments of that mean and variance, up to an explicit share of the last term |
| CountQuantile.MonotoneInTau | packages/forecast/src/calibrated-quantile.ts:25-26 | a higher tau never gives less, except exactly from just under one to one or more |
| CountQuantile.FallsAtOne | packages/forecast/src/calibrated-quantile.ts:26-26 | there the count can fall |
| CountQuantile.CalibratedCover | packages/forecast/src/calibrated-quantile.ts:78-86 | the cover is the quantile of the corrected, floored demand over the horizon, 0 without demand |
| CountQuantile.CoverIsOverDispersed | packages/forecast/src/calibrated-quantile.ts:66-86 | with a dispersion floor above one the cover always comes from a Negative Binomial at least that dispersed |
| Abc.AssignAbc | packages/forecast/src/abc.ts:40-63 | every id gets a class: that of its last ranked item, by revenue above it and then the demotions |
| Abc.CutsAreSmallest | packages/forecast/src/abc.ts:43-52 | before demotion A is the smallest leading part of the ranking with 70% of revenue, A and B with 90%, and the top earner is in A, losses included |
| Abc.FewestItems | packages/forecast/src/abc.ts:4-6 | whatever items together hold that share are at least as many |
| Abc.OnlyDemotes | packages/forecast/src/abc.ts:53-59 | the velocity and sale-span rules only demote; exactly what stays in A and what ends in C |
| Abc.NoRevenueIsAllC | packages/forecast/src/abc.ts:50-52 | without positive total revenue everything is C |
| Abc.FiledUnderA | packages/forecast/src/abc.ts:40-63 | in the classes assigned, an id is in A if and only if less than 70% of revenue is ranked above its last item and neither rule applies to that |
| Abc.FiledUnderC | packages/forecast/src/abc.ts:40-63 | and in C if and only if at least 90% is ranked above it or it is one of the slowest |

## Left out

- Floating point: quantities and rates are exact reals; the 1e-9 slacks of the rounding and the drain are kept because they decide branches.
- `exp`, `pow` and `sqrt`: the first probability and the backstop of the quantile are given values, the first probability positive.
- Invalid dates, NaN and infinite quantities: the series cleaner skips them, and here every date and quantity is a number.
- Time zones: a tenant's clock is any function from instants to offsets between -12 and +14 hours.
- `localeCompare`: the rounding breaks ties by any given total order of the ids, not by one locale's.
- Month granularity of the report periods: only week keys are read and printed.
- OwnerReport.TrailingWeekKeys: the numbers of a period are decimal integers or empty; signs with a plus, fractions, exponents, hexadecimals and surrounding space, which JavaScript also reads, and years outside its range of dates are not modelled.
- AdjustedRate.AdjustedRateBetween: sales must be dated at midnight, as the derived sales table dates them; `TimeOfDay.SameTimeOfDayBetween` covers one other time of day without excluded days, and `OffMidnight.OffMidnightRateExceedsBestDay` is the case that fails. The weekly-median baseline has no such condition.
- AdjustedRate.SaleDaysWithinDenominator: the same condition, for the same reason, with `TimeOfDay.SameTimeOfDaySaleDays` beside it.
- CensoredBound.CensoredWindowExact: sales must be dated at midnight; the other direction is stated for windows whose sale days sell alike, which is where the bound is tight.
- OffMidnight.WindowRateExact: the other direction, likewise, for windows whose sale days sell alike.
- The plain rate of baseline.ts (`weightedDailyRate`), safety stock and urgency: compositions of the parts proved here.
- PosIngest.RunAgrees: the clock stays fixed over a run and so do the lookups; `PosIngest.RunFollowsLastLookups` says what holds when the lookups change.
- PosIngest.RunFromEmptyAgrees: the same fixed clock and lookups.
- PosResend.ReingestChangesNothing: the same lookups at both calls; `PosRelearn.RepostExact` says when a request that learns anew reads the same ones.
- PosResend.PartsAgreeWithWhole: the same lookups at every call; `PosRelearn.PostedPartsAgree` says when requests that learn anew read the same ones.
- PosResend.PartsAgreeAltogether: the same.
- PosIngest.Feed.IngestPosSales: an unknown tenant is not modelled, nor are the receipt fields that are only carried along (reference, agent, customer, payment status, totals, product names).
- PosRelearn.IngestRequest: people's matches between two requests are not steps here; a request starts from whatever lines are stored.
- The order in which the database returns lines is the ledger's; `PosRollup.RowsIgnoreLineOrder` says why it does not matter.
- InventorySync: a stored location is named by the shop's own id, and the role guessed from a location name is a given function.
- The drift report of the order sync and how the shop's orders become rows.
- Gateway: a socket that closes while its authorisation is still pending is bound afterwards and its close is not seen; only closes after binding are events here. Authorisation itself, the health endpoint and error reporting beyond the count are not modelled.
- RecommendationRun: the sentence of each verdict and the generated wordings are given texts, a wording is written as a pair, and notifications are not modelled.
- RecommendationRules.RecommendFor: the facts about a product (dead or not, rates, plans) are inputs.
- Database transactions and locks are single steps; HTTP, queues, mail and screens are not modelled.
