# Service-charge engine of imifosx-server, modelled in Dafny

This project models the service-charge calculation engine of the imifosx
server (a Fineract derivative), together with the small helpers around it:

- **Per-loan balance summaries** (`ServiceChargeLoanSummaryFactory`).
  - The monthly-snapshot builder (`LoanSummaryQuarterly`) walks the billing
    period backward one calendar month at a time. It records each month's
    balance, then adds that month's repayments back on.
  - The daily time-weighted builder (`LoanSummaryDaily`) makes the same walk.
    Inside each month it groups repayments by day and accumulates
    `balance × days held`.
  - A per-loan-id memo cache.
  - The month-wise aggregation of outstanding figures, filtered by the
    demand-loan flag.
- **Billing periods.** The four quarters (`QuarterlyServiceChargeDateRange`)
  and the year (`YearlyServiceChargeDateRange`): boundary templates, the
  stored year of each constant, and selection by month code.
- **Decimal and HTML helpers** (`ServiceChargeOperationUtils`). A guarded
  divide-then-multiply on `BigDecimal`, and a map-to-HTML-table builder.
- **Deposit-account request validation**
  (`DepositAccountTransactionDataValidator`).
- **Two batch-API strategies.** They read a client id out of a relative URL
  and echo the request into the response (`ActivateClientCommandStrategy`,
  `UpdateClientCommandStrategy`).

Everything is pure. Collaborators the engine calls but whose code is not part
of this model are parameters:

- the repayment-transaction reader;
- the loop-end rule for the daily walk;
- the backward day iterator;
- the day-difference function;
- the day-key formatter;
- the wall-clock month and year;
- the quarterly duration;
- the month-token constants;
- the clients resource and the error handler.

The Java `enum` constants' mutable `year` fields are an explicit record that
each operation takes and returns.

Modules, one per file:

- `Results`: `Option` and `Result`.
- `SeqMath`: sums and reversal of integer lists.
- `Calendar`: Gregorian dates and the month-end walk.
- `Numerals`: `Integer.toString` and `Long.parseLong`.
- `ServiceChargeDateRange`: the billing periods.
- `LoanSummaryModel`: shared types.
- `LoanSummaryMonthly`: the monthly builder.
- `DailyGrouping` and `DailyWalk`: the two halves of a daily-builder month.
- `LoanSummaryDaily`: the daily builder.
- `LoanSummaryFactory`: the cache and the aggregation.
- `OperationUtils`: the decimal and HTML helpers.
- `DepositValidator`: the deposit-request validator.
- `BatchClient`: the two batch strategies.

The daily builder runs the day grouping as written, so a month with two
repayments on one day records more than the principal repaid (see
Findings). `LoanSummaryDaily.BuildDailyCorrected` is the same builder with
the corrected grouping total. The two give the same summary when no month
has two repayments on one day.

Notes on the code's behaviour that a reader might not expect:

- The daily builder stores no outstanding entry for a month that ends on or
  before disbursement, so its outstanding list can be shorter than its
  repayment list.
- Only the outstanding list is reversed into earliest-month-first order; the
  repayment list stays in walk order, latest month first.
- Months before disbursement are not always zero: the daily builder leaves
  them out of the outstanding list instead.
- The month walk steps back from the calendar's month, so in the daily
  builder it ignores the loop end that was computed into the same variable.

## Model

| member | source | states |
|---|---|---|
| LoanSummaryMonthly.BuildMonthly | fineract-provider/src/main/java/org/apache/fineract/portfolio/servicecharge/util/ServiceChargeLoanSummaryFactory.java:230-291 | one outstanding and one repayment entry per month of the duration (none for a negative duration); the returned balance is the starting total outstanding plus the sum of the recorded repayments; the demand flag and disbursement date are carried over |
| LoanSummaryMonthly.MonthlyBuilderContents | fineract-provider/src/main/java/org/apache/fineract/portfolio/servicecharge/util/ServiceChargeLoanSummaryFactory.java:248-289 | month i of the walk sits at repayment position i and at outstanding position n-1-i. A month ending on or before disbursement records 0 for both. An active month records its repayment-type amounts, and as outstanding the balance before its repayments are added back (start plus all later months' repayments) |
| LoanSummaryMonthly.MonthlyWalkSpec | fineract-provider/src/main/java/org/apache/fineract/portfolio/servicecharge/util/ServiceChargeLoanSummaryFactory.java:248-288 | the loop keeps its invariant: entries per month, each repayment entry equal to that month's repaid amount, each outstanding entry equal to the balance before the month, the balance equal to the start plus all repayments so far |
| LoanSummaryMonthly.MonthlyStep | fineract-provider/src/main/java/org/apache/fineract/portfolio/servicecharge/util/ServiceChargeLoanSummaryFactory.java:249-287 | one loop pass, at the k-th month end, extends the invariant from k to k+1 months |
| LoanSummaryMonthly.MonthlyTotals | fineract-provider/src/main/java/org/apache/fineract/portfolio/servicecharge/util/ServiceChargeLoanSummaryFactory.java:177-211 | the summary's total repayments is the returned balance minus the starting total outstanding, and its total outstanding is the sum of the per-month balances whatever order they are stored in |
| LoanSummaryModel.AppendReversed | fineract-provider/src/main/java/org/apache/fineract/portfolio/servicecharge/util/ServiceChargeLoanSummaryFactory.java:306-312 | the target keeps its entries and gains the list read back to front, entry j of the tail being entry n-1-j of the list |
| LoanSummaryModel.ActiveMonthsArePrefix | fineract-provider/src/main/java/org/apache/fineract/portfolio/servicecharge/util/ServiceChargeLoanSummaryFactory.java:255 | the disbursement test passes for a run of months at the start of the walk: if a later month is active, every earlier one is |
| LoanSummaryModel.AllActiveBefore | fineract-provider/src/main/java/org/apache/fineract/portfolio/servicecharge/util/ServiceChargeLoanSummaryFactory.java:255 | when month k is active, all k months before it are counted active |
| DailyGrouping.GroupRepayments | fineract-provider/src/main/java/org/apache/fineract/portfolio/servicecharge/util/ServiceChargeLoanSummaryFactory.java:516-540 | a day key is in the map iff some repayment-type transaction falls on it. Its value is that day's total principal portion. The total is the principal repaid over all repayment-type transactions. This is the corrected total, see Findings |
| DailyGrouping.NoRepaymentNoPrincipal | fineract-provider/src/main/java/org/apache/fineract/portfolio/servicecharge/util/ServiceChargeLoanSummaryFactory.java:522-534 | a day with no repayment-type transaction carries no principal |
| DailyGrouping.SameDayMap | fineract-provider/src/main/java/org/apache/fineract/portfolio/servicecharge/util/ServiceChargeLoanSummaryFactory.java:524-536 | the map as written equals the corrected map; the two differ only in the returned total |
| DailyGrouping.TotalIsSumOfDayAmounts | fineract-provider/src/main/java/org/apache/fineract/portfolio/servicecharge/util/ServiceChargeLoanSummaryFactory.java:462-466 | the corrected month total is the sum of the day map's values |
| DailyGrouping.AsWrittenTotalWithoutSameDayRepayments | fineract-provider/src/main/java/org/apache/fineract/portfolio/servicecharge/util/ServiceChargeLoanSummaryFactory.java:516-540 | when no two repayment-type transactions share a day key, the total as written is the principal repaid |
| DailyGrouping.SameDayRepaymentsCountedTwice | fineract-provider/src/main/java/org/apache/fineract/portfolio/servicecharge/util/ServiceChargeLoanSummaryFactory.java:529-537 | two repayments of 10 principal on one day: the map holds 20 for the day, but the total as written is 30; the corrected total is 20 |
| DailyWalk.WalkBalance | fineract-provider/src/main/java/org/apache/fineract/portfolio/servicecharge/util/ServiceChargeLoanSummaryFactory.java:473-486 | the day loop raises the balance by exactly the map amounts of the visited days. It ends on the last visited day. The marker is the starting marker or a visited day |
| DailyWalk.WalkWithoutRepayments | fineract-provider/src/main/java/org/apache/fineract/portfolio/servicecharge/util/ServiceChargeLoanSummaryFactory.java:473-495 | a month with no repayment day leaves balance and marker as they were; the month's figure is the balance times the days from the last visited day to the month end |
| DailyWalk.MonthFigureIsDailySum | fineract-provider/src/main/java/org/apache/fineract/portfolio/servicecharge/util/ServiceChargeLoanSummaryFactory.java:472-495 | when the day difference counts days and the iterator yields consecutive days from the month end, the month figure the marker arithmetic gives equals a day-by-day sum, over every day stepped past, of the balance held on it |
| DailyWalk.WalkMatchesDailySum | fineract-provider/src/main/java/org/apache/fineract/portfolio/servicecharge/util/ServiceChargeLoanSummaryFactory.java:472-486 | the loop invariant behind that: weighted sum plus balance times the days since the marker equals the day-by-day sum, at every prefix of the walk |
| DailyWalk.DayStepAddsBalance | fineract-provider/src/main/java/org/apache/fineract/portfolio/servicecharge/util/ServiceChargeLoanSummaryFactory.java:542-554 | one step to the previous day adds the balance held before the step to the marker-adjusted weighted sum, whether or not the day has a repayment |
| LoanSummaryDaily.BuildDaily | fineract-provider/src/main/java/org/apache/fineract/portfolio/servicecharge/util/ServiceChargeLoanSummaryFactory.java:434-505 | one repayment entry per month of the duration, but one outstanding entry per active month only. The returned balance is the principal outstanding with every active month's visited-day amounts added back. The flags are carried over |
| LoanSummaryDaily.BuildDailyCorrected | fineract-provider/src/main/java/org/apache/fineract/portfolio/servicecharge/util/ServiceChargeLoanSummaryFactory.java:434-505 | the same walk with the corrected grouping total: the same lengths, balance and flags |
| LoanSummaryDaily.CorrectedBuilderRecordsPrincipal | fineract-provider/src/main/java/org/apache/fineract/portfolio/servicecharge/util/ServiceChargeLoanSummaryFactory.java:453-502 | every repayment entry of the corrected builder is that month's principal repaid, 0 for a month ending on or before disbursement |
| LoanSummaryDaily.BuildersAgreeWithoutSameDayRepayments | fineract-provider/src/main/java/org/apache/fineract/portfolio/servicecharge/util/ServiceChargeLoanSummaryFactory.java:453-502 | the source's builder and the corrected one have the same balance and outstanding list; when no month has two repayments filed under one day they build the same summary |
| LoanSummaryDaily.SameDayRepaymentsRecordedTwice | fineract-provider/src/main/java/org/apache/fineract/portfolio/servicecharge/util/ServiceChargeLoanSummaryFactory.java:529-537 | two repayments of 10 on one day of the last month: the source's builder records 30 for that month, the corrected one 20 |
| LoanSummaryDaily.MismatchedKeysAddNothing | fineract-provider/src/main/java/org/apache/fineract/portfolio/servicecharge/util/ServiceChargeLoanSummaryFactory.java:477-479 | if the key a repayment is filed under never equals the key a day is looked up by, a month adds nothing back and the balance is unchanged |
| LoanSummaryDaily.DailyBuilderContents | fineract-provider/src/main/java/org/apache/fineract/portfolio/servicecharge/util/ServiceChargeLoanSummaryFactory.java:453-502 | repayment position i holds month i's entry (0 before disbursement): the grouping's total as the source adds it up, or the principal repaid for the corrected builder. The outstanding list is the active months' weighted figures, earliest month first |
| LoanSummaryDaily.ActiveWeightsIndexed | fineract-provider/src/main/java/org/apache/fineract/portfolio/servicecharge/util/ServiceChargeLoanSummaryFactory.java:456-497 | entry j of the outstanding list in walk order is the weighted figure of month j of the walk, and that month is active |
| LoanSummaryDaily.InactiveAddsNoWeights | fineract-provider/src/main/java/org/apache/fineract/portfolio/servicecharge/util/ServiceChargeLoanSummaryFactory.java:456-497 | once a month is inactive, no later month of the walk adds an outstanding entry |
| LoanSummaryDaily.OutstandingShorterIffEarlyMonthInactive | fineract-provider/src/main/java/org/apache/fineract/portfolio/servicecharge/util/ServiceChargeLoanSummaryFactory.java:456-499 | the outstanding list is shorter than the repayment list iff the earliest month of the period ends on or before disbursement |
| LoanSummaryDaily.MonthWeightedIsDailySum | fineract-provider/src/main/java/org/apache/fineract/portfolio/servicecharge/util/ServiceChargeLoanSummaryFactory.java:468-497 | under a day-counting difference and consecutive days from the month end, each active month's figure is the day-by-day balance sum starting from the balance before that month |
| LoanSummaryDaily.DailyMonthsSpec | fineract-provider/src/main/java/org/apache/fineract/portfolio/servicecharge/util/ServiceChargeLoanSummaryFactory.java:447-501 | the month loop keeps its invariant: one repayment entry per month under the chosen total, weighted figures for the active months, and the balance before the next month |
| LoanSummaryDaily.DailyStep | fineract-provider/src/main/java/org/apache/fineract/portfolio/servicecharge/util/ServiceChargeLoanSummaryFactory.java:448-500 | one month pass extends that invariant by one month |
| LoanSummaryDaily.DailyTotals | fineract-provider/src/main/java/org/apache/fineract/portfolio/servicecharge/util/ServiceChargeLoanSummaryFactory.java:402-415 | the returned balance is the principal outstanding plus the amounts the walks added back, and the total repayments is the sum of the months' recorded entries |
| LoanSummaryFactory.GetLoanSummaryObject | fineract-provider/src/main/java/org/apache/fineract/portfolio/servicecharge/util/ServiceChargeLoanSummaryFactory.java:71-80 | a cached id returns the stored summary with nothing built; an uncached id is built by the daily builder and stored. The cache gains exactly that id and keeps every other entry |
| LoanSummaryFactory.LookupIdempotent | fineract-provider/src/main/java/org/apache/fineract/portfolio/servicecharge/util/ServiceChargeLoanSummaryFactory.java:73-79 | asking again for the same loan returns the same summary, builds nothing, and leaves the cache unchanged |
| LoanSummaryFactory.LookupAllKeys | fineract-provider/src/main/java/org/apache/fineract/portfolio/servicecharge/util/ServiceChargeLoanSummaryFactory.java:71-80 | after a run of lookups the cache holds the old ids plus the looked-up ones, and old entries are untouched |
| LoanSummaryFactory.EachNewIdBuiltOnce | fineract-provider/src/main/java/org/apache/fineract/portfolio/servicecharge/util/ServiceChargeLoanSummaryFactory.java:73-79 | the number of builds in a run of lookups is the number of distinct ids not cached at the start, so repeated ids are built once |
| LoanSummaryFactory.MonthWiseOutstanding | fineract-provider/src/main/java/org/apache/fineract/portfolio/servicecharge/util/ServiceChargeLoanSummaryFactory.java:82-109 | with no summary whose demand flag equals the argument the result is empty |
| LoanSummaryFactory.NonMatchingLeavesResult | fineract-provider/src/main/java/org/apache/fineract/portfolio/servicecharge/util/ServiceChargeLoanSummaryFactory.java:86-89 | a summary whose demand flag differs from the argument leaves the result unchanged |
| LoanSummaryFactory.AggregateStepClosedForm | fineract-provider/src/main/java/org/apache/fineract/portfolio/servicecharge/util/ServiceChargeLoanSummaryFactory.java:90-106 | a matching summary with outstanding o turns result r into [r0+o[0], …, r0+o[n-1]] followed by r. Here r0 is r's first entry, and an empty r is first replaced by n+1 zeros |
| LoanSummaryFactory.AddFromClosedForm | fineract-provider/src/main/java/org/apache/fineract/portfolio/servicecharge/util/ServiceChargeLoanSummaryFactory.java:94-104 | the inner loop, from any position, inserts each remaining value plus the original first entry in front of the untouched old result |
| LoanSummaryFactory.FirstMatchPadsWithZeros | fineract-provider/src/main/java/org/apache/fineract/portfolio/servicecharge/util/ServiceChargeLoanSummaryFactory.java:90-104 | after the first matching summary with n values the result is those n values followed by n+1 zeros, length 2n+1 |
| LoanSummaryFactory.InsertAt | fineract-provider/src/main/java/org/apache/fineract/portfolio/servicecharge/util/ServiceChargeLoanSummaryFactory.java:101-102 | `List.add(i, x)` inserts: one longer, x at i, the entries before i kept and those from i shifted right |
| LoanSummaryFactory.MonthWiseOutstandingCorrected | fineract-provider/src/main/java/org/apache/fineract/portfolio/servicecharge/util/ServiceChargeLoanSummaryFactory.java:82-109 | the corrected aggregation: as long as the longest matching outstanding list, entry j being the sum of entry j over the matching summaries |
| LoanSummaryFactory.InsertDuplicatesResult | fineract-provider/src/main/java/org/apache/fineract/portfolio/servicecharge/util/ServiceChargeLoanSummaryFactory.java:94-104 | two matching summaries of [100,100,100] aggregate, as written, to [200,200,200,100,100,100,0,0,0,0]; corrected, to [200,200,200] |
| ServiceChargeDateRange.GetCurrentQuarter | fineract-provider/src/main/java/org/apache/fineract/portfolio/servicecharge/util/daterange/QuarterlyServiceChargeDateRange.java:158-201 | an unrecognised non-empty month code fails with the invalid-month-code error, and only then. An empty or null code selects the quarter of the wall-clock month. A non-zero year is stored on the chosen quarter, and year 0 changes nothing |
| ServiceChargeDateRange.MonthCodeSelectsContainingQuarter | fineract-provider/src/main/java/org/apache/fineract/portfolio/servicecharge/util/daterange/QuarterlyServiceChargeDateRange.java:160-182 | the code of month i (any letter case) selects the quarter containing month i: Jan–Mar Q1, Apr–Jun Q2, Jul–Sep Q3, Oct–Dec Q4 |
| ServiceChargeDateRange.MonthCodeCaseInsensitive | fineract-provider/src/main/java/org/apache/fineract/portfolio/servicecharge/util/daterange/QuarterlyServiceChargeDateRange.java:159-160 | a code and its upper-cased form select the same result |
| ServiceChargeDateRange.TokenAndClockQuartersAgree | fineract-provider/src/main/java/org/apache/fineract/portfolio/servicecharge/util/daterange/QuarterlyServiceChargeDateRange.java:161-193 | the month-code switch and the wall-clock-month conditional assign every month the same quarter |
| ServiceChargeDateRange.QuartersTileYear | fineract-provider/src/main/java/org/apache/fineract/portfolio/servicecharge/util/daterange/QuarterlyServiceChargeDateRange.java:25 | the quarters in id order 1..4 tile the year. Q1 starts on 1 January, each quarter's last day is followed by the next one's first day, Q4 ends on 31 December, and the year runs from Q1's start to Q4's end |
| ServiceChargeDateRange.FromBoundaryReadsBack | fineract-provider/src/main/java/org/apache/fineract/portfolio/servicecharge/util/daterange/QuarterlyServiceChargeDateRange.java:146-150 | the start string read as "dd Mon yyyy" is the period's first day in that year |
| ServiceChargeDateRange.ToBoundaryReadsBack | fineract-provider/src/main/java/org/apache/fineract/portfolio/servicecharge/util/daterange/YearlyServiceChargeDateRange.java:164-168 | the end string read as "dd Mon yyyy" is the period's last day in that year |
| ServiceChargeDateRange.FromDate | fineract-provider/src/main/java/org/apache/fineract/portfolio/servicecharge/util/daterange/QuarterlyServiceChargeDateRange.java:146-150 | a valid date in the given year |
| ServiceChargeDateRange.ToDate | fineract-provider/src/main/java/org/apache/fineract/portfolio/servicecharge/util/daterange/QuarterlyServiceChargeDateRange.java:152-156 | a valid date in the given year, and the last day of its month |
| ServiceChargeDateRange.FromDateForCurrentYear | fineract-provider/src/main/java/org/apache/fineract/portfolio/servicecharge/util/daterange/QuarterlyServiceChargeDateRange.java:131-133 | a valid date in the stored year: the 1st of a quarter's first month (month 1, 4, 7 or 10), or 1 January for the year |
| ServiceChargeDateRange.ToDateForCurrentYear | fineract-provider/src/main/java/org/apache/fineract/portfolio/servicecharge/util/daterange/QuarterlyServiceChargeDateRange.java:142-144 | a valid date in the stored year, the last day of its month, two months after the start month for a quarter and eleven for the year |
| ServiceChargeDateRange.FromDateStringForCurrentYear | fineract-provider/src/main/java/org/apache/fineract/portfolio/servicecharge/util/daterange/QuarterlyServiceChargeDateRange.java:87-89 | reads back to the period's first day in the wall-clock year |
| ServiceChargeDateRange.ToDateStringForCurrentYear | fineract-provider/src/main/java/org/apache/fineract/portfolio/servicecharge/util/daterange/QuarterlyServiceChargeDateRange.java:98-100 | reads back to the period's last day in the wall-clock year |
| ServiceChargeDateRange.SetYear | fineract-provider/src/main/java/org/apache/fineract/portfolio/servicecharge/util/daterange/QuarterlyServiceChargeDateRange.java:214-216 | the constant now holds the year; every other constant keeps its own |
| ServiceChargeDateRange.InitialYears | fineract-provider/src/main/java/org/apache/fineract/portfolio/servicecharge/util/daterange/QuarterlyServiceChargeDateRange.java:38-43 | every constant starts with the wall-clock year |
| ServiceChargeDateRange.CurrentYearVariantsDiverge | fineract-provider/src/main/java/org/apache/fineract/portfolio/servicecharge/util/daterange/QuarterlyServiceChargeDateRange.java:87-144 | after `setYear(year)` the `get*DateForCurrentYear` dates are the period's first and last day in the stored year, while the `get*DateStringForCurrentYear` strings read back to the first and last day in the wall-clock year; the two differ whenever the years do |
| ServiceChargeDateRange.Method | fineract-provider/src/main/java/org/apache/fineract/portfolio/servicecharge/util/daterange/QuarterlyServiceChargeDateRange.java:222-224 | QUARTERLY exactly for the quarters, YEARLY for the year |
| ServiceChargeDateRange.DurationMonths | fineract-provider/src/main/java/org/apache/fineract/portfolio/servicecharge/util/daterange/YearlyServiceChargeDateRange.java:204-207 | the year lasts 12 months; a quarter lasts the given quarterly duration |
| ServiceChargeDateRange.GetCurrentYear | fineract-provider/src/main/java/org/apache/fineract/portfolio/servicecharge/util/daterange/YearlyServiceChargeDateRange.java:170-177 | always the yearly period, whatever the month code. A non-zero year is stored on it, and year 0 changes nothing |
| ServiceChargeDateRange.Upper | fineract-provider/src/main/java/org/apache/fineract/portfolio/servicecharge/util/daterange/QuarterlyServiceChargeDateRange.java:160 | same length, each ASCII lower-case letter raised and every other character kept |
| ServiceChargeDateRange.UpperIdempotent | fineract-provider/src/main/java/org/apache/fineract/portfolio/servicecharge/util/daterange/QuarterlyServiceChargeDateRange.java:160 | upper-casing twice is upper-casing once |
| ServiceChargeDateRange.TokenIndex | fineract-provider/src/main/java/org/apache/fineract/portfolio/servicecharge/util/daterange/QuarterlyServiceChargeDateRange.java:161-185 | the position of the first month token equal to the code, or none when no token equals it |
| OperationUtils.DivideAndMultiplyAsWritten | imifosx-provider/src/main/java/org/ideoholic/imifosx/portfolio/servicecharge/util/ServiceChargeOperationUtils.java:10-21 | a null operand gives 1. It throws iff the operand is present and an applied divisor has value zero (a scaled zero such as 0.00 passes the `equals` guard). Otherwise the result is the operand, divided (at the operand's scale, rounded half up) when the divisor applies and multiplied (scales added) when the multiplicand applies |
| OperationUtils.ScaledZeroDivisorThrows | imifosx-provider/src/main/java/org/ideoholic/imifosx/portfolio/servicecharge/util/ServiceChargeOperationUtils.java:14-15 | divisor 0.00 with any operand throws an arithmetic error |
| OperationUtils.DivideAndMultiplyNonZeroValues | imifosx-provider/src/main/java/org/ideoholic/imifosx/portfolio/servicecharge/util/ServiceChargeOperationUtils.java:10-21 | corrected method, which skips a numerically zero divisor and keeps the multiplicand guard. It never throws. A null operand gives 1, and skipping both steps returns the operand. The scale is the operand's, plus the multiplicand's when it applies. The value is the rounded quotient, the product, or the rounded quotient times the multiplicand, by which steps apply |
| OperationUtils.CorrectedAgreesWhenNoThrow | imifosx-provider/src/main/java/org/ideoholic/imifosx/portfolio/servicecharge/util/ServiceChargeOperationUtils.java:14-19 | wherever the method as written returns, the corrected one returns the same value. Where it throws, the divisor is a zero with a non-zero scale and the corrected one skips the division |
| OperationUtils.Divide | imifosx-provider/src/main/java/org/ideoholic/imifosx/portfolio/servicecharge/util/ServiceChargeOperationUtils.java:15 | `divide(b, HALF_UP)` throws iff the divisor's value is zero, and otherwise keeps the operand's scale |
| OperationUtils.RoundHalfUp | imifosx-provider/src/main/java/org/ideoholic/imifosx/portfolio/servicecharge/util/ServiceChargeOperationUtils.java:15 | the rounded quotient is within half a divisor of the exact one, and a tie rounds away from zero |
| OperationUtils.ExactDivision | imifosx-provider/src/main/java/org/ideoholic/imifosx/portfolio/servicecharge/util/ServiceChargeOperationUtils.java:15 | an exact quotient at the operand's scale is returned unrounded |
| OperationUtils.ConvertMapToHtmlTable | imifosx-provider/src/main/java/org/ideoholic/imifosx/portfolio/servicecharge/util/ServiceChargeOperationUtils.java:23-41 | the output starts with the fixed table tag and ends with `</table>`; an empty map gives exactly those two |
| OperationUtils.HtmlTableReadsBack | imifosx-provider/src/main/java/org/ideoholic/imifosx/portfolio/servicecharge/util/ServiceChargeOperationUtils.java:24-40 | reading the table back gives the entries in order, one row per key (key cell, then one cell per element in list order), provided no key or element contains `<` |
| OperationUtils.RowReadsBack | imifosx-provider/src/main/java/org/ideoholic/imifosx/portfolio/servicecharge/util/ServiceChargeOperationUtils.java:27-36 | one `<tr>` row reads back to its key and its elements |
| DepositValidator.Validate | imifosx-provider/src/main/java/org/ideoholic/imifosx/portfolio/savings/data/DepositAccountTransactionDataValidator.java:71-105 | blank JSON fails before anything else, then unsupported parameters. Otherwise the request is accepted iff it has a transaction date, a positive transaction amount, a payment type that is absent or > 0, and each payment detail absent or at most 50 UTF-16 units once trimmed. A missing amount is reported as not-null only |
| DepositValidator.ValidateDepositAmountUpdate | imifosx-provider/src/main/java/org/ideoholic/imifosx/portfolio/savings/data/DepositAccountTransactionDataValidator.java:107-131 | same order of checks; accepted iff an effective date and a positive mandatory recommended deposit amount are present |
| DepositValidator.ValidateActivation | imifosx-provider/src/main/java/org/ideoholic/imifosx/portfolio/savings/data/DepositAccountTransactionDataValidator.java:133-152 | accepted iff an activation date is present; otherwise the single not-null error for it |
| DepositValidator.ValidatePreMatureAmountCalculation | imifosx-provider/src/main/java/org/ideoholic/imifosx/portfolio/savings/data/DepositAccountTransactionDataValidator.java:154-172 | accepted iff a closing date is present; otherwise the single not-null error for it |
| DepositValidator.ValidateClosing | imifosx-provider/src/main/java/org/ideoholic/imifosx/portfolio/savings/data/DepositAccountTransactionDataValidator.java:174-224 | accepted iff all of these hold: a closing date; a closure type that is present and one of the enumeration's values; a target savings account when the type is transfer-to-savings; not reinvest on a premature close; a payment type absent or > 0 and each payment detail absent or at most 50 UTF-16 units once trimmed |
| DepositValidator.ReinvestRefusedOnlyWhenPremature | imifosx-provider/src/main/java/org/ideoholic/imifosx/portfolio/savings/data/DepositAccountTransactionDataValidator.java:206-209 | with closure type reinvest, the "reinvest.not.allowed" error is raised iff the close is premature |
| DepositValidator.TransferNeedsTargetAccount | imifosx-provider/src/main/java/org/ideoholic/imifosx/portfolio/savings/data/DepositAccountTransactionDataValidator.java:196-205 | the missing-target-account error is raised iff the closure type is transfer-to-savings and no target account is given |
| DepositValidator.LongPaymentDetailReported | imifosx-provider/src/main/java/org/ideoholic/imifosx/portfolio/savings/data/DepositAccountTransactionDataValidator.java:96-102 | a payment detail is reported under its own parameter, by both `validate` and `validateClosing`, iff its trimmed value is longer than 50 UTF-16 units |
| DepositValidator.PaddedCheckNumberAccepted | imifosx-provider/src/main/java/org/ideoholic/imifosx/portfolio/savings/data/DepositAccountTransactionDataValidator.java:96-102 | a 50-character check number followed by a space is not reported, because the space is trimmed before measuring |
| DepositValidator.TrimDropsSurroundingBlanks | imifosx-provider/src/main/java/org/ideoholic/imifosx/portfolio/savings/data/DepositAccountTransactionDataValidator.java:100-101 | characters at or below U+0020 around a text are dropped before it is measured |
| DepositValidator.MissingClosureTypeTwoErrors | imifosx-provider/src/main/java/org/ideoholic/imifosx/portfolio/savings/data/DepositAccountTransactionDataValidator.java:193-194 | a missing closure type fails both the presence rule and the membership rule |
| DepositValidator.ThrowIfErrors | imifosx-provider/src/main/java/org/ideoholic/imifosx/portfolio/savings/data/DepositAccountTransactionDataValidator.java:226-232 | throws iff the error list is non-empty, carrying all collected errors |
| BatchClient.ActivateClientId | imifosx-provider/src/main/java/org/ideoholic/imifosx/batch/command/internal/ActivateClientCommandStrategy.java:66-67 | fewer than two `/`-pieces is an array-index error. A second piece without `?` is a string-index error. A parsed id lies in the 64-bit range |
| BatchClient.ActivateReadsWrittenId | imifosx-provider/src/main/java/org/ideoholic/imifosx/batch/command/internal/ActivateClientCommandStrategy.java:66-67 | for any first segment without `/`, any 64-bit id and any query, "segment/id?query" yields that id |
| BatchClient.ActivateWithoutQueryFails | imifosx-provider/src/main/java/org/ideoholic/imifosx/batch/command/internal/ActivateClientCommandStrategy.java:66-67 | "segment/id" with no `?` in the id piece is a string-index error |
| BatchClient.ActivateWithoutSeparatorFails | imifosx-provider/src/main/java/org/ideoholic/imifosx/batch/command/internal/ActivateClientCommandStrategy.java:66-67 | a URL without `/` is an array-index error |
| BatchClient.ActivateExampleUrl | imifosx-provider/src/main/java/org/ideoholic/imifosx/batch/command/internal/ActivateClientCommandStrategy.java:66-67 | "clients/1?command=activate" yields 1 |
| BatchClient.ActivateExampleUrlWithoutQuery | imifosx-provider/src/main/java/org/ideoholic/imifosx/batch/command/internal/ActivateClientCommandStrategy.java:66-67 | "clients/1" is a string-index error for the activate strategy |
| BatchClient.UpdateClientId | imifosx-provider/src/main/java/org/ideoholic/imifosx/batch/command/internal/UpdateClientCommandStrategy.java:67-68 | with no `/` the whole URL is parsed; a parsed id lies in the 64-bit range |
| BatchClient.UpdateReadsWrittenId | imifosx-provider/src/main/java/org/ideoholic/imifosx/batch/command/internal/UpdateClientCommandStrategy.java:67-68 | for any first segment without `/` and any 64-bit id, "segment/id" yields that id |
| BatchClient.UpdateWithQueryFails | imifosx-provider/src/main/java/org/ideoholic/imifosx/batch/command/internal/UpdateClientCommandStrategy.java:67-68 | a trailing query after the id is not stripped and makes the parse fail |
| BatchClient.UpdateExampleUrl | imifosx-provider/src/main/java/org/ideoholic/imifosx/batch/command/internal/UpdateClientCommandStrategy.java:67-68 | "clients/1" yields 1 |
| BatchClient.PiecesJoin | imifosx-provider/src/main/java/org/ideoholic/imifosx/batch/command/internal/ActivateClientCommandStrategy.java:66 | the `/`-pieces joined back with `/` give the URL |
| BatchClient.Respond | imifosx-provider/src/main/java/org/ideoholic/imifosx/batch/command/internal/ActivateClientCommandStrategy.java:63-88 | request id and headers are copied. A returned body gives status 200 with that body. A thrown runtime exception gives the handler's status and message |
| BatchClient.ExecuteActivate | imifosx-provider/src/main/java/org/ideoholic/imifosx/batch/command/internal/ActivateClientCommandStrategy.java:58-91 | `execute` fails exactly when reading the id fails, with the same error (it is outside the try). Otherwise the resource is called with the id, "activate" and the body, and the response echoes the request and maps the outcome |
| BatchClient.ExecuteUpdate | imifosx-provider/src/main/java/org/ideoholic/imifosx/batch/command/internal/UpdateClientCommandStrategy.java:58-93 | `execute` fails exactly when reading the id fails, with the same error. Otherwise the resource is called with the id and the body, and the response echoes the request and maps the outcome |

## Left out

- The repayment-transaction reader, `determineSCLoopEndDate`, `DateIterator`, `getDiffBetweenDates` and the two `getDateStringFromDate` overloads are parameters (`Collaborators`). Their code is not part of this model. The day-by-day reading of a month holds only under the stated assumptions on them: the difference counts days, and the iterator yields consecutive days from the month end.
- The `LocalDate` overload that files a repayment and the `Date` overload the day walk looks it up by are two separate parameters, and nothing assumes they agree. The builder's figures count a repayment only on days where they do; `LoanSummaryDaily.MismatchedKeysAddNothing` states the case where they never agree.
- `ServiceChargeDateRangeFactory.getCurrentDateRange` and `checkDemandLaon`: not part of this model. The billing period's last day and duration are a `Period` input, and the demand flag is a field of the loan input.
- The quarterly duration: the quarter enum does not define `getDateRangeDurationMonths`, so it is a parameter.
- Wall clock, `Calendar` and `Locale`: the current month and year are inputs. Dates are (year, month, day) triples. `Date.compareTo` is compared at day granularity.
- `BigDecimal` in the summary engine: amounts are integers in minor units. Only the operation helpers carry (unscaled, scale) pairs.
- `DateParam` parsing of boundary strings: replaced by an own "dd Mon yyyy" reader (`ReadBoundary`) used to state the read-back properties. `getFormattedFromDateString`/`getFormattedToDateString` and `toString` are not modelled because they only format through it.
- The month-token constants are a parameter list of twelve strings. `toUpperCase` is modelled on ASCII letters only.
- `HashMap`/`HashSet` iteration orders are a fixed order in the model. This covers the cache key set, the HTML map's key set, and the payment-detail parameter set.
- JSON parsing (`FromJsonHelper`): a request is its already-extracted fields, and the names of its parameters outside the command's accepted list are an input. A malformed number in the JSON, which throws during extraction, is not modelled.
- `DataValidatorBuilder`, `ErrorHandler` and `ClientsApiResource` are not part of this model. The validator rules follow the upstream Fineract `DataValidatorBuilder` on the value types used here: `notNull`; `positiveAmount` only on a present value; `notBlank` on an integer (null only); `isOneOfTheseValues`, which also reports a null value; `notExceedingLengthOf`, which measures the trimmed value in UTF-16 units; `cantBeBlankWhenParameterProvidedIs`; and `failWithCode`. The error handler and the resource are function parameters.
- `DepositValidator.ValidateClosing`: requires the closure-type enumeration to contain transfer-to-savings and reinvest as two different values, as `DepositAccountOnClosureType` does.
- `DepositValidator.Validate`: error messages and the resource name attached to each error are not modelled; an error is its parameter and rule.
- `BatchClient.ActivateClientId`: reads ASCII decimal digits only. `Long.parseLong` also accepts the other Unicode decimal digits (for example Arabic-Indic digits), which this model refuses as a number-format error.
- `BatchClient.UpdateClientId`: the same ASCII-digit limit as `ActivateClientId`.
- `Numerals.ParseLong`: the same ASCII-digit limit; Unicode's decimal-digit table is not modelled.
- Logging, `System.out` and `printLoanDetailsInLogger`: no behaviour.
- `LoanSummaryMonthly`: `getLoanSummaryObject` always builds the daily summary, so the monthly builder is modelled for its own contract only.
- `LoanSummaryFactory.MonthWiseOutstanding`: its own contract states only the no-match case. The general behaviour is stated by `AggregateStepClosedForm` and `NonMatchingLeavesResult`, because the inserting loop has no simpler closed form.

## Findings

| source | as written | input that shows it | evidently intended | confidence | as-written member | corrected member |
|---|---|---|---|---|---|---|
| fineract-provider/src/main/java/org/apache/fineract/portfolio/servicecharge/util/ServiceChargeLoanSummaryFactory.java:529-537 | when a day already has a repayment, the new amount is merged with the stored one, and the MERGED amount is added to the running total | two repayment-type transactions on one day, each of principal 10: the map holds 20 for the day but the total is 30 | the total is the sum of the principal portions (the sum of the map's values), 20 | not executed | DailyGrouping.SameDayRepaymentsCountedTwice | DailyGrouping.GroupRepayments |
| fineract-provider/src/main/java/org/apache/fineract/portfolio/servicecharge/util/ServiceChargeLoanSummaryFactory.java:94-104 | the aggregation loop calls `List.add(i, x)`, which inserts, where a replacement was meant. Each inserted value adds the list's current entry i, but every earlier insert has shifted the list, so that entry is always the original first entry | two demand summaries with outstanding [100,100,100] give [200,200,200,100,100,100,0,0,0,0] | an element-wise sum over the matching summaries, [200,200,200] | not executed | LoanSummaryFactory.InsertDuplicatesResult | LoanSummaryFactory.MonthWiseOutstandingCorrected |
| imifosx-provider/src/main/java/org/ideoholic/imifosx/portfolio/servicecharge/util/ServiceChargeOperationUtils.java:14-15 | the zero guard uses `equals(BigDecimal.ZERO)`, which compares scale too, so a zero divisor written 0.00 is divided by | operand 5, divisor 0.00, multiplicand null: `divide` throws ArithmeticException | skip the division for any numerically zero divisor, as the method's name says; the multiplicand guard is left as written | not executed | OperationUtils.ScaledZeroDivisorThrows | OperationUtils.DivideAndMultiplyNonZeroValues |
