/** The daily time-weighted builder (`LoanSummaryDaily`), which the summary
    cache uses. It walks the billing period backward one calendar month at a
    time, like the monthly builder. For each month whose end is after
    disbursement it groups the month's repayments by day, walks the days
    backward accumulating `balance × days held`, and records that weighted
    figure as the month's outstanding entry. Every month records a
    repayment entry; a month not after disbursement records zero and no
    outstanding entry at all. */
module LoanSummaryDaily {
  import opened Calendar
  import opened SeqMath
  import opened LoanSummaryModel
  import opened DailyGrouping
  import opened DailyWalk

  /** The lists as the loop builds them (most recent month first) and the
      running balance. */
  datatype DailyState = DailyState(outstanding: seq<int>, repayments: seq<int>, balance: int)

  /** Which figure a month's repayment entry records: the total
      `populateRepaymentsIntoMap` returns as written, or the corrected total
      (the principal repaid). Everything else the two builders do alike. */
  datatype TotalRule = SourceTotal | CorrectedTotal

  /** The transactions the reader returns for the month ending on `lastDay`. */
  function MonthTransactions(env: Collaborators, loan: LoanAccount, lastDay: Date): seq<LoanTransaction>
  {
    env.reader(loan.id, FirstOfMonth(lastDay), lastDay)
  }

  /** The day map and total for the month ending on `lastDay`, as the source
      builds them. The source skips the grouping when the reader returns
      nothing, which yields the same empty map and zero total. */
  function MonthGrouping(env: Collaborators, loan: LoanAccount, lastDay: Date): Grouping
  {
    GroupRepaymentsAsWritten(env.fileKey, MonthTransactions(env, loan, lastDay))
  }

  /** The month's repayment entry under `rule`. */
  function MonthTotal(env: Collaborators, loan: LoanAccount, lastDay: Date, rule: TotalRule): int
  {
    match rule
    case SourceTotal => MonthGrouping(env, loan, lastDay).total
    case CorrectedTotal => GroupRepayments(env.fileKey, MonthTransactions(env, loan, lastDay)).total
  }

  /** The days the month's inner loop visits: backward from `lastDay` to the
      loop end the date utilities determine. */
  function MonthDays(env: Collaborators, loan: LoanAccount, lastDay: Date): seq<Date>
  {
    env.daysBackward(lastDay, env.loopEnd(FirstOfMonth(lastDay), lastDay, loan.disbursementDate))
  }

  /** The inner day walk of the month ending on `lastDay`, from `balance`. */
  function MonthWalk(env: Collaborators, loan: LoanAccount, lastDay: Date, balance: int): DayWalk
  {
    WalkDays(env.diff, env.lookupKey, MonthGrouping(env, loan, lastDay).amounts,
             MonthDays(env, loan, lastDay), StartWalk(balance, lastDay))
  }

  /** One pass of the outer loop for the month ending on `lastDay`. */
  function DailyNext(env: Collaborators, loan: LoanAccount, rule: TotalRule, lastDay: Date, st: DailyState): DailyState
  {
    if Before(loan.disbursementDate, lastDay) then
      var w := MonthWalk(env, loan, lastDay, st.balance);
      DailyState(st.outstanding + [FinalWeighted(env.diff, w)],
                 st.repayments + [MonthTotal(env, loan, lastDay, rule)], w.balance)
    else
      DailyState(st.outstanding, st.repayments + [0], st.balance)
  }

  function DailyMonths(env: Collaborators, loan: LoanAccount, rule: TotalRule, lastDay: Date, remaining: int,
                       st: DailyState): DailyState
    decreases remaining
  {
    if remaining <= 0 then st
    else DailyMonths(env, loan, rule, LastOfPreviousMonth(FirstOfMonth(lastDay)), remaining - 1,
                     DailyNext(env, loan, rule, lastDay, st))
  }

  // ---------------------------------------------------------------------------
  // Month-indexed reference description

  /** The transactions of month `i` of the walk. */
  function TransactionsOfMonth(env: Collaborators, loan: LoanAccount, period: Period, i: nat): seq<LoanTransaction>
  {
    env.reader(loan.id, MonthStartAt(period.lastDay, i), MonthEndAt(period.lastDay, i))
  }

  /** What the walk adds to the balance in month `i`: the day amounts of the
      days it visits, or nothing when the month is not after disbursement. */
  function MonthAdded(env: Collaborators, loan: LoanAccount, period: Period, i: nat): int
  {
    var lastDay := MonthEndAt(period.lastDay, i);
    if ActiveMonth(loan, period, i)
    then AddedOnDays(env.lookupKey, MonthGrouping(env, loan, lastDay).amounts, MonthDays(env, loan, lastDay))
    else 0
  }

  /** The balance at the start of month `i`: the principal outstanding plus
      everything added back in the later months already walked. */
  function BalanceBefore(env: Collaborators, loan: LoanAccount, period: Period, i: nat): int
  {
    if i == 0 then loan.principalOutstanding
    else BalanceBefore(env, loan, period, i - 1) + MonthAdded(env, loan, period, i - 1)
  }

  /** The weighted figure of month `i`, from the balance at its start. */
  function MonthWeighted(env: Collaborators, loan: LoanAccount, period: Period, i: nat): int
  {
    var lastDay := MonthEndAt(period.lastDay, i);
    FinalWeighted(env.diff, MonthWalk(env, loan, lastDay, BalanceBefore(env, loan, period, i)))
  }

  /** Principal repaid in month `i` by repayment-type transactions, or zero
      when the month is not after disbursement. */
  function MonthPrincipalRepaid(env: Collaborators, loan: LoanAccount, period: Period, i: nat): int
  {
    if ActiveMonth(loan, period, i) then PrincipalRepaidSum(TransactionsOfMonth(env, loan, period, i)) else 0
  }

  /** The repayment entry of month `i` under `rule`: the corrected rule
      records the principal repaid; the source's rule records what its
      grouping adds up, merged same-day amounts included. */
  function MonthRecorded(env: Collaborators, loan: LoanAccount, period: Period, rule: TotalRule, i: nat): int
  {
    match rule
    case CorrectedTotal => MonthPrincipalRepaid(env, loan, period, i)
    case SourceTotal =>
      if ActiveMonth(loan, period, i)
      then GroupRepaymentsAsWritten(env.fileKey, TransactionsOfMonth(env, loan, period, i)).total
      else 0
  }

  /** The weighted figures of the active months among the first `k`, in walk order. */
  function ActiveWeights(env: Collaborators, loan: LoanAccount, period: Period, k: nat): (s: seq<int>)
    ensures |s| == ActiveMonths(loan, period, k)
  {
    if k == 0 then []
    else ActiveWeights(env, loan, period, k - 1)
         + (if ActiveMonth(loan, period, k - 1) then [MonthWeighted(env, loan, period, k - 1)] else [])
  }

  ghost predicate DailyInvariant(env: Collaborators, loan: LoanAccount, period: Period, rule: TotalRule,
                                 k: nat, st: DailyState)
  {
    && |st.repayments| == k
    && (forall j :: 0 <= j < k ==> st.repayments[j] == MonthRecorded(env, loan, period, rule, j))
    && st.outstanding == ActiveWeights(env, loan, period, k)
    && st.balance == BalanceBefore(env, loan, period, k)
  }

  lemma DailyStep(env: Collaborators, loan: LoanAccount, period: Period, rule: TotalRule, k: nat, st: DailyState)
    requires DailyInvariant(env, loan, period, rule, k, st)
    ensures DailyInvariant(env, loan, period, rule, k + 1,
                           DailyNext(env, loan, rule, MonthEndAt(period.lastDay, k), st))
  {
    var lastDay := MonthEndAt(period.lastDay, k);
    var st' := DailyNext(env, loan, rule, lastDay, st);
    assert MonthTransactions(env, loan, lastDay) == TransactionsOfMonth(env, loan, period, k);
    if Before(loan.disbursementDate, lastDay) {
      WalkBalance(env.diff, env.lookupKey, MonthGrouping(env, loan, lastDay).amounts,
                  MonthDays(env, loan, lastDay), StartWalk(st.balance, lastDay));
    }
    assert st'.repayments[k] == MonthRecorded(env, loan, period, rule, k);
    forall j | 0 <= j < k + 1
      ensures st'.repayments[j] == MonthRecorded(env, loan, period, rule, j)
    {
      if j < k {
        assert st'.repayments[j] == st.repayments[j];
      }
    }
  }

  lemma {:induction false} DailyMonthsSpec(env: Collaborators, loan: LoanAccount, period: Period, rule: TotalRule,
                                           k: nat, remaining: int, st: DailyState)
    requires DailyInvariant(env, loan, period, rule, k, st)
    ensures DailyInvariant(env, loan, period, rule, k + (if remaining < 0 then 0 else remaining),
                           DailyMonths(env, loan, rule, MonthEndAt(period.lastDay, k), remaining, st))
    decreases remaining
  {
    if remaining > 0 {
      DailyStep(env, loan, period, rule, k, st);
      MonthWalkStep(period.lastDay, k);
      DailyMonthsSpec(env, loan, period, rule, k + 1, remaining - 1,
                      DailyNext(env, loan, rule, MonthEndAt(period.lastDay, k), st));
    }
  }

  /** `LoanSummaryDaily.populateOutstandingAndRepaymentAmounts` with the
      repayment entries chosen by `rule`: starts from the loan's principal
      outstanding, stores the outstanding list reversed (earliest active
      month first) and the repayment list in walk order (latest month
      first), and returns the final balance. One repayment entry per month;
      one outstanding entry per active month only. */
  function BuildDailyBy(env: Collaborators, loan: LoanAccount, period: Period, rule: TotalRule): (b: Built)
    ensures var n := if period.durationMonths < 0 then 0 else period.durationMonths;
            && |b.summary.periodicRepayments| == n
            && |b.summary.periodicOutstanding| == ActiveMonths(loan, period, n)
            && b.balance == BalanceBefore(env, loan, period, n)
    ensures b.summary.isDemandLoan == loan.isDemandLoan
    ensures b.summary.disbursementDate == loan.disbursementDate
  {
    var st0 := DailyState([], [], loan.principalOutstanding);
    var st := DailyMonths(env, loan, rule, period.lastDay, period.durationMonths, st0);
    assert MonthEndAt(period.lastDay, 0) == period.lastDay;
    DailyMonthsSpec(env, loan, period, rule, 0, period.durationMonths, st0);
    Built(LoanSummary(AppendReversed([], st.outstanding), st.repayments, loan.isDemandLoan, loan.disbursementDate),
          st.balance)
  }

  /** The builder as the source runs it: repayment entries are the totals
      `populateRepaymentsIntoMap` returns. */
  function BuildDaily(env: Collaborators, loan: LoanAccount, period: Period): (b: Built)
    ensures var n := if period.durationMonths < 0 then 0 else period.durationMonths;
            && |b.summary.periodicRepayments| == n
            && |b.summary.periodicOutstanding| == ActiveMonths(loan, period, n)
            && b.balance == BalanceBefore(env, loan, period, n)
    ensures b.summary.isDemandLoan == loan.isDemandLoan
    ensures b.summary.disbursementDate == loan.disbursementDate
  {
    BuildDailyBy(env, loan, period, SourceTotal)
  }

  /** The builder with the corrected grouping total: repayment entries are
      the principal repaid in each month. */
  function BuildDailyCorrected(env: Collaborators, loan: LoanAccount, period: Period): (b: Built)
    ensures var n := if period.durationMonths < 0 then 0 else period.durationMonths;
            && |b.summary.periodicRepayments| == n
            && |b.summary.periodicOutstanding| == ActiveMonths(loan, period, n)
            && b.balance == BalanceBefore(env, loan, period, n)
    ensures b.summary.isDemandLoan == loan.isDemandLoan
    ensures b.summary.disbursementDate == loan.disbursementDate
  {
    BuildDailyBy(env, loan, period, CorrectedTotal)
  }

  // ---------------------------------------------------------------------------
  // Properties

  /** What the built summary holds, month by month: repayment entry `i` is
      month `i`'s entry under the rule (zero when inactive), and the
      outstanding list is the active months' weighted figures read back to
      front. */
  lemma DailyBuilderContents(env: Collaborators, loan: LoanAccount, period: Period, rule: TotalRule)
    ensures var b := BuildDailyBy(env, loan, period, rule);
            var n := if period.durationMonths < 0 then 0 else period.durationMonths;
            && (forall i :: 0 <= i < n ==> b.summary.periodicRepayments[i] == MonthRecorded(env, loan, period, rule, i))
            && b.summary.periodicOutstanding == Reverse(ActiveWeights(env, loan, period, n))
  {
    var st0 := DailyState([], [], loan.principalOutstanding);
    assert MonthEndAt(period.lastDay, 0) == period.lastDay;
    DailyMonthsSpec(env, loan, period, rule, 0, period.durationMonths, st0);
  }

  /** The corrected builder records, for every month, the principal repaid
      in it (zero for a month not after disbursement). */
  lemma CorrectedBuilderRecordsPrincipal(env: Collaborators, loan: LoanAccount, period: Period)
    ensures var b := BuildDailyCorrected(env, loan, period);
            forall i :: 0 <= i < |b.summary.periodicRepayments| ==>
              b.summary.periodicRepayments[i] == MonthPrincipalRepaid(env, loan, period, i)
  {
    DailyBuilderContents(env, loan, period, CorrectedTotal);
  }

  /** The two builders differ only in the repayment list, and not at all
      when no month has two repayments filed under the same day: then the
      source's totals are the principal repaid. */
  lemma BuildersAgreeWithoutSameDayRepayments(env: Collaborators, loan: LoanAccount, period: Period)
    ensures var b := BuildDaily(env, loan, period);
            var c := BuildDailyCorrected(env, loan, period);
            && b.balance == c.balance
            && b.summary.periodicOutstanding == c.summary.periodicOutstanding
            && ((forall i :: 0 <= i < |b.summary.periodicRepayments| ==>
                   DistinctRepaymentDays(env.fileKey, TransactionsOfMonth(env, loan, period, i)))
                ==> b == c)
  {
    var n := if period.durationMonths < 0 then 0 else period.durationMonths;
    var b := BuildDaily(env, loan, period);
    var c := BuildDailyCorrected(env, loan, period);
    DailyBuilderContents(env, loan, period, SourceTotal);
    DailyBuilderContents(env, loan, period, CorrectedTotal);
    if forall i :: 0 <= i < n ==> DistinctRepaymentDays(env.fileKey, TransactionsOfMonth(env, loan, period, i)) {
      forall i | 0 <= i < n
        ensures b.summary.periodicRepayments[i] == c.summary.periodicRepayments[i]
      {
        if ActiveMonth(loan, period, i) {
          AsWrittenTotalWithoutSameDayRepayments(env.fileKey, TransactionsOfMonth(env, loan, period, i));
        }
      }
      assert b.summary.periodicRepayments == c.summary.periodicRepayments;
    }
  }

  /** Two repayments of 10 on one day in the billing period's last month,
      which ends after disbursement: the source's builder records 30 as that
      month's repayment, the corrected one 20. */
  lemma SameDayRepaymentsRecordedTwice(env: Collaborators, loan: LoanAccount, period: Period, d: Date)
    requires period.durationMonths >= 1
    requires Before(loan.disbursementDate, period.lastDay)
    requires TransactionsOfMonth(env, loan, period, 0)
             == [LoanTransaction(d, 10, 10, true, false), LoanTransaction(d, 10, 10, true, false)]
    ensures BuildDaily(env, loan, period).summary.periodicRepayments[0] == 30
    ensures BuildDailyCorrected(env, loan, period).summary.periodicRepayments[0] == 20
  {
    assert MonthEndAt(period.lastDay, 0) == period.lastDay;
    DailyBuilderContents(env, loan, period, SourceTotal);
    DailyBuilderContents(env, loan, period, CorrectedTotal);
    SameDayRepaymentsCountedTwice(env.fileKey, d);
  }

  /** If the key a repayment is filed under never equals the key a day is
      looked up by, no day of an active month finds its repayments: the
      walk adds nothing back and the balance stays the principal
      outstanding. */
  lemma MismatchedKeysAddNothing(env: Collaborators, loan: LoanAccount, period: Period, i: nat)
    requires forall a, b :: env.fileKey(a) != env.lookupKey(b)
    ensures MonthAdded(env, loan, period, i) == 0
    ensures BalanceBefore(env, loan, period, i + 1) == BalanceBefore(env, loan, period, i)
  {
    var lastDay := MonthEndAt(period.lastDay, i);
    var txns := MonthTransactions(env, loan, lastDay);
    var amounts := MonthGrouping(env, loan, lastDay).amounts;
    var days := MonthDays(env, loan, lastDay);
    SameDayMap(env.fileKey, txns);
    forall j | 0 <= j < |days|
      ensures env.lookupKey(days[j]) !in amounts
    {
    }
    NothingAddedOffMap(env.lookupKey, amounts, days);
  }

  /** While the walk stays after disbursement, the `j`-th outstanding entry in
      walk order is the weighted figure of month `j`. */
  lemma {:induction false} ActiveWeightsIndexed(env: Collaborators, loan: LoanAccount, period: Period, k: nat, j: nat)
    requires 1 <= period.lastDay.month <= 12
    requires j < ActiveMonths(loan, period, k)
    ensures ActiveMonth(loan, period, j)
    ensures ActiveWeights(env, loan, period, k)[j] == MonthWeighted(env, loan, period, j)
  {
    if ActiveMonth(loan, period, k - 1) {
      AllActiveBefore(loan, period, k - 1);
      if j < k - 1 {
        ActiveWeightsIndexed(env, loan, period, k - 1, j);
      }
    } else {
      ActiveWeightsIndexed(env, loan, period, k - 1, j);
    }
  }

  /** Inactive months are never followed by active ones in the walk, so none
      past the first inactive month contributes an outstanding entry. */
  lemma {:induction false} InactiveAddsNoWeights(loan: LoanAccount, period: Period, k: nat, i: nat)
    requires 1 <= period.lastDay.month <= 12
    requires i < k && !ActiveMonth(loan, period, i)
    ensures ActiveMonths(loan, period, k) <= i
  {
    if k - 1 > i {
      assert !ActiveMonth(loan, period, k - 1) by {
        if ActiveMonth(loan, period, k - 1) {
          ActiveMonthsArePrefix(loan, period, k - 1, i);
        }
      }
      InactiveAddsNoWeights(loan, period, k - 1, i);
    }
  }

  /** Month `i`'s outstanding figure, read as a daily sum: when the date
      utilities count whole days and the iterator yields consecutive days
      from the month's last day, the figure is the sum over the days stepped
      past of the balance held on each, starting from the balance at the
      start of the month. */
  lemma MonthWeightedIsDailySum(env: Collaborators, ord: Date -> int, loan: LoanAccount, period: Period, i: nat)
    requires CountsDays(env.diff, ord)
    requires var days := MonthDays(env, loan, MonthEndAt(period.lastDay, i));
             |days| > 0 && days[0] == MonthEndAt(period.lastDay, i) && OneDayApart(ord, days)
    ensures var lastDay := MonthEndAt(period.lastDay, i);
            MonthWeighted(env, loan, period, i)
            == DailyBalanceSum(env.lookupKey, MonthGrouping(env, loan, lastDay).amounts,
                               BalanceBefore(env, loan, period, i), MonthDays(env, loan, lastDay))
  {
    var lastDay := MonthEndAt(period.lastDay, i);
    MonthFigureIsDailySum(env.diff, ord, env.lookupKey, MonthGrouping(env, loan, lastDay).amounts,
                          BalanceBefore(env, loan, period, i), MonthDays(env, loan, lastDay));
  }

  /** The outstanding list is exactly as long as the repayment list when the
      earliest month of the walk ends after disbursement, and strictly
      shorter when it does not. */
  lemma OutstandingShorterIffEarlyMonthInactive(env: Collaborators, loan: LoanAccount, period: Period)
    requires 1 <= period.lastDay.month <= 12
    requires period.durationMonths > 0
    ensures var s := BuildDaily(env, loan, period).summary;
            |s.periodicOutstanding| < |s.periodicRepayments|
            <==> !ActiveMonth(loan, period, period.durationMonths - 1)
  {
    var n := period.durationMonths;
    if ActiveMonth(loan, period, n - 1) {
      AllActiveBefore(loan, period, n - 1);
    } else {
      InactiveAddsNoWeights(loan, period, n, n - 1);
    }
  }

  /** The returned balance is the principal outstanding plus the amounts the
      day walks added back, and the recorded repayments add up to the
      months' entries under the rule. */
  lemma DailyTotals(env: Collaborators, loan: LoanAccount, period: Period, rule: TotalRule)
    ensures var b := BuildDailyBy(env, loan, period, rule);
            var n := if period.durationMonths < 0 then 0 else period.durationMonths;
            && b.balance == loan.principalOutstanding + Sum(MonthAddedList(env, loan, period, n))
            && TotalRepayments(b.summary) == Sum(MonthRecordedList(env, loan, period, rule, n))
  {
    var n := if period.durationMonths < 0 then 0 else period.durationMonths;
    DailyBuilderContents(env, loan, period, rule);
    BalanceBeforeIsSum(env, loan, period, n);
    var s := BuildDailyBy(env, loan, period, rule).summary;
    assert s.periodicRepayments == MonthRecordedList(env, loan, period, rule, n);
  }

  /** The months' added amounts and repayment entries, in walk order. */
  function MonthAddedList(env: Collaborators, loan: LoanAccount, period: Period, k: nat): (s: seq<int>)
    ensures |s| == k
  {
    if k == 0 then [] else MonthAddedList(env, loan, period, k - 1) + [MonthAdded(env, loan, period, k - 1)]
  }

  function MonthRecordedList(env: Collaborators, loan: LoanAccount, period: Period, rule: TotalRule, k: nat): (s: seq<int>)
    ensures |s| == k
    ensures forall i :: 0 <= i < k ==> s[i] == MonthRecorded(env, loan, period, rule, i)
  {
    if k == 0 then []
    else MonthRecordedList(env, loan, period, rule, k - 1) + [MonthRecorded(env, loan, period, rule, k - 1)]
  }

  lemma {:induction false} BalanceBeforeIsSum(env: Collaborators, loan: LoanAccount, period: Period, k: nat)
    ensures BalanceBefore(env, loan, period, k) == loan.principalOutstanding + Sum(MonthAddedList(env, loan, period, k))
  {
    if k > 0 {
      BalanceBeforeIsSum(env, loan, period, k - 1);
      SumAppend(MonthAddedList(env, loan, period, k - 1), MonthAdded(env, loan, period, k - 1));
    }
  }
}
