/** The monthly-snapshot builder (`LoanSummaryQuarterly`). It walks the
    billing period backward one calendar month at a time. Each month records
    the running balance as that month's outstanding figure and then adds the
    month's repayments back onto it, reconstructing the earlier balance. */
module LoanSummaryMonthly {
  import opened Calendar
  import opened SeqMath
  import opened LoanSummaryModel

  /** The lists as the loop builds them (most recent month first) and the
      running balance. */
  datatype MonthlyState = MonthlyState(outstanding: seq<int>, repayments: seq<int>, balance: int)

  /** One pass of the loop body for the month ending on `lastDay`. */
  function MonthlyNext(env: Collaborators, loan: LoanAccount, lastDay: Date, st: MonthlyState): MonthlyState
  {
    if Before(loan.disbursementDate, lastDay) then
      var txns := env.reader(loan.id, FirstOfMonth(lastDay), lastDay);
      var repaid := RepaymentAmountSum(txns);
      MonthlyState(st.outstanding + [st.balance], st.repayments + [repaid],
                   if |txns| == 0 then st.balance else st.balance + repaid)
    else
      MonthlyState(st.outstanding + [0], st.repayments + [0], st.balance)
  }

  /** The loop of `populateOutstandingAndRepaymentAmounts`, from the month
      ending on `lastDay`, for `remaining` more months. */
  function MonthlyWalk(env: Collaborators, loan: LoanAccount, lastDay: Date, remaining: int,
                       st: MonthlyState): MonthlyState
    decreases remaining
  {
    if remaining <= 0 then st
    else MonthlyWalk(env, loan, LastOfPreviousMonth(FirstOfMonth(lastDay)), remaining - 1,
                     MonthlyNext(env, loan, lastDay, st))
  }

  /** `LoanSummaryQuarterly.populateOutstandingAndRepaymentAmounts`: starts
      from the loan's total outstanding amount, stores the outstanding list
      reversed (earliest month first) and the repayment list in walk order
      (latest month first), and returns the reconstructed balance. */
  function BuildMonthly(env: Collaborators, loan: LoanAccount, period: Period): (b: Built)
    ensures var n := if period.durationMonths < 0 then 0 else period.durationMonths;
            |b.summary.periodicOutstanding| == n && |b.summary.periodicRepayments| == n
    ensures b.balance == loan.totalOutstanding + Sum(b.summary.periodicRepayments)
    ensures b.summary.isDemandLoan == loan.isDemandLoan
    ensures b.summary.disbursementDate == loan.disbursementDate
  {
    var st := MonthlyWalk(env, loan, period.lastDay, period.durationMonths,
                          MonthlyState([], [], loan.totalOutstanding));
    MonthlyWalkSpec(env, loan, period, 0, period.durationMonths, MonthlyState([], [], loan.totalOutstanding));
    Built(LoanSummary(AppendReversed([], st.outstanding), st.repayments, loan.isDemandLoan, loan.disbursementDate),
          st.balance)
  }

  // ---------------------------------------------------------------------------
  // What each month records

  /** Repayments recorded for month `i` of the walk: the repayment-type
      amounts in that calendar month when the month is active, else zero. */
  function MonthRepaid(env: Collaborators, loan: LoanAccount, period: Period, i: nat): int
  {
    if ActiveMonth(loan, period, i)
    then RepaymentAmountSum(env.reader(loan.id, MonthStartAt(period.lastDay, i), MonthEndAt(period.lastDay, i)))
    else 0
  }

  /** After `k` months the walk-order lists hold one entry per month; each
      repayment entry is that month's repaid amount; each outstanding entry
      is the starting balance plus everything repaid in the later months (or
      zero before disbursement); and the balance has every repayment added back. */
  ghost predicate MonthlyInvariant(env: Collaborators, loan: LoanAccount, period: Period, k: nat, st: MonthlyState)
  {
    && |st.outstanding| == k && |st.repayments| == k
    && (forall j :: 0 <= j < k ==> st.repayments[j] == MonthRepaid(env, loan, period, j))
    && (forall j :: 0 <= j < k ==>
          st.outstanding[j] == (if ActiveMonth(loan, period, j)
                                then loan.totalOutstanding + Sum(st.repayments[..j]) else 0))
    && st.balance == loan.totalOutstanding + Sum(st.repayments)
  }

  lemma MonthlyStep(env: Collaborators, loan: LoanAccount, period: Period, k: nat, st: MonthlyState)
    requires MonthlyInvariant(env, loan, period, k, st)
    ensures MonthlyInvariant(env, loan, period, k + 1, MonthlyNext(env, loan, MonthEndAt(period.lastDay, k), st))
  {
    var lastDay := MonthEndAt(period.lastDay, k);
    var txns := env.reader(loan.id, FirstOfMonth(lastDay), lastDay);
    var repaid := if Before(loan.disbursementDate, lastDay) then RepaymentAmountSum(txns) else 0;
    var st' := MonthlyNext(env, loan, lastDay, st);
    assert repaid == MonthRepaid(env, loan, period, k);
    assert st'.repayments == st.repayments + [repaid];
    assert st'.outstanding == st.outstanding + [if ActiveMonth(loan, period, k) then st.balance else 0];
    assert st'.repayments[..k] == st.repayments;
    forall j | 0 <= j < k + 1
      ensures st'.repayments[j] == MonthRepaid(env, loan, period, j)
    {
      if j < k { assert st'.repayments[j] == st.repayments[j]; }
    }
    forall j | 0 <= j < k + 1
      ensures st'.outstanding[j] == (if ActiveMonth(loan, period, j)
                                     then loan.totalOutstanding + Sum(st'.repayments[..j]) else 0)
    {
      if j < k {
        assert st'.outstanding[j] == st.outstanding[j];
        assert st'.repayments[..j] == st.repayments[..j];
      }
    }
    SumAppend(st.repayments, repaid);
  }

  lemma {:induction false} MonthlyWalkSpec(env: Collaborators, loan: LoanAccount, period: Period,
                                           k: nat, remaining: int, st: MonthlyState)
    requires MonthlyInvariant(env, loan, period, k, st)
    ensures MonthlyInvariant(env, loan, period, k + (if remaining < 0 then 0 else remaining),
                             MonthlyWalk(env, loan, MonthEndAt(period.lastDay, k), remaining, st))
    decreases remaining
  {
    if remaining > 0 {
      MonthlyStep(env, loan, period, k, st);
      MonthWalkStep(period.lastDay, k);
      MonthlyWalkSpec(env, loan, period, k + 1, remaining - 1,
                      MonthlyNext(env, loan, MonthEndAt(period.lastDay, k), st));
    }
  }

  /** Month by month: month `i` of the walk is stored at repayment position
      `i` and at outstanding position `n-1-i` (the outstanding list is
      earliest month first). A month whose end is not after disbursement
      records zero for both; an active month records its repayment-type
      amounts and, as outstanding, the balance before that month's
      repayments are added back. */
  lemma MonthlyBuilderContents(env: Collaborators, loan: LoanAccount, period: Period, i: nat)
    requires i < period.durationMonths
    ensures var s := BuildMonthly(env, loan, period).summary;
            var n := period.durationMonths;
            && s.periodicRepayments[i] == MonthRepaid(env, loan, period, i)
            && s.periodicOutstanding[n - 1 - i]
               == (if ActiveMonth(loan, period, i)
                   then loan.totalOutstanding + Sum(s.periodicRepayments[..i]) else 0)
            && (!ActiveMonth(loan, period, i) ==>
                  s.periodicOutstanding[n - 1 - i] == 0 && s.periodicRepayments[i] == 0)
  {
    var st0 := MonthlyState([], [], loan.totalOutstanding);
    var st := MonthlyWalk(env, loan, period.lastDay, period.durationMonths, st0);
    var n := period.durationMonths;
    assert |st.outstanding| == n && |st.repayments| == n
        && st.repayments[i] == MonthRepaid(env, loan, period, i)
        && st.outstanding[i] == (if ActiveMonth(loan, period, i)
                                 then loan.totalOutstanding + Sum(st.repayments[..i]) else 0) by {
      assert MonthEndAt(period.lastDay, 0) == period.lastDay;
      MonthlyWalkSpec(env, loan, period, 0, n, st0);
    }
    var s := BuildMonthly(env, loan, period).summary;
    assert s.periodicRepayments == st.repayments;
    assert s.periodicOutstanding[n - 1 - i] == st.outstanding[i];
  }

  /** The returned balance is the starting total outstanding plus every
      repayment the summary records, and the summary's totals add up its
      lists whichever way round they are stored. */
  lemma MonthlyTotals(env: Collaborators, loan: LoanAccount, period: Period)
    ensures var b := BuildMonthly(env, loan, period);
            && TotalRepayments(b.summary) == b.balance - loan.totalOutstanding
            && TotalOutstanding(b.summary)
               == Sum(MonthlyWalk(env, loan, period.lastDay, period.durationMonths,
                                  MonthlyState([], [], loan.totalOutstanding)).outstanding)
  {
    var st := MonthlyWalk(env, loan, period.lastDay, period.durationMonths,
                          MonthlyState([], [], loan.totalOutstanding));
    SumReverse(st.outstanding);
    assert AppendReversed([], st.outstanding) == Reverse(st.outstanding);
  }
}
