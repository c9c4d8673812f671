/** The data the service-charge summary builders read and produce: loan
    transactions, the loan account fields they use, the per-loan summary
    (`ServiceChargeLoanProductSummary`), and the collaborators whose code is
    not part of this model (the repayment reader and the date utilities),
    passed in as functions. Amounts are integers in minor currency units. */
module LoanSummaryModel {
  import opened Calendar
  import opened SeqMath

  /** A transaction as the repayment reader returns it. */
  datatype LoanTransaction = LoanTransaction(
    date: Date,
    amount: int,
    principalPortion: int,
    isRepayment: bool,
    isRepaymentAtDisbursement: bool)

  /** The loan account fields the builders read. `isDemandLoan` is what the
      demand-loan check on the loan product answers. */
  datatype LoanAccount = LoanAccount(
    id: int,
    principalOutstanding: int,
    totalOutstanding: int,
    disbursementDate: Date,
    isDemandLoan: bool)

  /** A per-loan summary: one outstanding figure and one repayment figure per
      month of the billing period. */
  datatype LoanSummary = LoanSummary(
    periodicOutstanding: seq<int>,
    periodicRepayments: seq<int>,
    isDemandLoan: bool,
    disbursementDate: Date)

  /** A finished summary and the balance its builder returns. */
  datatype Built = Built(summary: LoanSummary, balance: int)

  /** The billing period a builder walks: its last day (the date range's
      `getToDateForCurrentYear()`) and its length in months. */
  datatype Period = Period(lastDay: Date, durationMonths: int)

  /** Code outside this model, as functions:
      - `reader(loanId, from, to)`: the loan's transactions between two dates;
      - `loopEnd(firstOfMonth, lastDay, disbursement)`: where the day walk stops;
      - `daysBackward(from, to)`: the days a backward date iterator yields;
      - `diff(a, b)`: the day count between two dates;
      - `fileKey(d)`: the key a repayment's `LocalDate` is filed under in the
        day map (the `LocalDate` overload of `getDateStringFromDate`);
      - `lookupKey(d)`: the key the day walk looks a `Date` up by (the
        `Date` overload). Nothing here assumes the two overloads agree. */
  datatype Collaborators = Collaborators(
    reader: (int, Date, Date) -> seq<LoanTransaction>,
    loopEnd: (Date, Date, Date) -> Date,
    daysBackward: (Date, Date) -> seq<Date>,
    diff: (Date, Date) -> int,
    fileKey: Date -> string,
    lookupKey: Date -> string)

  /** Repayments and repayments at disbursement count; other transaction types do not. */
  predicate IsRepaymentTransaction(t: LoanTransaction)
  {
    t.isRepayment || t.isRepaymentAtDisbursement
  }

  /** Total `amount` of the repayment-type transactions. */
  function RepaymentAmountSum(txns: seq<LoanTransaction>): int
  {
    if |txns| == 0 then 0
    else RepaymentAmountSum(txns[..|txns| - 1])
         + (if IsRepaymentTransaction(txns[|txns| - 1]) then txns[|txns| - 1].amount else 0)
  }

  /** Total principal portion of the repayment-type transactions. */
  function PrincipalRepaidSum(txns: seq<LoanTransaction>): int
  {
    if |txns| == 0 then 0
    else PrincipalRepaidSum(txns[..|txns| - 1])
         + (if IsRepaymentTransaction(txns[|txns| - 1]) then txns[|txns| - 1].principalPortion else 0)
  }

  /** `getTotalOutstanding()`: the sum of the stored outstanding figures. */
  function TotalOutstanding(s: LoanSummary): int
  {
    Sum(s.periodicOutstanding)
  }

  /** `getTotalRepayments()`: the sum of the stored repayment figures. */
  function TotalRepayments(s: LoanSummary): int
  {
    Sum(s.periodicRepayments)
  }

  /** `addPeriodicOutstandingReversed`: appends the list read back to front. */
  function AppendReversed(target: seq<int>, xs: seq<int>): (r: seq<int>)
    ensures |r| == |target| + |xs|
    ensures r[..|target|] == target
    ensures forall j :: |target| <= j < |r| ==> r[j] == xs[|xs| - 1 - (j - |target|)]
  {
    target + Reverse(xs)
  }

  /** The months of the walk whose end falls after disbursement: only those
      are looked at by the builders. */
  predicate ActiveMonth(loan: LoanAccount, period: Period, i: nat)
  {
    Before(loan.disbursementDate, MonthEndAt(period.lastDay, i))
  }

  /** Number of active months among the first `k` of the walk. */
  function ActiveMonths(loan: LoanAccount, period: Period, k: nat): (c: nat)
    ensures c <= k
  {
    if k == 0 then 0
    else ActiveMonths(loan, period, k - 1) + (if ActiveMonth(loan, period, k - 1) then 1 else 0)
  }

  /** The walk goes backward in time, so once a month predates disbursement
      every later one does too: the active months are a prefix of the walk. */
  lemma ActiveMonthsArePrefix(loan: LoanAccount, period: Period, i: nat, j: nat)
    requires 1 <= period.lastDay.month <= 12
    requires j < i && ActiveMonth(loan, period, i)
    ensures ActiveMonth(loan, period, j)
  {
    MonthEndsDescend(period.lastDay, j, i);
    BeforeTransitive(loan.disbursementDate, MonthEndAt(period.lastDay, i), MonthEndAt(period.lastDay, j));
  }

  lemma {:induction false} AllActiveBefore(loan: LoanAccount, period: Period, k: nat)
    requires 1 <= period.lastDay.month <= 12
    requires ActiveMonth(loan, period, k)
    ensures ActiveMonths(loan, period, k) == k
  {
    if k > 0 {
      ActiveMonthsArePrefix(loan, period, k, k - 1);
      AllActiveBefore(loan, period, k - 1);
    }
  }
}
