/** The backward day walk inside one month of `LoanSummaryDaily`: from the
    month's last day down to the loop end, every day that carries a
    repayment in the day map adds `balance × days since the marker` to the
    weighted sum (`updateLoanOutstandingAndSummationValues`), then raises
    the balance by the day's amount and moves the marker to that day. One
    more, unadjusted, step after the loop closes the month. */
module DailyWalk {
  import opened Calendar

  /** The walk's accumulator: running balance, date marker, weighted sum
      so far, and the last day visited. */
  datatype DayWalk = DayWalk(balance: int, marker: Date, weighted: int, current: Date)

  /** The walk's starting point for a month ending on `lastDay`. */
  function StartWalk(balance: int, lastDay: Date): DayWalk
  {
    DayWalk(balance, lastDay, 0, lastDay)
  }

  /** One iteration of the `while` loop for day `d`. */
  function DayStep(diff: (Date, Date) -> int, key: Date -> string, amounts: map<string, int>,
                   w: DayWalk, d: Date): DayWalk
  {
    var k := key(d);
    if k in amounts then
      DayWalk(w.balance + amounts[k], d, w.weighted + w.balance * diff(d, w.marker), d)
    else
      w.(current := d)
  }

  /** The loop over the days the iterator yields, in order. */
  function WalkDays(diff: (Date, Date) -> int, key: Date -> string, amounts: map<string, int>,
                    days: seq<Date>, w: DayWalk): DayWalk
  {
    if |days| == 0 then w
    else DayStep(diff, key, amounts, WalkDays(diff, key, amounts, days[..|days| - 1], w), days[|days| - 1])
  }

  /** The call after the loop: the balance held since the marker, up to the
      last day visited, with no amount added. */
  function FinalWeighted(diff: (Date, Date) -> int, w: DayWalk): int
  {
    w.weighted + w.balance * diff(w.current, w.marker)
  }

  /** What the walk adds to the balance: the map amount of every visited
      day that has one (a key met twice is added twice). */
  function AddedOnDays(key: Date -> string, amounts: map<string, int>, days: seq<Date>): int
  {
    if |days| == 0 then 0
    else
      var k := key(days[|days| - 1]);
      AddedOnDays(key, amounts, days[..|days| - 1]) + (if k in amounts then amounts[k] else 0)
  }

  /** The weighted sum a day-by-day accumulation gives: for every visited day
      after the first, the balance held once all earlier days are applied. */
  function DailyBalanceSum(key: Date -> string, amounts: map<string, int>, balance: int, days: seq<Date>): int
  {
    if |days| <= 1 then 0
    else
      DailyBalanceSum(key, amounts, balance, days[..|days| - 1])
      + balance + AddedOnDays(key, amounts, days[..|days| - 1])
  }

  /** `diff` counts whole days between its arguments on some day numbering. */
  ghost predicate CountsDays(diff: (Date, Date) -> int, ord: Date -> int)
  {
    forall a, b :: diff(a, b) == ord(b) - ord(a)
  }

  /** Consecutive days, going backward one day at a time. */
  ghost predicate OneDayApart(ord: Date -> int, days: seq<Date>)
  {
    forall j :: 0 <= j < |days| - 1 ==> ord(days[j + 1]) == ord(days[j]) - 1
  }

  // ---------------------------------------------------------------------------
  // Properties

  /** The walk raises the balance by exactly the amounts of the visited days,
      leaves the last visited day as current, and its marker is the start's
      marker or a visited day. */
  lemma {:induction false} WalkBalance(diff: (Date, Date) -> int, key: Date -> string,
                                       amounts: map<string, int>, days: seq<Date>, w: DayWalk)
    ensures var r := WalkDays(diff, key, amounts, days, w);
            && r.balance == w.balance + AddedOnDays(key, amounts, days)
            && r.current == (if |days| == 0 then w.current else days[|days| - 1])
            && (r.marker == w.marker || r.marker in days)
  {
    if |days| > 0 {
      WalkBalance(diff, key, amounts, days[..|days| - 1], w);
    }
  }

  /** A walk that meets no repayment day changes nothing but the current
      day, and the month's weighted figure is the starting balance times
      the days from the last visited day to the marker. */
  lemma {:induction false} WalkWithoutRepayments(diff: (Date, Date) -> int, key: Date -> string,
                                                 amounts: map<string, int>, days: seq<Date>, w: DayWalk)
    requires forall j :: 0 <= j < |days| ==> key(days[j]) !in amounts
    requires |days| > 0
    ensures var r := WalkDays(diff, key, amounts, days, w);
            && r == w.(current := days[|days| - 1])
            && FinalWeighted(diff, r) == w.weighted + w.balance * diff(days[|days| - 1], w.marker)
  {
    if |days| > 1 {
      WalkWithoutRepayments(diff, key, amounts, days[..|days| - 1], w);
    }
  }

  /** Days whose keys are not in the map add nothing to the balance. */
  lemma {:induction false} NothingAddedOffMap(key: Date -> string, amounts: map<string, int>, days: seq<Date>)
    requires forall j :: 0 <= j < |days| ==> key(days[j]) !in amounts
    ensures AddedOnDays(key, amounts, days) == 0
  {
    if |days| > 0 {
      NothingAddedOffMap(key, amounts, days[..|days| - 1]);
    }
  }

  /** One step past a day that is one day before the current one adds the
      balance held before the step to the marker-adjusted weighted sum. */
  lemma DayStepAddsBalance(diff: (Date, Date) -> int, ord: Date -> int, key: Date -> string,
                           amounts: map<string, int>, w: DayWalk, d: Date)
    requires CountsDays(diff, ord) && ord(d) == ord(w.current) - 1
    ensures var r := DayStep(diff, key, amounts, w, d);
            r.weighted + r.balance * (ord(r.marker) - ord(r.current))
            == w.weighted + w.balance * (ord(w.marker) - ord(w.current)) + w.balance
  {
    var x := ord(w.marker) - ord(w.current);
    assert w.balance * (x + 1) == w.balance * x + w.balance;
    if key(d) in amounts {
      assert diff(d, w.marker) == x + 1;
    }
  }

  /** The invariant behind the reference reading, after the first `|days|`
      days: the weighted sum plus the balance held since the marker up to
      the current day equals the day-by-day sum. */
  lemma {:induction false} WalkMatchesDailySum(diff: (Date, Date) -> int, ord: Date -> int, key: Date -> string,
                                               amounts: map<string, int>, balance: int, days: seq<Date>)
    requires CountsDays(diff, ord) && OneDayApart(ord, days)
    requires |days| > 0
    ensures var r := WalkDays(diff, key, amounts, days, StartWalk(balance, days[0]));
            && r.weighted + r.balance * (ord(r.marker) - ord(r.current))
               == DailyBalanceSum(key, amounts, balance, days)
            && r.balance == balance + AddedOnDays(key, amounts, days)
            && r.current == days[|days| - 1]
  {
    var w0 := StartWalk(balance, days[0]);
    if |days| == 1 {
      assert days[..0] == [];
    } else {
      var prefix := days[..|days| - 1];
      assert OneDayApart(ord, prefix);
      WalkMatchesDailySum(diff, ord, key, amounts, balance, prefix);
      var w := WalkDays(diff, key, amounts, prefix, w0);
      var d := days[|days| - 1];
      assert ord(d) == ord(w.current) - 1;
      DayStepAddsBalance(diff, ord, key, amounts, w, d);
    }
  }

  /** Reference reading of the month's figure: when `diff` counts days and
      the iterator yields consecutive days starting on the month's last day,
      the weighted figure is the sum, over every day stepped past, of the
      balance held on it. */
  lemma MonthFigureIsDailySum(diff: (Date, Date) -> int, ord: Date -> int, key: Date -> string,
                              amounts: map<string, int>, balance: int, days: seq<Date>)
    requires CountsDays(diff, ord) && OneDayApart(ord, days)
    requires |days| > 0
    ensures FinalWeighted(diff, WalkDays(diff, key, amounts, days, StartWalk(balance, days[0])))
            == DailyBalanceSum(key, amounts, balance, days)
  {
    WalkMatchesDailySum(diff, ord, key, amounts, balance, days);
  }
}
