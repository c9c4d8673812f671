/** `ServiceChargeLoanSummaryFactory`: a per-loan-id memo of built summaries
    (`getLoanSummaryObject`) and the month-wise aggregation of the stored
    outstanding lists (`getMonthWiseOutstandingAmount`). The memo map is
    passed in and returned; the aggregation takes the stored summaries in
    the order the map yields them. */
module LoanSummaryFactory {
  import opened SeqMath
  import opened LoanSummaryModel
  import opened LoanSummaryDaily

  /** The factory's `loanSummaryObjectMap`. */
  type Cache = map<int, LoanSummary>

  /** The summary returned, the memo afterwards, and whether a summary was built. */
  datatype Lookup = Lookup(summary: LoanSummary, cache: Cache, computed: bool)

  /** `getLoanSummaryObject`: a stored summary is returned as is; otherwise a
      daily summary is built, stored under the loan id and returned. */
  function GetLoanSummaryObject(env: Collaborators, period: Period, cache: Cache, loan: LoanAccount): (r: Lookup)
    ensures loan.id in cache ==> r == Lookup(cache[loan.id], cache, false)
    ensures loan.id !in cache ==> r.computed && r.summary == BuildDaily(env, loan, period).summary
    ensures r.cache.Keys == cache.Keys + {loan.id} && r.cache[loan.id] == r.summary
    ensures forall id :: id in cache ==> r.cache[id] == cache[id]
  {
    if loan.id in cache then Lookup(cache[loan.id], cache, false)
    else
      var s := BuildDaily(env, loan, period).summary;
      Lookup(s, cache[loan.id := s], true)
  }

  /** Asking again for the same loan returns the same summary without
      building anything and leaves the memo as it was. */
  lemma LookupIdempotent(env: Collaborators, period: Period, cache: Cache, loan: LoanAccount)
    ensures var r := GetLoanSummaryObject(env, period, cache, loan);
            var r2 := GetLoanSummaryObject(env, period, r.cache, loan);
            r2.summary == r.summary && !r2.computed && r2.cache == r.cache
  {
  }

  /** The memo after a run of lookups and how many summaries were built. */
  datatype Run = Run(cache: Cache, built: nat)

  function LookupAll(env: Collaborators, period: Period, cache: Cache, loans: seq<LoanAccount>): Run
  {
    if |loans| == 0 then Run(cache, 0)
    else
      var prev := LookupAll(env, period, cache, loans[..|loans| - 1]);
      var r := GetLoanSummaryObject(env, period, prev.cache, loans[|loans| - 1]);
      Run(r.cache, prev.built + (if r.computed then 1 else 0))
  }

  /** The ids of a run of loans. */
  function Ids(loans: seq<LoanAccount>): set<int>
  {
    if |loans| == 0 then {} else Ids(loans[..|loans| - 1]) + {loans[|loans| - 1].id}
  }

  /** Counting the ids not yet stored, one lookup at a time. */
  lemma NewIdsStep(stored: set<int>, seen: set<int>, keys: set<int>, id: int)
    requires keys == stored + seen
    ensures id !in keys ==> |(seen + {id}) - stored| == |seen - stored| + 1
    ensures id in keys ==> (seen + {id}) - stored == seen - stored
  {
    if id !in keys {
      assert (seen + {id}) - stored == (seen - stored) + {id};
    }
  }

  /** One more lookup at the end of a run. */
  lemma LookupAllStep(env: Collaborators, period: Period, cache: Cache, loans: seq<LoanAccount>)
    requires |loans| > 0
    ensures var prev := LookupAll(env, period, cache, loans[..|loans| - 1]);
            var run := LookupAll(env, period, cache, loans);
            var id := loans[|loans| - 1].id;
            && run.cache.Keys == prev.cache.Keys + {id}
            && run.built == prev.built + (if id in prev.cache then 0 else 1)
            && (forall k :: k in prev.cache ==> run.cache[k] == prev.cache[k])
  {
  }

  /** After any run of lookups the memo holds the ids met so far and keeps
      every summary it held before. */
  lemma {:induction false} LookupAllKeys(env: Collaborators, period: Period, cache: Cache, loans: seq<LoanAccount>)
    ensures var run := LookupAll(env, period, cache, loans);
            && run.cache.Keys == cache.Keys + Ids(loans)
            && (forall id :: id in cache ==> run.cache[id] == cache[id])
  {
    if |loans| > 0 {
      LookupAllKeys(env, period, cache, loans[..|loans| - 1]);
      LookupAllStep(env, period, cache, loans);
    }
  }

  /** Over any run of lookups each loan id not already stored is built
      exactly once. */
  lemma {:induction false} EachNewIdBuiltOnce(env: Collaborators, period: Period, cache: Cache, loans: seq<LoanAccount>)
    ensures LookupAll(env, period, cache, loans).built == |Ids(loans) - cache.Keys|
  {
    if |loans| > 0 {
      var prefix := loans[..|loans| - 1];
      var l := loans[|loans| - 1];
      EachNewIdBuiltOnce(env, period, cache, prefix);
      LookupAllKeys(env, period, cache, prefix);
      LookupAllStep(env, period, cache, loans);
      NewIdsStep(cache.Keys, Ids(prefix), LookupAll(env, period, cache, prefix).cache.Keys, l.id);
    }
  }

  // ---------------------------------------------------------------------------
  // Month-wise aggregation as written

  /** `List.add(i, x)`: inserts `x` before position `i`. */
  function InsertAt(s: seq<int>, i: nat, x: int): (r: seq<int>)
    requires i <= |s|
    ensures |r| == |s| + 1 && r[i] == x
    ensures r[..i] == s[..i] && r[i + 1..] == s[i..]
  {
    s[..i] + [x] + s[i..]
  }

  /** The inner `for` loop from position `i`: reads `result.get(i)`, adds the
      outstanding value and inserts the sum at `i`. */
  function AddFrom(result: seq<int>, outstanding: seq<int>, i: nat): (r: seq<int>)
    requires i < |result| || i >= |outstanding|
    decreases |outstanding| - i
  {
    if i >= |outstanding| then result
    else AddFrom(InsertAt(result, i, result[i] + outstanding[i]), outstanding, i + 1)
  }

  /** `c` added to every element of `xs`. */
  function Shifted(c: int, xs: seq<int>): (r: seq<int>)
    ensures |r| == |xs|
    ensures forall j :: 0 <= j < |xs| ==> r[j] == c + xs[j]
  {
    seq(|xs|, j requires 0 <= j < |xs| => c + xs[j])
  }

  /** One summary's contribution: nothing unless its demand flag equals the
      argument; an empty result is first filled with `size + 1` zeros. */
  function AggregateStep(result: seq<int>, s: LoanSummary, isDemandLoan: bool): seq<int>
  {
    if s.isDemandLoan == isDemandLoan then
      var o := s.periodicOutstanding;
      var start := if |result| == 0 then Zeros(|o| + 1) else result;
      AddFrom(start, o, 0)
    else result
  }

  /** `getMonthWiseOutstandingAmount` over the stored summaries in map order. */
  function MonthWiseOutstanding(summaries: seq<LoanSummary>, isDemandLoan: bool): (r: seq<int>)
    ensures (forall j :: 0 <= j < |summaries| ==> summaries[j].isDemandLoan != isDemandLoan) ==> r == []
  {
    if |summaries| == 0 then []
    else AggregateStep(MonthWiseOutstanding(summaries[..|summaries| - 1], isDemandLoan),
                       summaries[|summaries| - 1], isDemandLoan)
  }

  /** Closed form of the inner loop: because every value is inserted rather
      than stored, position `i` always still holds the original first
      element, so the loop puts `first + o[j]` for every `j` in front of the
      list it started from. */
  lemma {:induction false} AddFromClosedForm(start: seq<int>, o: seq<int>, i: nat)
    requires |start| >= 1 && i <= |o|
    ensures AddFrom(Shifted(start[0], o[..i]) + start, o, i) == Shifted(start[0], o) + start
    decreases |o| - i
  {
    var c := start[0];
    var result := Shifted(c, o[..i]) + start;
    if i < |o| {
      assert result[i] == c;
      var next := InsertAt(result, i, result[i] + o[i]);
      assert next == Shifted(c, o[..i + 1]) + start;
      AddFromClosedForm(start, o, i + 1);
    } else {
      assert o[..i] == o;
    }
  }

  /** What one matching summary does to the running result. */
  lemma AggregateStepClosedForm(result: seq<int>, s: LoanSummary, isDemandLoan: bool)
    requires s.isDemandLoan == isDemandLoan
    ensures var o := s.periodicOutstanding;
            var start := if |result| == 0 then Zeros(|o| + 1) else result;
            AggregateStep(result, s, isDemandLoan) == Shifted(start[0], o) + start
  {
    var o := s.periodicOutstanding;
    var start := if |result| == 0 then Zeros(|o| + 1) else result;
    assert Shifted(start[0], o[..0]) + start == start;
    AddFromClosedForm(start, o, 0);
  }

  /** The first matching summary with `n` values yields those values followed
      by `n + 1` zeros, a list of length `2n + 1`. */
  lemma FirstMatchPadsWithZeros(summaries: seq<LoanSummary>, s: LoanSummary, isDemandLoan: bool)
    requires forall j :: 0 <= j < |summaries| ==> summaries[j].isDemandLoan != isDemandLoan
    requires s.isDemandLoan == isDemandLoan
    ensures var r := MonthWiseOutstanding(summaries + [s], isDemandLoan);
            && r == s.periodicOutstanding + Zeros(|s.periodicOutstanding| + 1)
            && |r| == 2 * |s.periodicOutstanding| + 1
  {
    assert (summaries + [s])[..|summaries|] == summaries;
    AggregateStepClosedForm([], s, isDemandLoan);
    var o := s.periodicOutstanding;
    assert Shifted(0, o) == o;
  }

  /** A summary whose demand flag differs from the argument changes nothing. */
  lemma NonMatchingLeavesResult(summaries: seq<LoanSummary>, s: LoanSummary, isDemandLoan: bool)
    requires s.isDemandLoan != isDemandLoan
    ensures MonthWiseOutstanding(summaries + [s], isDemandLoan) == MonthWiseOutstanding(summaries, isDemandLoan)
  {
    assert (summaries + [s])[..|summaries|] == summaries;
  }

  // ---------------------------------------------------------------------------
  // Month-wise aggregation as intended

  /** Element-wise sum, the shorter list padded with zeros. */
  function AddPadded(a: seq<int>, b: seq<int>): (r: seq<int>)
    ensures |r| == (if |a| < |b| then |b| else |a|)
  {
    var n := if |a| < |b| then |b| else |a|;
    seq(n, j requires 0 <= j < n => (if j < |a| then a[j] else 0) + (if j < |b| then b[j] else 0))
  }

  /** Entry `j` of a list, zero past its end. */
  function At(xs: seq<int>, j: nat): int
  {
    if j < |xs| then xs[j] else 0
  }

  /** The month-`j` total over the matching summaries. */
  function ColumnSum(summaries: seq<LoanSummary>, isDemandLoan: bool, j: nat): int
  {
    if |summaries| == 0 then 0
    else
      var s := summaries[|summaries| - 1];
      ColumnSum(summaries[..|summaries| - 1], isDemandLoan, j)
      + (if s.isDemandLoan == isDemandLoan then At(s.periodicOutstanding, j) else 0)
  }

  /** The longest matching outstanding list. */
  function LongestMatching(summaries: seq<LoanSummary>, isDemandLoan: bool): nat
  {
    if |summaries| == 0 then 0
    else
      var s := summaries[|summaries| - 1];
      var m := LongestMatching(summaries[..|summaries| - 1], isDemandLoan);
      if s.isDemandLoan == isDemandLoan && |s.periodicOutstanding| > m then |s.periodicOutstanding| else m
  }

  /** The aggregation the comments describe: month `j` of the result is the
      total of month `j` over the matching summaries. */
  function MonthWiseOutstandingCorrected(summaries: seq<LoanSummary>, isDemandLoan: bool): (r: seq<int>)
    ensures |r| == LongestMatching(summaries, isDemandLoan)
    ensures forall j :: 0 <= j < |r| ==> r[j] == ColumnSum(summaries, isDemandLoan, j)
  {
    if |summaries| == 0 then []
    else
      var prefix := summaries[..|summaries| - 1];
      var prev := MonthWiseOutstandingCorrected(prefix, isDemandLoan);
      var s := summaries[|summaries| - 1];
      ColumnSumBeyondLongest(prefix, isDemandLoan);
      if s.isDemandLoan == isDemandLoan then AddPadded(prev, s.periodicOutstanding) else prev
  }

  /** Past the result's end every column sums to zero: no matching list
      reaches that far. */
  lemma {:induction false} ColumnSumBeyondLongest(summaries: seq<LoanSummary>, isDemandLoan: bool)
    ensures forall j: nat :: j >= LongestMatching(summaries, isDemandLoan) ==> ColumnSum(summaries, isDemandLoan, j) == 0
  {
    if |summaries| > 0 {
      ColumnSumBeyondLongest(summaries[..|summaries| - 1], isDemandLoan);
    }
  }

  /** Two matching summaries of three months at 100 each: the source yields
      ten values beginning 200, 200, 200, 100, ... while the month totals are
      200, 200, 200. */
  lemma InsertDuplicatesResult(a: LoanSummary, b: LoanSummary)
    requires a.periodicOutstanding == [100, 100, 100] && b.periodicOutstanding == [100, 100, 100]
    requires a.isDemandLoan && b.isDemandLoan
    ensures MonthWiseOutstanding([a, b], true) == [200, 200, 200, 100, 100, 100, 0, 0, 0, 0]
    ensures MonthWiseOutstandingCorrected([a, b], true) == [200, 200, 200]
  {
    assert [a, b][..1] == [a];
    FirstMatchPadsWithZeros([], a, true);
    assert [] + [a] == [a];
    var r1 := MonthWiseOutstanding([a], true);
    assert r1 == [100, 100, 100, 0, 0, 0, 0];
    AggregateStepClosedForm(r1, b, true);
    assert Shifted(100, [100, 100, 100]) == [200, 200, 200];
    assert [a][..0] == [];
    assert LongestMatching([a], true) == 3;
    assert LongestMatching([a, b], true) == 3;
    var c := MonthWiseOutstandingCorrected([a, b], true);
    forall j | 0 <= j < 3
      ensures c[j] == 200
    {
      assert ColumnSum([a], true, j) == 100;
      assert ColumnSum([a, b], true, j) == 200;
    }
  }
}
