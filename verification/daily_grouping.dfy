/** `LoanSummaryDaily.populateRepaymentsIntoMap`: a month's repayment-type
    transactions filed by day, each day holding the sum of that day's
    principal portions, together with the month's repayment total.
    Transactions are visited in the order the reader returns them. */
module DailyGrouping {
  import opened Calendar
  import opened LoanSummaryModel

  /** The day map and the total the grouping returns. */
  datatype Grouping = Grouping(amounts: map<string, int>, total: int)

  const EmptyGrouping := Grouping(map[], 0)

  // ---------------------------------------------------------------------------
  // Independent descriptions of the grouping

  /** Some repayment-type transaction is filed under `k`. */
  predicate HasRepaymentOn(key: Date -> string, txns: seq<LoanTransaction>, k: string)
  {
    exists i :: 0 <= i < |txns| && IsRepaymentTransaction(txns[i]) && key(txns[i].date) == k
  }

  /** Total principal portion of the repayment-type transactions filed under `k`. */
  function PrincipalOnKey(key: Date -> string, txns: seq<LoanTransaction>, k: string): int
  {
    if |txns| == 0 then 0
    else
      var t := txns[|txns| - 1];
      PrincipalOnKey(key, txns[..|txns| - 1], k)
      + (if IsRepaymentTransaction(t) && key(t.date) == k then t.principalPortion else 0)
  }

  /** No two repayment-type transactions are filed under the same key. */
  predicate DistinctRepaymentDays(key: Date -> string, txns: seq<LoanTransaction>)
  {
    forall i, j ::
      (0 <= i < j < |txns| && IsRepaymentTransaction(txns[i]) && IsRepaymentTransaction(txns[j]))
      ==> key(txns[i].date) != key(txns[j].date)
  }

  /** The sum of a map's values over a set of its keys. */
  ghost function ValueSum(m: map<string, int>, keys: set<string>): int
    requires keys <= m.Keys
    decreases keys
  {
    if keys == {} then 0
    else
      var k :| k in keys;
      m[k] + ValueSum(m, keys - {k})
  }

  // ---------------------------------------------------------------------------
  // The grouping as written

  /** One loop pass as the source performs it: a second repayment on a day
      already in the map is merged with the stored amount, and the MERGED
      amount is what is added to the total. */
  function GroupStepAsWritten(key: Date -> string, g: Grouping, t: LoanTransaction): Grouping
  {
    if IsRepaymentTransaction(t) then
      var k := key(t.date);
      var amount := if k in g.amounts then t.principalPortion + g.amounts[k] else t.principalPortion;
      Grouping(g.amounts[k := amount], g.total + amount)
    else g
  }

  function GroupRepaymentsAsWritten(key: Date -> string, txns: seq<LoanTransaction>): Grouping
  {
    if |txns| == 0 then EmptyGrouping
    else GroupStepAsWritten(key, GroupRepaymentsAsWritten(key, txns[..|txns| - 1]), txns[|txns| - 1])
  }

  // ---------------------------------------------------------------------------
  // The grouping as intended

  /** One loop pass with the total growing by the transaction's own
      principal portion; the map update is the source's. */
  function GroupStep(key: Date -> string, g: Grouping, t: LoanTransaction): Grouping
  {
    if IsRepaymentTransaction(t) then
      var k := key(t.date);
      var amount := if k in g.amounts then t.principalPortion + g.amounts[k] else t.principalPortion;
      Grouping(g.amounts[k := amount], g.total + t.principalPortion)
    else g
  }

  /** The corrected grouping: one entry per day that has a repayment, holding
      that day's principal repaid, and a total equal to all principal repaid. */
  function GroupRepayments(key: Date -> string, txns: seq<LoanTransaction>): (g: Grouping)
    ensures forall k :: k in g.amounts <==> HasRepaymentOn(key, txns, k)
    ensures forall k :: k in g.amounts ==> g.amounts[k] == PrincipalOnKey(key, txns, k)
    ensures g.total == PrincipalRepaidSum(txns)
  {
    if |txns| == 0 then EmptyGrouping
    else
      var prefix := txns[..|txns| - 1];
      var t := txns[|txns| - 1];
      var g0 := GroupRepayments(key, prefix);
      assert forall k :: HasRepaymentOn(key, txns, k) <==>
          HasRepaymentOn(key, prefix, k) || (IsRepaymentTransaction(t) && key(t.date) == k) by {
        forall k | HasRepaymentOn(key, prefix, k)
          ensures HasRepaymentOn(key, txns, k)
        {
          var i :| 0 <= i < |prefix| && IsRepaymentTransaction(prefix[i]) && key(prefix[i].date) == k;
          assert txns[i] == prefix[i];
        }
      }
      if IsRepaymentTransaction(t) && key(t.date) !in g0.amounts then
        NoRepaymentNoPrincipal(key, prefix, key(t.date));
        GroupStep(key, g0, t)
      else
        GroupStep(key, g0, t)
  }

  // ---------------------------------------------------------------------------
  // Properties

  lemma {:induction false} NoRepaymentNoPrincipal(key: Date -> string, txns: seq<LoanTransaction>, k: string)
    requires !HasRepaymentOn(key, txns, k)
    ensures PrincipalOnKey(key, txns, k) == 0
  {
    if |txns| > 0 {
      NoRepaymentNoPrincipal(key, txns[..|txns| - 1], k);
    }
  }

  /** Both versions build the same day map; they differ only in the total. */
  lemma {:induction false} SameDayMap(key: Date -> string, txns: seq<LoanTransaction>)
    ensures GroupRepaymentsAsWritten(key, txns).amounts == GroupRepayments(key, txns).amounts
  {
    if |txns| > 0 {
      var prefix := txns[..|txns| - 1];
      SameDayMap(key, prefix);
      StepsAgreeOnAmounts(key, GroupRepaymentsAsWritten(key, prefix), GroupRepayments(key, prefix), txns[|txns| - 1]);
    }
  }

  lemma StepsAgreeOnAmounts(key: Date -> string, g1: Grouping, g2: Grouping, t: LoanTransaction)
    requires g1.amounts == g2.amounts
    ensures GroupStepAsWritten(key, g1, t).amounts == GroupStep(key, g2, t).amounts
  {
  }

  /** Removing one key from a value sum. */
  lemma {:induction false} ValueSumRemove(m: map<string, int>, keys: set<string>, k: string)
    requires keys <= m.Keys && k in keys
    ensures ValueSum(m, keys) == m[k] + ValueSum(m, keys - {k})
    decreases keys
  {
    var j :| j in keys && ValueSum(m, keys) == m[j] + ValueSum(m, keys - {j});
    if j != k {
      ValueSumRemove(m, keys - {j}, k);
      ValueSumRemove(m, keys - {k}, j);
      assert keys - {j} - {k} == keys - {k} - {j};
    }
  }

  /** Two maps that agree on a set of keys have the same value sum over it. */
  lemma {:induction false} ValueSumAgree(m1: map<string, int>, m2: map<string, int>, keys: set<string>)
    requires keys <= m1.Keys && keys <= m2.Keys
    requires forall k :: k in keys ==> m1[k] == m2[k]
    ensures ValueSum(m1, keys) == ValueSum(m2, keys)
    decreases keys
  {
    if keys != {} {
      var k :| k in keys && ValueSum(m1, keys) == m1[k] + ValueSum(m1, keys - {k});
      ValueSumRemove(m2, keys, k);
      ValueSumAgree(m1, m2, keys - {k});
    }
  }

  /** Storing `v` under `k` changes the value sum by `v` minus what `k` held. */
  lemma ValueSumUpdate(m: map<string, int>, k: string, v: int)
    ensures ValueSum(m[k := v], m[k := v].Keys)
            == ValueSum(m, m.Keys) - (if k in m then m[k] else 0) + v
  {
    var m' := m[k := v];
    ValueSumRemove(m', m'.Keys, k);
    assert m'.Keys - {k} == m.Keys - {k};
    ValueSumAgree(m', m, m.Keys - {k});
    if k in m {
      ValueSumRemove(m, m.Keys, k);
    } else {
      assert m.Keys - {k} == m.Keys;
    }
  }

  /** One corrected pass keeps the total equal to the sum of the day map. */
  lemma GroupStepKeepsTotal(key: Date -> string, g: Grouping, t: LoanTransaction)
    requires g.total == ValueSum(g.amounts, g.amounts.Keys)
    ensures var g' := GroupStep(key, g, t); g'.total == ValueSum(g'.amounts, g'.amounts.Keys)
  {
    if IsRepaymentTransaction(t) {
      var k := key(t.date);
      var v := if k in g.amounts then t.principalPortion + g.amounts[k] else t.principalPortion;
      ValueSumUpdate(g.amounts, k, v);
    }
  }

  /** The corrected total is the sum of the values in the day map. */
  lemma {:induction false} TotalIsSumOfDayAmounts(key: Date -> string, txns: seq<LoanTransaction>)
    ensures var g := GroupRepayments(key, txns); g.total == ValueSum(g.amounts, g.amounts.Keys)
  {
    if |txns| > 0 {
      var prefix := txns[..|txns| - 1];
      TotalIsSumOfDayAmounts(key, prefix);
      GroupStepKeepsTotal(key, GroupRepayments(key, prefix), txns[|txns| - 1]);
    }
  }

  /** With no two repayments on the same day the source's total is right. */
  lemma {:induction false} AsWrittenTotalWithoutSameDayRepayments(key: Date -> string, txns: seq<LoanTransaction>)
    requires DistinctRepaymentDays(key, txns)
    ensures GroupRepaymentsAsWritten(key, txns).total == PrincipalRepaidSum(txns)
  {
    if |txns| > 0 {
      var prefix := txns[..|txns| - 1];
      var t := txns[|txns| - 1];
      assert DistinctRepaymentDays(key, prefix) by {
        forall i, j | 0 <= i < j < |prefix|
          ensures prefix[i] == txns[i] && prefix[j] == txns[j]
        {
        }
      }
      AsWrittenTotalWithoutSameDayRepayments(key, prefix);
      SameDayMap(key, prefix);
      if IsRepaymentTransaction(t) {
        assert !HasRepaymentOn(key, prefix, key(t.date)) by {
          forall i | 0 <= i < |prefix| && IsRepaymentTransaction(prefix[i])
            ensures key(prefix[i].date) != key(t.date)
          {
            assert prefix[i] == txns[i];
            assert IsRepaymentTransaction(txns[i]) && i < |txns| - 1;
          }
        }
      }
    }
  }

  /** Two repayments of 10 on the same day: the source reports 30 repaid in
      the month although the day map holds 20. */
  lemma SameDayRepaymentsCountedTwice(key: Date -> string, d: Date)
    ensures var t := LoanTransaction(d, 10, 10, true, false);
            && GroupRepaymentsAsWritten(key, [t, t]).total == 30
            && GroupRepaymentsAsWritten(key, [t, t]).amounts == map[key(d) := 20]
            && GroupRepayments(key, [t, t]).total == 20
  {
    var t := LoanTransaction(d, 10, 10, true, false);
    assert [t, t][..1] == [t];
    assert [t][..0] == [];
    assert GroupRepaymentsAsWritten(key, []) == EmptyGrouping;
    var g1 := GroupRepaymentsAsWritten(key, [t]);
    assert g1 == GroupStepAsWritten(key, EmptyGrouping, t);
    assert g1 == Grouping(map[key(d) := 10], 10);
    assert GroupRepaymentsAsWritten(key, [t, t]) == GroupStepAsWritten(key, g1, t);
  }
}
