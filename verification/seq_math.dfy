/** Sums, reversal and zero lists over sequences of amounts: the list
    operations the summary classes perform on their LinkedLists. */
module SeqMath {

  /** Sum of a list of amounts, left to right. */
  function Sum(xs: seq<int>): int
  {
    if |xs| == 0 then 0 else Sum(xs[..|xs| - 1]) + xs[|xs| - 1]
  }

  /** A list of `n` zeros. */
  function Zeros(n: nat): (r: seq<int>)
    ensures |r| == n
    ensures forall i :: 0 <= i < n ==> r[i] == 0
  {
    if n == 0 then [] else Zeros(n - 1) + [0]
  }

  /** The list read back to front. */
  function Reverse<T>(xs: seq<T>): (r: seq<T>)
    ensures |r| == |xs|
    ensures forall i :: 0 <= i < |xs| ==> r[i] == xs[|xs| - 1 - i]
  {
    if |xs| == 0 then [] else [xs[|xs| - 1]] + Reverse(xs[..|xs| - 1])
  }

  lemma SumAppend(xs: seq<int>, x: int)
    ensures Sum(xs + [x]) == Sum(xs) + x
  {
    assert (xs + [x])[..|xs|] == xs;
  }

  lemma {:induction false} SumConcat(xs: seq<int>, ys: seq<int>)
    ensures Sum(xs + ys) == Sum(xs) + Sum(ys)
    decreases |ys|
  {
    if |ys| == 0 {
      assert xs + ys == xs;
    } else {
      var init := ys[..|ys| - 1];
      var last := ys[|ys| - 1];
      assert ys == init + [last];
      assert xs + ys == (xs + init) + [last];
      SumAppend(xs + init, last);
      SumConcat(xs, init);
      SumAppend(init, last);
    }
  }

  lemma {:induction false} SumZeros(n: nat)
    ensures Sum(Zeros(n)) == 0
  {
    if n > 0 {
      SumZeros(n - 1);
      SumAppend(Zeros(n - 1), 0);
    }
  }

  /** Reversing a list does not change its sum (the totals of a summary read
      the same whichever way its lists are stored). */
  lemma {:induction false} SumReverse(xs: seq<int>)
    ensures Sum(Reverse(xs)) == Sum(xs)
    decreases |xs|
  {
    if |xs| > 0 {
      var init := xs[..|xs| - 1];
      SumReverse(init);
      SumConcat([xs[|xs| - 1]], Reverse(init));
      assert Sum([xs[|xs| - 1]]) == xs[|xs| - 1] by {
        SumAppend([], xs[|xs| - 1]);
        assert [] + [xs[|xs| - 1]] == [xs[|xs| - 1]];
      }
    }
  }

  lemma ReverseReverse<T>(xs: seq<T>)
    ensures Reverse(Reverse(xs)) == xs
  {
  }
}
