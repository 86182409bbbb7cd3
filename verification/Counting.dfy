/** Counting the elements of a list by value. */
module Counting {
  import opened Paths

  function Count<T(==)>(xs: seq<T>, x: T): nat {
    if xs == [] then 0 else Count(xs[..|xs| - 1], x) + if xs[|xs| - 1] == x then 1 else 0
  }

  // The counts of the values in `order`, added up.
  function SumCounts<T(==)>(order: seq<T>, xs: seq<T>): nat {
    if order == [] then 0 else Count(xs, order[0]) + SumCounts(order[1..], xs)
  }

  lemma {:induction false} CountIsPositive<T>(xs: seq<T>, x: T)
    ensures Count(xs, x) > 0 <==> x in xs
  {
    if xs != [] {
      CountIsPositive(xs[..|xs| - 1], x);
      assert xs == xs[..|xs| - 1] + [xs[|xs| - 1]];
    }
  }

  lemma {:induction false} SumCountsOfEmpty<T>(order: seq<T>)
    ensures SumCounts(order, []) == 0
  {
    if order != [] {
      SumCountsOfEmpty(order[1..]);
    }
  }

  lemma {:induction false} SumCountsStep<T>(order: seq<T>, xs: seq<T>)
    requires xs != [] && NoDuplicates(order)
    ensures SumCounts(order, xs) == SumCounts(order, xs[..|xs| - 1]) + if xs[|xs| - 1] in order then 1 else 0
  {
    if order != [] {
      SumCountsStep(order[1..], xs);
      if xs[|xs| - 1] in order[1..] {
        var k :| 0 <= k < |order[1..]| && order[1..][k] == xs[|xs| - 1];
        assert order[k + 1] == xs[|xs| - 1];
      }
    }
  }

  /** Counted by value, over any list of the values without repeats, nothing is lost or counted twice. */
  lemma {:induction false} CountsSumToLength<T>(order: seq<T>, xs: seq<T>)
    requires NoDuplicates(order)
    requires forall x :: x in xs ==> x in order
    ensures SumCounts(order, xs) == |xs|
  {
    if xs == [] {
      SumCountsOfEmpty(order);
    } else {
      SumCountsStep(order, xs);
      assert xs[|xs| - 1] in order;
      CountsSumToLength(order, xs[..|xs| - 1]);
    }
  }
}
