/** Sums of a weight over a sequence. */
module Sums {

  function Sum<T>(xs: seq<T>, weight: T -> nat): (total: nat)
    decreases |xs|
  {
    if xs == [] then 0 else Sum(xs[..|xs| - 1], weight) + weight(xs[|xs| - 1])
  }

  lemma SumAppend<T>(xs: seq<T>, x: T, weight: T -> nat)
    ensures Sum(xs + [x], weight) == Sum(xs, weight) + weight(x)
  {
    assert (xs + [x])[..|xs|] == xs;
  }

  lemma {:induction false} SumUpdate<T>(xs: seq<T>, i: nat, x: T, weight: T -> nat)
    requires i < |xs|
    ensures Sum(xs[i := x], weight) == Sum(xs, weight) - weight(xs[i]) + weight(x)
    decreases |xs|
  {
    var last := |xs| - 1;
    if i < last {
      assert xs[i := x][..last] == xs[..last][i := x];
      SumUpdate(xs[..last], i, x, weight);
    } else {
      assert xs[i := x][..last] == xs[..last];
    }
  }

  lemma {:induction false} SumZero<T>(xs: seq<T>, weight: T -> nat)
    ensures Sum(xs, weight) == 0 <==> forall i :: 0 <= i < |xs| ==> weight(xs[i]) == 0
    decreases |xs|
  {
    if xs != [] {
      var last := |xs| - 1;
      SumZero(xs[..last], weight);
      assert forall i :: 0 <= i < last ==> xs[..last][i] == xs[i];
    }
  }

  /** A weight of 1 for the members and 0 for the rest adds up to the number of members. */
  lemma {:induction false} SumCounts<T>(xs: seq<T>, weight: T -> nat, members: set<nat>)
    requires forall i <- members :: i < |xs|
    requires forall i :: 0 <= i < |xs| ==> weight(xs[i]) == if i in members then 1 else 0
    ensures Sum(xs, weight) == |members|
    decreases |xs|
  {
    if xs == [] {
      assert members == {};
    } else {
      var last := |xs| - 1;
      assert forall i :: 0 <= i < last ==> xs[..last][i] == xs[i];
      SumCounts(xs[..last], weight, members - {last});
      assert last in members ==> |members| == |members - {last}| + 1;
      assert last !in members ==> members - {last} == members;
    }
  }
}
