/** Sums over sequences of natural numbers. */
module Sums {
  function Sum(xs: seq<nat>): nat {
    if xs == [] then 0 else Sum(xs[..|xs| - 1]) + xs[|xs| - 1]
  }

  function Map<T>(f: T -> nat, ts: seq<T>): (xs: seq<nat>)
    ensures |xs| == |ts|
    ensures forall i | 0 <= i < |ts| :: xs[i] == f(ts[i])
  {
    seq(|ts|, i requires 0 <= i < |ts| => f(ts[i]))
  }

  lemma SumSnoc(xs: seq<nat>, x: nat)
    ensures Sum(xs + [x]) == Sum(xs) + x
  {
    assert (xs + [x])[..|xs|] == xs;
  }

  lemma {:induction false} SumUpdate(xs: seq<nat>, i: nat, v: nat)
    requires i < |xs|
    ensures Sum(xs[i := v]) == Sum(xs) - xs[i] + v
    ensures xs[i] <= Sum(xs)
    decreases |xs|
  {
    var n := |xs| - 1;
    var ys := xs[i := v];
    if i < n {
      SumUpdate(xs[..n], i, v);
      assert ys[..n] == xs[..n][i := v];
    } else {
      assert ys[..n] == xs[..n];
    }
  }

  lemma {:induction false} SumAtMost(xs: seq<nat>, ys: seq<nat>)
    requires |xs| == |ys| && forall i | 0 <= i < |xs| :: ys[i] <= xs[i] + 1
    ensures Sum(ys) <= Sum(xs) + |xs|
    decreases |xs|
  {
    if xs == [] {
    } else {
      var n := |xs| - 1;
      SumAtMost(xs[..n], ys[..n]);
    }
  }

  lemma {:induction false} SumZero(xs: seq<nat>)
    requires Sum(xs) == 0
    ensures forall i | 0 <= i < |xs| :: xs[i] == 0
    decreases |xs|
  {
    if xs == [] {
    } else {
      SumZero(xs[..|xs| - 1]);
    }
  }

  lemma MapUpdate<T>(f: T -> nat, ts: seq<T>, i: nat, t: T)
    requires i < |ts|
    ensures Sum(Map(f, ts[i := t])) == Sum(Map(f, ts)) - f(ts[i]) + f(t)
    ensures f(ts[i]) <= Sum(Map(f, ts))
  {
    assert Map(f, ts[i := t]) == Map(f, ts)[i := f(t)];
    SumUpdate(Map(f, ts), i, f(t));
  }
}
