/** Policies over all action ids that share one unit of weight among some of them. */
module Policies {

  function Sum(values: seq<real>): real {
    if values == [] then 0.0 else Sum(values[..|values| - 1]) + values[|values| - 1]
  }

  function Share(weight: real, total: real): real {
    if total > 0.0 then weight / total else 0.0
  }

  ghost predicate Distinct(ids: seq<int>) {
    forall i, j :: 0 <= i < j < |ids| ==> ids[i] != ids[j]
  }

  ghost predicate Among(ids: seq<int>, n: nat) {
    forall i :: 0 <= i < |ids| ==> 0 <= ids[i] < n
  }

  /** Each listed action has its share of the total weight, all others nothing. */
  ghost predicate Spread(n: nat, policy: seq<real>, ids: seq<int>, weights: seq<real>) {
    && |policy| == n && |ids| == |weights| && Among(ids, n)
    && (forall i :: 0 <= i < |ids| ==> policy[ids[i]] == Share(weights[i], Sum(weights)))
    && forall a :: 0 <= a < n && a !in ids ==> policy[a] == 0.0
  }

  function Ones(n: nat): (s: seq<real>)
    ensures |s| == n && forall i :: 0 <= i < n ==> s[i] == 1.0
  {
    seq(n, _ => 1.0)
  }

  lemma {:induction false} SumOfOnes(n: nat)
    ensures Sum(Ones(n)) == n as real
  {
    if n > 0 {
      SumOfOnes(n - 1);
      assert Ones(n)[..n - 1] == Ones(n - 1);
    }
  }

  lemma SumNext(values: seq<real>, i: nat)
    requires i < |values|
    ensures Sum(values[..i + 1]) == Sum(values[..i]) + values[i]
  {
    assert values[..i + 1][..i] == values[..i];
  }

  lemma {:induction false} SumConcat(values: seq<real>, more: seq<real>)
    ensures Sum(values + more) == Sum(values) + Sum(more)
    decreases |more|
  {
    if more == [] {
      assert values + more == values;
    } else {
      assert (values + more)[..|values| + |more| - 1] == values + more[..|more| - 1];
      SumConcat(values, more[..|more| - 1]);
    }
  }

  /** Sums of nonnegative weights are at least each of them. */
  lemma {:induction false} SumAtLeast(values: seq<real>, k: nat)
    requires forall i :: 0 <= i < |values| ==> values[i] >= 0.0
    ensures Sum(values) >= 0.0 && (k < |values| ==> Sum(values) >= values[k])
    decreases |values|
  {
    if values != [] {
      SumAtLeast(values[..|values| - 1], k);
    }
  }

  lemma {:induction false} SumUpdate(values: seq<real>, a: nat, x: real)
    requires a < |values|
    ensures Sum(values[a := x]) == Sum(values) - values[a] + x
    decreases |values|
  {
    var m := |values| - 1;
    if a == m {
      assert values[a := x][..m] == values[..m];
    } else {
      SumUpdate(values[..m], a, x);
      assert values[a := x][..m] == values[..m][a := x];
    }
  }

  lemma {:induction false} SumOfZeros(values: seq<real>)
    requires forall i :: 0 <= i < |values| ==> values[i] == 0.0
    ensures Sum(values) == 0.0
    decreases |values|
  {
    if values != [] {
      SumOfZeros(values[..|values| - 1]);
    }
  }

  /** A policy that is zero outside some distinct actions has their total. */
  lemma {:induction false} SumOfEntries(policy: seq<real>, ids: seq<int>, entries: seq<real>)
    requires Among(ids, |policy|) && Distinct(ids) && |entries| == |ids|
    requires forall i :: 0 <= i < |ids| ==> entries[i] == policy[ids[i]]
    requires forall a :: 0 <= a < |policy| && a !in ids ==> policy[a] == 0.0
    ensures Sum(policy) == Sum(entries)
    decreases |ids|
  {
    if ids == [] {
      SumOfZeros(policy);
    } else {
      var m := |ids| - 1;
      var rest := policy[ids[m] := 0.0];
      forall a | 0 <= a < |rest| && a !in ids[..m] ensures rest[a] == 0.0 {
        if a != ids[m] {
          assert a !in ids;
        }
      }
      SumOfEntries(rest, ids[..m], entries[..m]);
      SumUpdate(policy, ids[m], 0.0);
    }
  }

  lemma {:induction false} SumOfShares(shares: seq<real>, weights: seq<real>, total: real)
    requires |shares| == |weights| && total > 0.0
    requires forall i :: 0 <= i < |weights| ==> shares[i] == Share(weights[i], total)
    ensures Sum(shares) == Share(Sum(weights), total)
    decreases |shares|
  {
    if shares == [] {
      ShareOfNothing(total);
    } else {
      var m := |shares| - 1;
      SumOfShares(shares[..m], weights[..m], total);
      ShareOfSum(Sum(weights[..m]), weights[m], total);
    }
  }

  lemma ShareOfNothing(total: real)
    ensures Share(0.0, total) == 0.0
  {
  }

  lemma ShareOfSum(x: real, y: real, total: real)
    requires total > 0.0
    ensures Share(x + y, total) == Share(x, total) + Share(y, total)
  {
  }

  lemma ShareOfAll(total: real)
    requires total > 0.0
    ensures Share(total, total) == 1.0
  {
  }

  lemma ShareSign(weight: real, total: real)
    requires weight >= 0.0
    ensures Share(weight, total) >= 0.0
  {
    if total > 0.0 {
      var q := weight / total;
      assert q * total == weight;
      if q < 0.0 {
        assert (-q) * total > 0.0;
      }
    }
  }

  /** All the weight is given out. */
  lemma {:induction false} SpreadSumsToOne(n: nat, policy: seq<real>, ids: seq<int>, weights: seq<real>)
    requires Spread(n, policy, ids, weights) && Distinct(ids) && Sum(weights) > 0.0
    ensures Sum(policy) == 1.0
  {
    hide Sum, Share;
    var entries := seq(|ids|, i requires 0 <= i < |ids| => policy[ids[i]]);
    SumOfEntries(policy, ids, entries);
    SumOfShares(entries, weights, Sum(weights));
    ShareOfAll(Sum(weights));
  }

  /** Writes the shares entry by entry. */
  method Fill(n: nat, ids: seq<int>, weights: seq<real>, total: real) returns (policy: seq<real>)
    requires |ids| == |weights| && Among(ids, n) && Distinct(ids)
    requires total == Sum(weights) && (ids != [] ==> total > 0.0)
    ensures Spread(n, policy, ids, weights)
  {
    hide Sum;
    policy := seq(n, _ => 0.0);
    for i := 0 to |ids|
      invariant |policy| == n
      invariant forall k :: 0 <= k < i ==> policy[ids[k]] == Share(weights[k], total)
      invariant forall a :: 0 <= a < n && a !in ids[..i] ==> policy[a] == 0.0
    {
      assert ids[..i + 1] == ids[..i] + [ids[i]];
      policy := policy[ids[i] := weights[i] / total];
    }
    assert ids[..|ids|] == ids;
  }
}
