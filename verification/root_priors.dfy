/** How the priors of a search root are changed before the search: the mask that
    keeps only moves found safe, and the root noise. */
module RootPriors {
  import opened Grid
  import opened Swap2
  import opened Opinions
  import opened Mcts
  import Policies

  datatype Analysis = Analysis(threatDetected: bool, safeActions: seq<int>)

  predicate Within(actions: seq<nat>, n: nat) {
    forall k :: 0 <= k < |actions| ==> actions[k] < n
  }

  predicate Ascending(actions: seq<nat>) {
    forall j, k :: 0 <= j < k < |actions| ==> actions[j] < actions[k]
  }

  function SumOver(pmf: seq<real>, actions: seq<nat>): real
    requires Within(actions, |pmf|)
  {
    if actions == [] then 0.0
    else SumOver(pmf, actions[..|actions| - 1]) + pmf[actions[|actions| - 1]]
  }

  lemma SumNext(pmf: seq<real>, actions: seq<nat>, i: nat)
    requires Within(actions, |pmf|) && i < |actions|
    ensures SumOver(pmf, actions[..i + 1]) == SumOver(pmf, actions[..i]) + pmf[actions[i]]
  {
    assert actions[..i + 1][..i] == actions[..i];
  }

  // ----- Real arithmetic ----------------------------------------------

  function Div(x: real, y: real): real
    requires y > 0.0
  {
    x / y
  }

  lemma DivTimes(x: real, y: real)
    requires y > 0.0
    ensures Div(x, y) * y == x
    ensures x >= 0.0 ==> Div(x, y) >= 0.0
    ensures Div(x, y) > 0.0 <==> x > 0.0
  {
    var q := Div(x, y);
    if q < 0.0 {
      Signs(-q, y);
    } else {
      Signs(q, y);
    }
  }

  lemma Signs(x: real, y: real)
    requires x >= 0.0 && y > 0.0
    ensures x * y >= 0.0 && (x > 0.0 <==> x * y > 0.0)
    ensures (-x) * y == -(x * y)
  {
  }

  lemma Distribute(x: real, y: real, z: real)
    ensures (x + y) * z == x * z + y * z
  {
  }

  lemma CancelFactor(x: real, y: real, z: real)
    requires z > 0.0 && x * z == y * z
    ensures x == y
  {
    assert (x - y) * z == 0.0;
  }

  lemma IsOne(x: real, z: real)
    requires z > 0.0 && Times(x, z) == z
    ensures x == 1.0
  {
    CancelFactor(x, 1.0, z);
  }

  function Times(x: real, y: real): real {
    x * y
  }

  lemma SameRatio(x: real, y: real, z: real)
    requires z > 0.0
    ensures Div(x, z) * y == Div(y, z) * x
  {
    hide Div;
    DivTimes(x, z);
    DivTimes(y, z);
    CrossTimes(Div(x, z), Div(y, z), z);
  }

  lemma CrossTimes(u: real, v: real, z: real)
    ensures u * (v * z) == v * (u * z)
  {
  }

  // ----- The defensive mask -------------------------------------------

  /** What a move contributes to the new priors before scaling: its old prior,
      or one each when no safe move has a positive prior. */
  function Weight(pmf: seq<real>, safe: seq<int>, a: nat, weighted: bool): (w: real)
    requires a < |pmf|
    ensures w >= 0.0
  {
    if a !in safe then 0.0
    else if !weighted then 1.0
    else if pmf[a] > 0.0 then pmf[a] else 0.0
  }

  function TotalWeight(pmf: seq<real>, safe: seq<int>, actions: seq<nat>, weighted: bool): (t: real)
    requires Within(actions, |pmf|)
    ensures t >= 0.0
  {
    if actions == [] then 0.0
    else
      TotalWeight(pmf, safe, actions[..|actions| - 1], weighted) + Weight(pmf, safe, actions[|actions| - 1], weighted)
  }

  lemma {:induction false} MaskedSum(pmf: seq<real>, masked: seq<real>, safe: seq<int>, actions: seq<nat>,
                                     weighted: bool, y: real)
    requires |masked| == |pmf| && Within(actions, |pmf|) && y > 0.0
    requires forall k :: 0 <= k < |actions| ==> masked[actions[k]] == Div(Weight(pmf, safe, actions[k], weighted), y)
    ensures Times(SumOver(masked, actions), y) == TotalWeight(pmf, safe, actions, weighted)
    decreases |actions|
  {
    hide Div, Weight;
    if actions != [] {
      var a, rest := actions[|actions| - 1], actions[..|actions| - 1];
      MaskedSum(pmf, masked, safe, rest, weighted, y);
      Distribute(SumOver(masked, rest), masked[a], y);
      DivTimes(Weight(pmf, safe, a, weighted), y);
    }
  }

  /** The priors are touched at all. */
  ghost predicate MaskApplies(board: Board, analysis: Analysis, pmf: seq<real>)
    requires |board.cells| == N * N
  {
    && analysis.threatDetected && |pmf| == NUM_ACTIONS
    && exists a: int :: SafeMove(board, analysis.safeActions, a)
  }

  predicate SafeMove(board: Board, safe: seq<int>, a: int)
    requires |board.cells| == N * N
  {
    a in safe && LegalAction(N, board, a)
  }

  /** Legal moves outside the safe set lose their prior, the safe ones keep their
      proportions, and illegal entries stay. */
  ghost predicate MaskedTo(board: Board, safe: seq<int>, pmf: seq<real>, masked: seq<real>, weighted: bool)
    requires |board.cells| == N * N
  {
    && |masked| == |pmf|
    && (forall a :: 0 <= a < |pmf| && !LegalAction(N, board, a) ==> masked[a] == pmf[a])
    && (forall a :: 0 <= a < |pmf| && LegalAction(N, board, a) ==> masked[a] >= 0.0)
    && (forall a :: 0 <= a < |pmf| && LegalAction(N, board, a) && a !in safe ==> masked[a] == 0.0)
    && forall a, b :: 0 <= a < |pmf| && 0 <= b < |pmf| && SafeMove(board, safe, a) && SafeMove(board, safe, b) ==>
         masked[a] * Weight(pmf, safe, b, weighted) == masked[b] * Weight(pmf, safe, a, weighted)
  }

  method ListActions(board: Board) returns (actions: seq<nat>)
    requires |board.cells| == N * N
    ensures forall a: int :: a in actions <==> LegalAction(N, board, a)
    ensures Ascending(actions) && Within(actions, NUM_ACTIONS)
  {
    hide LegalAction;
    actions := ListLegalActions(N, board);
    forall k | 0 <= k < |actions| ensures actions[k] < NUM_ACTIONS {
      assert actions[k] in actions;
      InBounds(board, actions[k]);
    }
  }

  ghost predicate SameMembers(s: seq<nat>, t: seq<nat>) {
    forall a: int :: a in s <==> a in t
  }

  lemma EmptyAlike(s: seq<nat>, t: seq<nat>)
    requires SameMembers(s, t)
    ensures s == [] <==> t == []
  {
    assert t != [] ==> t[0] in s;
    assert s != [] ==> s[0] in t;
  }

  lemma SameLast(s: seq<nat>, t: seq<nat>)
    requires Ascending(s) && Ascending(t) && SameMembers(s, t) && s != [] && t != []
    ensures s[|s| - 1] == t[|t| - 1] && SameMembers(s[..|s| - 1], t[..|t| - 1])
  {
    var m, k := |s| - 1, |t| - 1;
    assert s[m] in t && t[k] in s;
    assert s[m] == t[k];
    forall a: int ensures a in s[..m] <==> a in t[..k] {
      assert a in s[..m] <==> a in s && a != s[m];
      assert a in t[..k] <==> a in t && a != t[k];
    }
  }

  /** A set has one ascending list. */
  lemma {:induction false} AscendingOnce(s: seq<nat>, t: seq<nat>)
    requires Ascending(s) && Ascending(t) && SameMembers(s, t)
    ensures s == t
    decreases |s|
  {
    hide SameMembers;
    EmptyAlike(s, t);
    if s != [] {
      SameLast(s, t);
      AscendingOnce(s[..|s| - 1], t[..|t| - 1]);
      assert s == s[..|s| - 1] + [s[|s| - 1]] && t == t[..|t| - 1] + [t[|t| - 1]];
    }
  }

  /** Where the legal moves have a positive total, one of them is positive, so that
      the mask leaves selection a child of the root. */
  lemma {:induction false} PositiveTotalOffersMove(board: Board, pmf: seq<real>, actions: seq<nat>)
    requires |board.cells| == N * N && Within(actions, |pmf|) && SumOver(pmf, actions) > 0.0
    requires forall k :: 0 <= k < |actions| ==> LegalAction(N, board, actions[k])
    ensures OffersMove(board, pmf)
    decreases |actions|
  {
    hide LegalAction;
    var last := |actions| - 1;
    if pmf[actions[last]] <= 0.0 {
      PositiveTotalOffersMove(board, pmf, actions[..last]);
    } else {
      assert LegalAction(N, board, actions[last]);
    }
  }

  /** Afterwards all prior of the legal moves, one in total, lies on the moves
      that are safe, if the analysis names a legal one. */
  method MaskPolicyToSafeActions(board: Board, analysis: Analysis, pmf: seq<real>)
    returns (masked: seq<real>, ghost legal: seq<nat>)
    requires |board.cells| == N * N
    ensures !MaskApplies(board, analysis, pmf) ==> masked == pmf
    ensures MaskApplies(board, analysis, pmf) ==>
      && MaskedTo(board, analysis.safeActions, pmf, masked, TotalPositive(pmf, analysis.safeActions, legal))
      && (forall a: int :: a in legal <==> LegalAction(N, board, a))
      && Ascending(legal) && Within(legal, |masked|) && SumOver(masked, legal) == 1.0
    ensures MaskApplies(board, analysis, pmf) ==>
      OffersMove(board, masked) && SafeShares(board, analysis.safeActions, pmf, masked)
  {
    hide OffersMove, SafeShares;
    hide LegalAction, TotalWeight, SumOver, MaskedTo, Div, Ascending, Weight, Times;
    legal := [];
    if !analysis.threatDetected || analysis.safeActions == [] || |pmf| != NUM_ACTIONS {
      return pmf, legal;
    }
    var safe := analysis.safeActions;
    var actions := ListActions(board);
    legal := actions;
    var count, total := CountSafe(pmf, safe, actions);
    if count == 0 {
      assert forall a: int :: !SafeMove(board, safe, a);
      return pmf, legal;
    }
    masked := MaskAll(pmf, safe, actions, total, count);
    var y := if total > 0.0 then total else count as real;
    assert SafeMove(board, safe, SomeSafe(safe, actions));
    var weighted := total > 0.0;
    Proportions(board, safe, pmf, masked, actions, weighted, y);
    MaskedSum(pmf, masked, safe, actions, weighted, y);
    assert y == TotalWeight(pmf, safe, actions, weighted) by {
      if weighted {
        assert y == TotalWeight(pmf, safe, actions, true);
      } else {
        assert y == TotalWeight(pmf, safe, actions, false);
      }
    }
    IsOne(SumOver(masked, actions), y);
    forall k | 0 <= k < |actions| ensures LegalAction(N, board, actions[k]) {
      assert actions[k] in actions;
    }
    PositiveTotalOffersMove(board, masked, actions);
    SharesFromWeights(board, safe, pmf, masked, actions);
  }

  /** The safe moves share the prior in proportion to what they had, negative ones
      counting for nothing, and evenly if none of them had any. */
  ghost predicate SafeShares(board: Board, safe: seq<int>, pmf: seq<real>, masked: seq<real>)
    requires |board.cells| == N * N && |masked| == |pmf|
  {
    forall a, b :: 0 <= a < |pmf| && 0 <= b < |pmf| && SafeMove(board, safe, a) && SafeMove(board, safe, b) ==>
      if exists c :: 0 <= c < |pmf| && SafeMove(board, safe, c) && pmf[c] > 0.0 then
        masked[a] * (if pmf[b] > 0.0 then pmf[b] else 0.0) == masked[b] * (if pmf[a] > 0.0 then pmf[a] else 0.0)
      else masked[a] == masked[b]
  }

  lemma {:induction false} SharesFromWeights(board: Board, safe: seq<int>, pmf: seq<real>, masked: seq<real>,
                                             actions: seq<nat>)
    requires |board.cells| == N * N && Within(actions, |pmf|)
    requires MaskedTo(board, safe, pmf, masked, TotalPositive(pmf, safe, actions))
    requires forall a: int :: a in actions <==> LegalAction(N, board, a)
    ensures SafeShares(board, safe, pmf, masked)
  {
    hide LegalAction, TotalWeight, Weight;
    var some := exists c :: 0 <= c < |pmf| && SafeMove(board, safe, c) && pmf[c] > 0.0;
    PositiveSafeMove(board, safe, pmf, actions);
    forall a, b | 0 <= a < |pmf| && 0 <= b < |pmf| && SafeMove(board, safe, a) && SafeMove(board, safe, b)
      ensures if some then
          masked[a] * (if pmf[b] > 0.0 then pmf[b] else 0.0) == masked[b] * (if pmf[a] > 0.0 then pmf[a] else 0.0)
        else masked[a] == masked[b]
    {
      assert masked[a] * Weight(pmf, safe, b, some) == masked[b] * Weight(pmf, safe, a, some);
      WeightOfSafe(pmf, safe, a, some);
      WeightOfSafe(pmf, safe, b, some);
    }
  }

  lemma WeightOfSafe(pmf: seq<real>, safe: seq<int>, a: nat, weighted: bool)
    requires a < |pmf| && a in safe
    ensures Weight(pmf, safe, a, weighted) == if !weighted then 1.0 else if pmf[a] > 0.0 then pmf[a] else 0.0
  {
  }

  lemma {:induction false} PositiveSafeMove(board: Board, safe: seq<int>, pmf: seq<real>, actions: seq<nat>)
    requires |board.cells| == N * N && Within(actions, |pmf|)
    requires forall a: int :: a in actions <==> LegalAction(N, board, a)
    ensures TotalPositive(pmf, safe, actions) <==>
      exists c :: 0 <= c < |pmf| && SafeMove(board, safe, c) && pmf[c] > 0.0
  {
    hide LegalAction, TotalWeight;
    PositiveTotal(pmf, safe, actions);
    if c :| 0 <= c < |pmf| && SafeMove(board, safe, c) && pmf[c] > 0.0 {
      assert c in actions;
    }
    if k :| 0 <= k < |actions| && actions[k] in safe && pmf[actions[k]] > 0.0 {
      assert actions[k] in actions;
      assert SafeMove(board, safe, actions[k]);
    }
  }

  lemma {:induction false} PositiveTotal(pmf: seq<real>, safe: seq<int>, actions: seq<nat>)
    requires Within(actions, |pmf|)
    ensures TotalWeight(pmf, safe, actions, true) > 0.0 <==>
      exists k :: 0 <= k < |actions| && actions[k] in safe && pmf[actions[k]] > 0.0
    decreases |actions|
  {
    if actions != [] {
      var m := |actions| - 1;
      PositiveTotal(pmf, safe, actions[..m]);
      assert actions[m] in actions;
      if k :| 0 <= k < m && actions[k] in safe && pmf[actions[k]] > 0.0 {
        assert actions[..m][k] == actions[k];
      }
    }
  }

  /** Some safe move has a positive prior. */
  ghost predicate TotalPositive(pmf: seq<real>, safe: seq<int>, actions: seq<nat>) {
    Within(actions, |pmf|) && TotalWeight(pmf, safe, actions, true) > 0.0
  }

  ghost function SomeSafe(safe: seq<int>, actions: seq<nat>): (a: int)
    requires exists a :: a in safe && a in actions
    ensures a in safe && a in actions
  {
    var a :| a in safe && a in actions;
    a
  }

  method CountSafe(pmf: seq<real>, safe: seq<int>, actions: seq<nat>) returns (count: nat, total: real)
    requires Within(actions, |pmf|)
    ensures count as real == TotalWeight(pmf, safe, actions, false) && total == TotalWeight(pmf, safe, actions, true)
    ensures count > 0 <==> exists a :: a in safe && a in actions
  {
    count, total := 0, 0.0;
    for i := 0 to |actions|
      invariant count as real == TotalWeight(pmf, safe, actions[..i], false)
      invariant total == TotalWeight(pmf, safe, actions[..i], true)
      invariant count > 0 <==> exists a :: a in safe && a in actions[..i]
    {
      assert actions[..i + 1] == actions[..i] + [actions[i]];
      assert actions[..i + 1][..i] == actions[..i];
      if actions[i] in safe {
        count := count + 1;
        total := total + if pmf[actions[i]] > 0.0 then pmf[actions[i]] else 0.0;
      }
    }
    assert actions[..|actions|] == actions;
  }

  method MaskAll(pmf: seq<real>, safe: seq<int>, actions: seq<nat>, total: real, count: nat) returns (masked: seq<real>)
    requires count > 0 && Within(actions, |pmf|) && Ascending(actions)
    ensures |masked| == |pmf|
    ensures forall a :: 0 <= a < |pmf| && a !in actions ==> masked[a] == pmf[a]
    ensures forall k :: 0 <= k < |actions| ==>
      masked[actions[k]] ==
      Div(Weight(pmf, safe, actions[k], total > 0.0), if total > 0.0 then total else count as real)
  {
    hide Div, Weight;
    var y := if total > 0.0 then total else count as real;
    masked := pmf;
    for i := 0 to |actions|
      invariant |masked| == |pmf|
      invariant forall a :: 0 <= a < |pmf| && a !in actions[..i] ==> masked[a] == pmf[a]
      invariant forall k :: 0 <= k < i ==> masked[actions[k]] == Div(Weight(pmf, safe, actions[k], total > 0.0), y)
    {
      assert actions[..i + 1] == actions[..i] + [actions[i]];
      assert actions[i] !in actions[..i];
      var prior := MaskedPrior(masked, safe, actions[i], total, count);
      SameWeight(pmf, masked, safe, actions[i], total > 0.0);
      masked := masked[actions[i] := prior];
    }
    assert actions[..|actions|] == actions;
  }

  method MaskedPrior(pmf: seq<real>, safe: seq<int>, a: nat, total: real, count: nat) returns (prior: real)
    requires a < |pmf| && count > 0
    ensures prior == Div(Weight(pmf, safe, a, total > 0.0), if total > 0.0 then total else count as real)
  {
    if a !in safe {
      prior := 0.0;
    } else if total > 0.0 {
      prior := (if pmf[a] > 0.0 then pmf[a] else 0.0) / total;
    } else {
      prior := 1.0 / count as real;
    }
  }

  lemma SameWeight(pmf: seq<real>, masked: seq<real>, safe: seq<int>, a: nat, weighted: bool)
    requires a < |pmf| == |masked| && masked[a] == pmf[a]
    ensures Weight(masked, safe, a, weighted) == Weight(pmf, safe, a, weighted)
  {
  }

  lemma Proportions(board: Board, safe: seq<int>, pmf: seq<real>, masked: seq<real>, actions: seq<nat>, weighted: bool,
                    y: real)
    requires |board.cells| == N * N && |pmf| == |masked| && y > 0.0 && Within(actions, |pmf|)
    requires forall a: int :: a in actions <==> LegalAction(N, board, a)
    requires forall a :: 0 <= a < |pmf| && a !in actions ==> masked[a] == pmf[a]
    requires forall k :: 0 <= k < |actions| ==> masked[actions[k]] == Div(Weight(pmf, safe, actions[k], weighted), y)
    ensures MaskedTo(board, safe, pmf, masked, weighted)
  {
    hide LegalAction, Div;
    forall a | 0 <= a < |pmf| && LegalAction(N, board, a)
      ensures masked[a] == Div(Weight(pmf, safe, a, weighted), y) >= 0.0 && (a !in safe ==> masked[a] == 0.0)
    {
      assert a in actions;
      DivTimes(Weight(pmf, safe, a, weighted), y);
    }
    forall a, b | 0 <= a < |pmf| && 0 <= b < |pmf| && SafeMove(board, safe, a) && SafeMove(board, safe, b)
      ensures masked[a] * Weight(pmf, safe, b, weighted) == masked[b] * Weight(pmf, safe, a, weighted)
    {
      SameRatio(Weight(pmf, safe, a, weighted), Weight(pmf, safe, b, weighted), y);
    }
  }

  // ----- Root noise ---------------------------------------------------

  function Indices(n: nat): (s: seq<nat>)
    ensures |s| == n && forall k :: 0 <= k < n ==> s[k] == k
  {
    seq(n, k requires 0 <= k < n => k)
  }

  function Mixed(prior: real, epsilon: real, noise: real, sum: real): real
    requires sum > 0.0
  {
    (1.0 - epsilon) * prior + Div(epsilon * noise, sum)
  }

  /** The share epsilon of an entry is noise, in proportion to the total noise, and
      the rest is the prior. */
  predicate IsMixture(x: real, prior: real, epsilon: real, noise: real, total: real) {
    (x - (1.0 - epsilon) * prior) * total == epsilon * noise
  }

  lemma MixedIsMixture(prior: real, epsilon: real, noise: real, sum: real)
    requires sum > 0.0
    ensures IsMixture(Mixed(prior, epsilon, noise, sum), prior, epsilon, noise, sum)
  {
    hide Div;
    DivTimes(epsilon * noise, sum);
    assert Mixed(prior, epsilon, noise, sum) - (1.0 - epsilon) * prior == Div(epsilon * noise, sum);
  }

  /** The noise is mixed into the priors. */
  predicate NoiseApplies(alpha: real, epsilon: real, noise: seq<real>) {
    alpha > 0.0 && 0.0 < epsilon <= 1.0 && noise != [] && SumOver(noise, Indices(|noise|)) > 0.0
  }

  /** Mixes one noise value per legal action into the priors. Illegal entries
      stay and the total keeps its weight; but an action whose prior the mask
      had set to zero gets a positive one exactly when its noise is positive. */
  method AddDirichletNoise(board: Board, pmf: seq<real>, alpha: real, epsilon: real, actions: seq<nat>,
                           noise: seq<real>)
    returns (noisy: seq<real>)
    requires |board.cells| == N * N && |pmf| == NUM_ACTIONS && |noise| == |actions|
    requires Ascending(actions) && Within(actions, NUM_ACTIONS)
    requires forall a: int :: a in actions <==> LegalAction(N, board, a)
    requires forall k :: 0 <= k < |noise| ==> noise[k] >= 0.0
    ensures !NoiseApplies(alpha, epsilon, noise) ==> noisy == pmf
    ensures |noisy| == |pmf| && forall a :: 0 <= a < |pmf| && !LegalAction(N, board, a) ==> noisy[a] == pmf[a]
    ensures NoiseApplies(alpha, epsilon, noise) ==>
      && SumOver(noisy, actions) == (1.0 - epsilon) * SumOver(pmf, actions) + epsilon
      && forall k :: 0 <= k < |actions| && pmf[actions[k]] == 0.0 ==> (noisy[actions[k]] > 0.0 <==> noise[k] > 0.0)
    ensures NoiseApplies(alpha, epsilon, noise) ==> forall k :: 0 <= k < |actions| ==>
      IsMixture(noisy[actions[k]], pmf[actions[k]], epsilon, noise[k], SumOver(noise, Indices(|noise|)))
    ensures NoiseApplies(alpha, epsilon, noise) && (SumOver(pmf, actions) >= 0.0 || OffersMove(board, pmf)) ==>
      OffersMove(board, noisy)
  {
    hide OffersMove, IsMixture;
    hide LegalAction, SumOver, Ascending, Mixed, Times;
    if !(alpha > 0.0 && 0.0 <= epsilon <= 1.0) || epsilon == 0.0 || actions == [] {
      return pmf;
    }
    var sum := SumNoise(noise);
    if sum <= 0.0 {
      return pmf;
    }
    noisy := MixAll(pmf, actions, epsilon, noise, sum);
    NoisySum(pmf, noisy, actions, epsilon, noise, sum, |actions|);
    assert actions[..|actions|] == actions;
    TotalAfterNoise(SumOver(noisy, actions), SumOver(pmf, actions), epsilon, sum);
    forall k | 0 <= k < |actions| && pmf[actions[k]] == 0.0 ensures noisy[actions[k]] > 0.0 <==> noise[k] > 0.0 {
      PositiveShare(epsilon, noise[k], sum);
    }
    forall k | 0 <= k < |actions| ensures IsMixture(noisy[actions[k]], pmf[actions[k]], epsilon, noise[k], sum) {
      MixedIsMixture(pmf[actions[k]], epsilon, noise[k], sum);
    }
    if SumOver(pmf, actions) >= 0.0 || epsilon == 1.0 {
      Remainder(epsilon, SumOver(pmf, actions));
      forall k | 0 <= k < |actions| ensures LegalAction(N, board, actions[k]) {
        assert actions[k] in actions;
      }
      PositiveTotalOffersMove(board, noisy, actions);
    } else if OffersMove(board, pmf) {
      NoiseKeepsOffer(board, pmf, noisy, epsilon, actions, noise, sum);
    }
  }

  /** A positive prior stays positive unless the noise replaces it. */
  lemma {:induction false} NoiseKeepsOffer(board: SizedBoard, pmf: seq<real>, noisy: seq<real>, epsilon: real,
                                           actions: seq<nat>, noise: seq<real>, sum: real)
    requires sum > 0.0 && 0.0 < epsilon < 1.0 && |actions| == |noise| && |noisy| == |pmf| && Within(actions, |pmf|)
    requires forall a: int :: a in actions <==> LegalAction(N, board, a)
    requires forall k :: 0 <= k < |noise| ==> noise[k] >= 0.0
    requires forall k :: 0 <= k < |actions| ==> noisy[actions[k]] == Mixed(pmf[actions[k]], epsilon, noise[k], sum)
    requires OffersMove(board, pmf)
    ensures OffersMove(board, noisy)
  {
    hide LegalAction, Div;
    var a :| 0 <= a < |pmf| && LegalAction(N, board, a) && pmf[a] > 0.0;
    assert a in actions;
    var k :| 0 <= k < |actions| && actions[k] == a;
    Signs(1.0 - epsilon, pmf[a]);
    NoNegativeShare(epsilon, noise[k]);
    DivTimes(epsilon * noise[k], sum);
    assert noisy[a] > 0.0;
  }

  lemma Remainder(epsilon: real, y: real)
    requires 0.0 < epsilon <= 1.0 && (y >= 0.0 || epsilon == 1.0)
    ensures (1.0 - epsilon) * y + epsilon > 0.0
  {
    if epsilon == 1.0 {
      assert (1.0 - epsilon) * y == 0.0;
    } else {
      NoNegativeShare(1.0 - epsilon, y);
    }
  }

  lemma NoNegativeShare(x: real, y: real)
    requires x >= 0.0 && y >= 0.0
    ensures x * y >= 0.0
  {
  }

  method SumNoise(noise: seq<real>) returns (sum: real)
    ensures sum == SumOver(noise, Indices(|noise|))
  {
    sum := 0.0;
    for i := 0 to |noise|
      invariant sum == SumOver(noise, Indices(i))
    {
      assert Indices(i + 1)[..i] == Indices(i);
      sum := sum + noise[i];
    }
  }

  method MixAll(pmf: seq<real>, actions: seq<nat>, epsilon: real, noise: seq<real>, sum: real)
    returns (noisy: seq<real>)
    requires sum > 0.0 && |actions| == |noise| && Within(actions, |pmf|) && Ascending(actions)
    ensures |noisy| == |pmf|
    ensures forall k :: 0 <= k < |actions| ==> noisy[actions[k]] == Mixed(pmf[actions[k]], epsilon, noise[k], sum)
    ensures forall a :: 0 <= a < |pmf| && a !in actions ==> noisy[a] == pmf[a]
  {
    hide Mixed;
    noisy := pmf;
    for i := 0 to |actions|
      invariant |noisy| == |pmf|
      invariant forall k :: 0 <= k < i ==> noisy[actions[k]] == Mixed(pmf[actions[k]], epsilon, noise[k], sum)
      invariant forall a :: 0 <= a < |pmf| && a !in actions ==> noisy[a] == pmf[a]
    {
      noisy := noisy[actions[i] := Mixed(pmf[actions[i]], epsilon, noise[i], sum)];
    }
  }

  lemma MixedTimes(prior: real, epsilon: real, noise: real, sum: real)
    requires sum > 0.0
    ensures Times(Mixed(prior, epsilon, noise, sum), sum) ==
            Times(prior, (1.0 - epsilon) * sum) + Times(noise, epsilon)
  {
    hide Div;
    DivTimes(epsilon * noise, sum);
    Distribute((1.0 - epsilon) * prior, Div(epsilon * noise, sum), sum);
  }

  lemma {:induction false} NoisySum(pmf: seq<real>, noisy: seq<real>, actions: seq<nat>, epsilon: real,
                                    noise: seq<real>, sum: real, n: nat)
    requires sum > 0.0 && n <= |actions| == |noise| && |noisy| == |pmf| && Within(actions, |pmf|)
    requires forall k :: 0 <= k < |actions| ==> noisy[actions[k]] == Mixed(pmf[actions[k]], epsilon, noise[k], sum)
    ensures Times(SumOver(noisy, actions[..n]), sum) ==
            Times(SumOver(pmf, actions[..n]), (1.0 - epsilon) * sum) + Times(SumOver(noise, Indices(n)), epsilon)
    decreases n
  {
    if n == 0 {
      assert SumOver(noisy, actions[..0]) == SumOver(pmf, actions[..0]) == SumOver(noise, Indices(0)) == 0.0;
    } else {
      hide Mixed, SumOver, Times;
      NoisySum(pmf, noisy, actions, epsilon, noise, sum, n - 1);
      SumNext(pmf, actions, n - 1);
      SumNext(noisy, actions, n - 1);
      SumNext(noise, Indices(n), n - 1);
      assert Indices(n)[..n] == Indices(n) && Indices(n)[..n - 1] == Indices(n - 1);
      MixedTimes(pmf[actions[n - 1]], epsilon, noise[n - 1], sum);
      AddRows(SumOver(noisy, actions[..n - 1]), SumOver(pmf, actions[..n - 1]), SumOver(noise, Indices(n - 1)),
              noisy[actions[n - 1]], pmf[actions[n - 1]], noise[n - 1], sum, (1.0 - epsilon) * sum, epsilon);
    }
  }

  lemma AddRows(x: real, y: real, z: real, a: real, b: real, c: real, s: real, k: real, e: real)
    requires Times(x, s) == Times(y, k) + Times(z, e) && Times(a, s) == Times(b, k) + Times(c, e)
    ensures Times(x + a, s) == Times(y + b, k) + Times(z + c, e)
  {
    Distribute(x, a, s);
    Distribute(y, b, k);
    Distribute(z, c, e);
  }

  lemma TotalAfterNoise(x: real, y: real, epsilon: real, sum: real)
    requires sum > 0.0 && Times(x, sum) == Times(y, (1.0 - epsilon) * sum) + Times(sum, epsilon)
    ensures x == (1.0 - epsilon) * y + epsilon
  {
    Distribute((1.0 - epsilon) * y, epsilon, sum);
    CancelFactor(x, (1.0 - epsilon) * y + epsilon, sum);
  }

  lemma PositiveShare(epsilon: real, y: real, sum: real)
    requires 0.0 < epsilon && y >= 0.0 && sum > 0.0
    ensures Mixed(0.0, epsilon, y, sum) > 0.0 <==> y > 0.0
  {
    hide Div;
    DivTimes(epsilon * y, sum);
    Signs(y, epsilon);
  }

  // ----- Both before a search -------------------------------------------

  /** Mask and noise together, as they set up the root of a search. The mask bars
      children from selection as soon as a threat comes with some safe action;
      a child stays eligible if one of those is legal or a legal move has a
      positive prior, and without noise only then. */
  method SetUpRoot(board: SizedBoard, analysis: Analysis, pmf: seq<real>, alpha: real, epsilon: real, noise: seq<real>)
    returns (setup: RootSetup, ghost legal: seq<nat>)
    requires |pmf| == NUM_ACTIONS && forall k :: 0 <= k < |noise| ==> noise[k] >= 0.0
    ensures SetupOk(setup) && setup.atExpansion.Replaced? && setup.beforeSearch.Replaced?
    ensures setup.mask <==> analysis.threatDetected && analysis.safeActions != []
    ensures ListsLegal(board, legal) && Within(legal, NUM_ACTIONS) && |setup.atExpansion.pmf| == NUM_ACTIONS
    ensures if MaskApplies(board, analysis, pmf) then
        && SafeShares(board, analysis.safeActions, pmf, setup.atExpansion.pmf)
        && SumOver(setup.atExpansion.pmf, legal) == 1.0
        && forall a :: 0 <= a < NUM_ACTIONS && LegalAction(N, board, a) && a !in analysis.safeActions ==>
             setup.atExpansion.pmf[a] == 0.0
      else setup.atExpansion.pmf == pmf
    ensures if |noise| == |legal| && NoiseApplies(alpha, epsilon, noise) then
        forall k :: 0 <= k < |legal| ==>
          IsMixture(setup.beforeSearch.pmf[legal[k]], setup.atExpansion.pmf[legal[k]], epsilon, noise[k],
                    SumOver(noise, Indices(|noise|)))
      else setup.beforeSearch.pmf == setup.atExpansion.pmf
    ensures MaskApplies(board, analysis, pmf) || OffersMove(board, pmf) ==> OffersMove(board, setup.beforeSearch.pmf)
    ensures !(|noise| == |legal| && NoiseApplies(alpha, epsilon, noise)) ==>
      && (OffersMove(board, setup.beforeSearch.pmf) ==> MaskApplies(board, analysis, pmf) || OffersMove(board, pmf))
      && (MaskApplies(board, analysis, pmf) ==> forall a ::
            0 <= a < NUM_ACTIONS && LegalAction(N, board, a) && a !in analysis.safeActions ==>
            setup.beforeSearch.pmf[a] == 0.0)
  {
    hide OffersMove, LegalAction, NoiseApplies, SumOver, MaskApplies, SafeShares, MaskedTo, IsMixture;
    var masked, noisy;
    ghost var listed;
    masked, listed := MaskPolicyToSafeActions(board, analysis, pmf);
    var actions := ListActions(board);
    legal := actions;
    MaskKeepsLength(board, analysis, pmf, masked, listed);
    if MaskApplies(board, analysis, pmf) {
      AscendingOnce(listed, legal);
    }
    noisy := masked;
    if |noise| == |actions| {
      noisy := AddDirichletNoise(board, masked, alpha, epsilon, actions, noise);
    }
    setup := RootSetup(Replaced(masked), Replaced(noisy), analysis.threatDetected && analysis.safeActions != []);
  }

  lemma MaskKeepsLength(board: SizedBoard, analysis: Analysis, pmf: seq<real>, masked: seq<real>, legal: seq<nat>)
    requires !MaskApplies(board, analysis, pmf) ==> masked == pmf
    requires MaskApplies(board, analysis, pmf) ==>
      MaskedTo(board, analysis.safeActions, pmf, masked, TotalPositive(pmf, analysis.safeActions, legal))
    ensures |masked| == |pmf|
    ensures MaskApplies(board, analysis, pmf) ==>
      forall a :: 0 <= a < |pmf| && LegalAction(N, board, a) && a !in analysis.safeActions ==> masked[a] == 0.0
  {
    hide LegalAction, TotalPositive;
  }

  /** A search whose root is set up like this. The mask never leaves it without
      a child to select, and from an empty tree without noise it answers with
      weight on safe moves only. */
  method DefendedSearch(m: MCTS, board: SizedBoard, stop: Stop, analysis: Analysis, pmf: seq<real>,
                        alpha: real, epsilon: real, noise: seq<real>)
    returns (policy: seq<real>)
    requires m.Valid() && SoundOracle(m.oracle) && m.batchSize >= 1 && (stop.Simulations? ==> stop.n >= 1)
    requires Inv(N, board) && (m.root != null ==> m.root.board == board)
    requires |pmf| == NUM_ACTIONS && forall k :: 0 <= k < |noise| ==> noise[k] >= 0.0
    requires analysis.threatDetected && analysis.safeActions != [] ==>
      MaskApplies(board, analysis, pmf) || OffersMove(board, pmf)
    modifies m, m.nodes
    ensures m.Valid() && fresh(m.nodes - old(m.nodes)) && PolicyFor(board, policy)
    ensures
      && old(m.nodes) == {} && !NoiseApplies(alpha, epsilon, noise) && MaskApplies(board, analysis, pmf)
      && board.result == Undetermined && SolvedAction(m.oracle, board) < 0 && Budget(stop, m.batchSize) > 0
      ==> forall a :: 0 <= a < NUM_ACTIONS && a !in analysis.safeActions ==> policy[a] == 0.0
  {
    hide OffersMove, LegalAction, NoiseApplies, MaskApplies, Inv, MCTS.Valid, PolicyFor, SoundOracle, SolvedAction;
    hide MCTS.Walked, MCTS.BackedSince, MCTS.Searched, SolvedEvaluation, Policies.Sum, OpenEnds, MCTS.KeepsEntries;
    hide ListsLegal;
    ghost var start := m.AllBacked();
    var setup;
    ghost var legal, paths, values;
    setup, legal := SetUpRoot(board, analysis, pmf, alpha, epsilon, noise);
    ghost var empty := m.nodes == {};
    if m.root != null {
      m.RootIn();
    }
    policy, paths, values := m.Search(board, stop, setup);
    if
      && empty && !NoiseApplies(alpha, epsilon, noise) && MaskApplies(board, analysis, pmf)
      && board.result == Undetermined && SolvedAction(m.oracle, board) < 0 && Budget(stop, m.batchSize) > 0
    {
      MaskAppliesToThreats(board, analysis, pmf);
      UnsafeHasNoWeight(m, board, stop, policy, paths, start, analysis.safeActions);
    }
  }

  lemma MaskAppliesToThreats(board: SizedBoard, analysis: Analysis, pmf: seq<real>)
    requires MaskApplies(board, analysis, pmf)
    ensures analysis.threatDetected && analysis.safeActions != []
  {
  }

  /** Moves without a prior keep no weight in a masked search from an empty tree. */
  lemma UnsafeHasNoWeight(m: MCTS, board: SizedBoard, stop: Stop, policy: seq<real>, paths: seq<seq<MCTSNode>>,
                          start: map<MCTSNode, seq<real>>, safe: seq<int>)
    requires m.Valid() && m.root != null && m.root.board == board && m.Searched(stop, true, policy, paths, start)
    requires start == map[] && Budget(stop, m.batchSize) > 0 && board.result == Undetermined && PolicyFor(board, policy)
    requires |m.root.policy| == NUM_ACTIONS
    requires forall a :: 0 <= a < NUM_ACTIONS && LegalAction(N, board, a) && a !in safe ==> m.root.policy[a] == 0.0
    ensures forall a :: 0 <= a < NUM_ACTIONS && a !in safe ==> policy[a] == 0.0
  {
    hide LegalAction, Inv, Policies.Sum, Policies.Share, MCTS.Valid;
    m.ChildrenListLegal();
    var ids := m.root.ChildIds();
    assert !CutShort(stop) && m.root.VisitWeights() == m.root.ChildVisits();
    forall a | 0 <= a < NUM_ACTIONS && a !in safe ensures policy[a] == 0.0 {
      if LegalAction(N, board, a) {
        assert a in ids;
        var i :| 0 <= i < |ids| && ids[i] == a;
        Unvisited(m, stop, policy, paths, start, i);
        NoShare(Policies.Sum(m.root.ChildVisits()));
      }
    }
  }

  lemma Unvisited(m: MCTS, stop: Stop, policy: seq<real>, paths: seq<seq<MCTSNode>>, start: map<MCTSNode, seq<real>>,
                  i: nat)
    requires m.Valid() && m.root != null && m.Searched(stop, true, policy, paths, start) && start == map[]
    requires !CutShort(stop) && i < |m.root.children| && 0 <= m.root.children[i].actionId < |m.root.policy|
    requires m.root.policy[m.root.children[i].actionId] == 0.0
    ensures m.root.ChildVisits()[i] == 0.0
  {
    hide LegalAction, Inv, MCTS.CacheOk, MCTSNode.StatsOk, Policies.Sum, Policies.Spread, MCTSNode.ChildrenMatch;
    m.RootIn();
    var c := m.root.children[i];
    assert m.LocalOk(m.root) && c in m.root.children;
    m.RootVisits(c);
  }

  lemma NoShare(total: real)
    ensures Policies.Share(0.0, total) == 0.0
  {
  }
}
