/** The client's side of a match: rebuilding the board from the server's move
    list, keeping the search tree in step with it, and picking a legal move. */
module MatchClient {
  import opened Grid
  import opened Swap2
  import opened EngineBoard
  import opened EnginesAgree
  import opened Mcts
  import opened Opinions
  import opened Policies

  /** The legal action of greatest policy value, the smallest among equals. */
  ghost predicate Best(b: SizedBoard, policy: seq<real>, best: int) {
    && 0 <= best < |policy| && LegalAction(N, b, best)
    && forall a :: 0 <= a < |policy| && LegalAction(N, b, a) ==>
         policy[a] < policy[best] || (policy[a] == policy[best] && best <= a)
  }

  /** An action of greatest weight, the smallest among equals. */
  ghost predicate MostVisited(ids: seq<int>, weights: seq<real>, best: int)
    requires |ids| == |weights|
  {
    exists k :: 0 <= k < |ids| && ids[k] == best &&
      forall i :: 0 <= i < |ids| ==> weights[i] < weights[k] || (weights[i] == weights[k] && best <= ids[i])
  }

  /** The node's visits are the weight its action had in the answer. */
  ghost predicate KeptVisits(node: MCTSNode, answer: Answer)
    reads node`visits
  {
    && |answer.weights| == |answer.ids|
    && exists k ::
         0 <= k < |answer.ids| && node.actionId == answer.ids[k] && node.visits as real == answer.weights[k]
  }

  /** The best action of a policy made of shares is a most visited one. */
  lemma {:induction false} BestIsMostVisited(o: Oracle, b: SizedBoard, answer: Answer, best: int)
    requires Answers(o, b, answer) && SolvedAction(o, b) < 0 && Sum(answer.weights) > 0.0
    requires Best(b, answer.policy, best)
    ensures |answer.ids| == |answer.weights| && MostVisited(answer.ids, answer.weights, best)
  {
    hide SolvedAction, LegalAction, Sum, Share;
    var k :| 0 <= k < |answer.ids| && answer.ids[k] == best;
    var total := Sum(answer.weights);
    forall i | 0 <= i < |answer.ids|
      ensures answer.weights[i] < answer.weights[k] || (answer.weights[i] == answer.weights[k] && best <= answer.ids[i])
    {
      assert answer.ids[i] in answer.ids;
      SharesCompare(answer.weights[i], answer.weights[k], total);
    }
  }

  lemma SharesCompare(v: real, w: real, total: real)
    requires total > 0.0
    ensures Share(v, total) < Share(w, total) <==> v < w
    ensures Share(v, total) == Share(w, total) <==> v == w
  {
    var p, q := v / total, w / total;
    assert p * total == v && q * total == w;
  }

  /** The first legal action of greatest policy value above -1; -1 if none. */
  method BestLegalAction(board: SizedBoard, policy: seq<real>) returns (best: int)
    ensures best == -1 <==> forall a :: 0 <= a < |policy| && LegalAction(N, board, a) ==> policy[a] <= -1.0
    ensures best != -1 ==> 0 <= best < |policy| && LegalAction(N, board, best) && policy[best] > -1.0
    ensures best != -1 ==> Best(board, policy, best)
  {
    hide LegalAction;
    var legal := ListLegalActions(N, board);
    best := -1;
    var bestValue := -1.0;
    for i := 0 to |legal|
      invariant best == -1 ==> bestValue == -1.0
      invariant best != -1 ==> 0 <= best < |policy| && best in legal[..i] && policy[best] == bestValue > -1.0
      invariant forall k :: 0 <= k < i && legal[k] < |policy| ==>
        policy[legal[k]] < bestValue || (policy[legal[k]] == bestValue && best <= legal[k])
    {
      var a := legal[i];
      if a < |policy| && policy[a] > bestValue {
        best, bestValue := a, policy[a];
      }
    }
    assert legal[..|legal|] == legal;
    forall a | 0 <= a < |policy| && LegalAction(N, board, a)
      ensures policy[a] < bestValue || (policy[a] == bestValue && best <= a)
    {
      assert a in legal;
    }
  }

  /** Rebuilds the board on a fresh engine board, or gives up at the first
      action that is illegal when its turn comes. */
  method ReconstructBoard(keys: seq<LaneKeys>, actions: seq<int>) returns (ok: bool, board: Board15)
    ensures fresh(board) && fresh(board.cells) && board.Valid()
    ensures ok <==> Reconstruct(N, Initial(N), actions).Accepted?
    ensures ok ==> board.View() == Reconstruct(N, Initial(N), actions).board
  {
    hide FiveThrough, ApplyCpp, LegalAction, Inv;
    board := new Board15(keys);
    for i := 0 to |actions|
      invariant fresh(board) && fresh(board.cells) && board.Valid() && Inv(N, board.View())
      invariant Reconstruct(N, Initial(N), actions) == Reconstruct(N, board.View(), actions[i..])
    {
      assert actions[i..][0] == actions[i] && actions[i..][1..] == actions[i + 1..];
      var legal := board.GetLegalActions();
      if actions[i] !in legal {
        return false, board;
      }
      ApplyKeepsInv(N, board.View(), actions[i]);
      board.Apply(actions[i]);
    }
    return true, board;
  }

  /** Acceptance of a list is legality of the run. */
  lemma {:induction false} AcceptedIsLegalRun(b: Board, actions: seq<int>)
    requires Inv(N, b)
    ensures Reconstruct(N, b, actions).Accepted? <==> LegalRun(N, b, actions)
    ensures LegalRun(N, b, actions) ==> Reconstruct(N, b, actions).board == ApplyAll(N, b, actions)
    decreases |actions|
  {
    hide FiveThrough, ApplyCpp, LegalAction, HasFive;
    InvShaped(N, b);
    if actions != [] && LegalAction(N, b, actions[0]) {
      ApplyKeepsInv(N, b, actions[0]);
      AcceptedIsLegalRun(ApplyCpp(N, b, actions[0]), actions[1..]);
    }
  }

  /** One more action at the end of a legal run. */
  lemma {:induction false} RunAppends(b: Board, actions: seq<int>, a: int)
    requires Inv(N, b) && LegalRun(N, b, actions) && LegalAction(N, ApplyAll(N, b, actions), a)
    ensures LegalRun(N, b, actions + [a])
    ensures Shaped(N, ApplyAll(N, b, actions))
    ensures ApplyAll(N, b, actions + [a]) == ApplyCpp(N, ApplyAll(N, b, actions), a)
    decreases |actions|
  {
    hide FiveThrough, ApplyCpp, LegalAction, HasFive;
    InvShaped(N, ApplyAll(N, b, actions));
    if actions == [] {
      ApplyKeepsInv(N, b, a);
      assert (actions + [a])[1..] == [];
    } else {
      ApplyKeepsInv(N, b, actions[0]);
      RunAppends(ApplyCpp(N, b, actions[0]), actions[1..], a);
      assert (actions + [a])[1..] == actions[1..] + [a];
    }
  }

  lemma {:induction false} RunPrefix(actions: seq<int>, i: nat)
    requires LegalRun(N, Initial(N), actions) && i < |actions|
    ensures LegalRun(N, Initial(N), actions[..i]) && LegalRun(N, Initial(N), actions[..i + 1])
    ensures var b := ApplyAll(N, Initial(N), actions[..i]);
      && Inv(N, b) && Shaped(N, b) && LegalAction(N, b, actions[i])
      && ApplyAll(N, Initial(N), actions[..i + 1]) == ApplyCpp(N, b, actions[i])
  {
    hide FiveThrough, ApplyCpp, LegalAction, Inv;
    SplitRun(N, Initial(N), actions, i);
    assert actions[i..][0] == actions[i] && actions[..i + 1] == actions[..i] + [actions[i]];
    InvShaped(N, ApplyAll(N, Initial(N), actions[..i]));
    RunAppends(Initial(N), actions[..i], actions[i]);
  }

  datatype Turn = Play(action: int) | BadHistory | WrongSeat | NoMove

  class MatchGame {
    const mcts: MCTS
    const seat: Seat
    const keys: seq<LaneKeys>
    var syncedActions: seq<int>

    constructor (mcts: MCTS, seat: Seat, keys: seq<LaneKeys>)
      requires mcts.Valid() && mcts.root == null && SoundOracle(mcts.oracle) && mcts.batchSize >= 1
      ensures InStep() && syncedActions == [] && this.mcts == mcts && this.seat == seat
    {
      this.mcts, this.seat, this.keys, syncedActions := mcts, seat, keys, [];
    }

    /** The tree, if there is one, belongs to the position after the moves seen
        so far, and all nodes below agree with their boards. */
    ghost predicate InStep()
      reads this, mcts, mcts.nodes
    {
      && mcts.Valid() && SoundOracle(mcts.oracle) && mcts.batchSize >= 1
      && LegalRun(N, Initial(N), syncedActions)
      && (mcts.root != null ==> mcts.root.board == ApplyAll(N, Initial(N), syncedActions))
    }

    /** The part of the tree that a list of moves leaves in use: what is below the
        moves not yet seen, or nothing if the list does not go on from those seen. */
    ghost function Reused(actions: seq<int>): MCTSNode?
      reads this, mcts, mcts.nodes
    {
      if syncedActions <= actions then Reach(mcts.Kids(), mcts.root, actions[|syncedActions|..]) else null
    }

    /** Answers a turn: re-synchronises the tree with the server's move list by
        common prefix, searches, and plays the best legal action of the policy
        that the search answers with. After simulations on an unsolved board
        that is a most visited action, whose subtree is kept. */
    method HandleTurn(actions: seq<int>, current: Seat, stop: Stop, setup: RootSetup)
      returns (turn: Turn, ghost answer: Answer)
      requires InStep() && (stop.Simulations? ==> stop.n >= 1) && SetupOk(setup)
      requires setup.mask && LegalRun(N, Initial(N), actions) ==>
        && setup.beforeSearch.Replaced? && |ApplyAll(N, Initial(N), actions).cells| == N * N
        && OffersMove(ApplyAll(N, Initial(N), actions), setup.beforeSearch.pmf)
      modifies this, mcts, mcts.nodes
      ensures turn == BadHistory <==> !LegalRun(N, Initial(N), actions)
      ensures turn == WrongSeat <==> LegalRun(N, Initial(N), actions) && current != seat
      ensures turn == NoMove <==>
        LegalRun(N, Initial(N), actions) && current == seat && ApplyAll(N, Initial(N), actions).result != Undetermined
      ensures turn.Play? ==>
        && InStep() && LegalRun(N, Initial(N), actions) && syncedActions == actions + [turn.action]
        && |ApplyAll(N, Initial(N), actions).cells| == N * N
        && Best(ApplyAll(N, Initial(N), actions), answer.policy, turn.action)
        && (stop != Deadline(0) ==> Answers(mcts.oracle, ApplyAll(N, Initial(N), actions), answer))
        && (SolvedAction(mcts.oracle, ApplyAll(N, Initial(N), actions)) < 0 && Budget(stop, mcts.batchSize) > 0 ==>
              && MostVisited(answer.ids, answer.weights, turn.action)
              && mcts.root != null && KeptVisits(mcts.root, answer)
              && Sum(answer.weights) == old(MCTS.VisitsBelow(Reused(actions))) + Budget(stop, mcts.batchSize) as real)
      ensures turn == BadHistory || turn == WrongSeat ==> InStep() && syncedActions == old(syncedActions)
      ensures fresh(mcts.nodes - old(mcts.nodes))
    {
      hide FiveThrough, ApplyCpp, LegalAction, Inv, LegalRun, ApplyAll, MCTS.Valid, PolicyFor, SoundOracle;
      hide OffersMove, MCTS.Walked, MCTS.BackedSince, MCTS.Searched, Initial, Answers, Best, SolvedAction;
      hide MostVisited, KeptVisits, OpenEnds, Sum, MCTS.KeepsEntries, MCTS.VisitsBelow;
      hide Reused, Reach, Budget, Reconstruct;
      ghost var known := MCTS.VisitsBelow(Reused(actions));
      var ok, board := ReconstructBoard(keys, actions);
      AcceptedIsLegalRun(Initial(N), actions);
      answer := Answer([], [], []);
      if !ok {
        return BadHistory, answer;
      }
      if current != seat {
        return WrongSeat, answer;
      }
      var view := board.View();
      assert MCTS.VisitsBelow(Reused(actions)) == known;
      Synchronise(actions);
      InvShaped(N, view);
      var action;
      action, answer := Decide(view, stop, setup);
      if action < 0 {
        return NoMove, answer;
      }
      assert SolvedAction(mcts.oracle, view) < 0 && Budget(stop, mcts.batchSize) > 0 ==>
          Sum(answer.weights) == known + Budget(stop, mcts.batchSize) as real;
      RunAppends(Initial(N), actions, action);
      syncedActions := actions + [action];
      return Play(action), answer;
    }

    /** Searches a position and moves on to the best legal action. */
    method Decide(board: SizedBoard, stop: Stop, setup: RootSetup) returns (action: int, ghost answer: Answer)
      requires mcts.Valid() && SoundOracle(mcts.oracle) && mcts.batchSize >= 1 && Inv(N, board)
      requires (mcts.root != null ==> mcts.root.board == board) && (stop.Simulations? ==> stop.n >= 1) && SetupOk(setup)
      requires setup.mask ==> setup.beforeSearch.Replaced? && OffersMove(board, setup.beforeSearch.pmf)
      modifies mcts, mcts.nodes
      ensures mcts.Valid() && fresh(mcts.nodes - old(mcts.nodes)) && (action < 0 <==> board.result != Undetermined)
      ensures action >= 0 ==>
        && Best(board, answer.policy, action) && LegalAction(N, board, action) && Shaped(N, board)
        && (mcts.root != null ==> mcts.root.board == ApplyCpp(N, board, action))
      ensures stop != Deadline(0) ==> Answers(mcts.oracle, board, answer)
      ensures action >= 0 && SolvedAction(mcts.oracle, board) < 0 && Budget(stop, mcts.batchSize) > 0 ==>
        && MostVisited(answer.ids, answer.weights, action) && mcts.root != null && KeptVisits(mcts.root, answer)
        && Sum(answer.weights) == old(MCTS.VisitsBelow(mcts.root)) + Budget(stop, mcts.batchSize) as real
    {
      hide FiveThrough, ApplyCpp, LegalAction, Inv, MCTS.Valid, PolicyFor, SoundOracle, Answers;
      hide OffersMove, MCTS.Walked, MCTS.BackedSince, MCTS.Searched, SolvedAction, SolvedEvaluation, Best;
      hide MostVisited, KeptVisits, OpenEnds, Sum, MCTS.KeepsEntries;
      InvShaped(N, board);
      ghost var start := mcts.AllBacked();
      ghost var paths, values;
      var policy;
      policy, paths, values := mcts.Search(board, stop, setup);
      answer := mcts.AnswerOf(policy, stop);
      if stop != Deadline(0) {
        mcts.SearchAnswers(board, stop, setup.mask, policy, paths, start);
      }
      action := BestLegalAction(board, policy);
      SomeMove(board, policy);
      if action >= 0 {
        ghost var counted := SolvedAction(mcts.oracle, board) < 0 && Budget(stop, mcts.batchSize) > 0;
        if counted {
          BestIsMostVisited(mcts.oracle, board, answer, action);
        }
        MoveOn(board, action, counted, answer);
      }
    }

    /** Keeps the subtree of the action just chosen. */
    method MoveOn(board: SizedBoard, action: int, ghost counted: bool, ghost answer: Answer)
      requires mcts.Valid() && Inv(N, board) && LegalAction(N, board, action)
      requires mcts.root != null ==> mcts.root.board == board
      requires counted ==> mcts.root != null && mcts.root.isExpanded
      requires counted ==> answer.ids == mcts.root.ChildIds() && answer.weights == mcts.root.ChildVisits()
      modifies mcts, mcts.nodes`children
      ensures mcts.Valid() && mcts.nodes <= old(mcts.nodes) && Shaped(N, board)
      ensures mcts.root != null ==> mcts.root.board == ApplyCpp(N, board, action)
      ensures counted ==> mcts.root != null && KeptVisits(mcts.root, answer)
    {
      hide ApplyCpp, LegalAction, Inv, MCTS.Valid;
      InvShaped(N, board);
      ghost var kids := if mcts.root == null then [] else mcts.root.children;
      mcts.SelectAction(action, board);
      if counted {
        ghost var i :| 0 <= i < |kids| && kids[i] == mcts.root;
        assert answer.ids[i] == mcts.root.actionId && answer.weights[i] == mcts.root.visits as real;
      }
    }

    lemma SomeMove(b: Board, policy: seq<real>)
      requires Inv(N, b) && PolicyFor(b, policy)
      ensures b.result == Undetermined <==> exists a :: 0 <= a < |policy| && LegalAction(N, b, a) && policy[a] > -1.0
    {
      hide HasFive;
      if b.result == Undetermined {
        LiveBoardHasMove(N, b);
        var a :| LegalAction(N, b, a);
        InBounds(b, a);
        assert policy[a] >= 0.0;
      }
    }

    /** Follows the moves not yet seen, or drops the tree if the server's list
        does not continue the moves seen so far. */
    method Synchronise(actions: seq<int>)
      requires InStep() && LegalRun(N, Initial(N), actions)
      modifies this, mcts, mcts.nodes`children
      ensures mcts.Valid() && mcts.nodes <= old(mcts.nodes)
      ensures mcts.root != null ==> mcts.root.board == ApplyAll(N, Initial(N), actions)
      ensures mcts.root == old(Reused(actions)) && MCTS.VisitsBelow(mcts.root) == old(MCTS.VisitsBelow(Reused(actions)))
      ensures forall nd :: nd in mcts.nodes ==> nd.children == old(nd.children)
      ensures if mcts.root == null && old(mcts.root != null || !(syncedActions <= actions))
              then mcts.cache == map[] && mcts.looked == []
              else mcts.cache == old(mcts.cache) && mcts.looked == old(mcts.looked)
    {
      hide FiveThrough, ApplyCpp, LegalAction, Inv, LegalRun, ApplyAll, MCTS.Valid, SoundOracle;
      ghost var kids, top, known := mcts.Kids(), mcts.root, syncedActions;
      if !(syncedActions <= actions) {
        mcts.Reset();
        syncedActions := [];
      }
      assert syncedActions == actions[..|syncedActions|];
      SplitRun(N, Initial(N), actions, |syncedActions|);
      for i := |syncedActions| to |actions|
        invariant mcts.Valid() && mcts.nodes <= old(mcts.nodes) && LegalRun(N, Initial(N), actions[..i])
        invariant mcts.root != null ==> mcts.root.board == ApplyAll(N, Initial(N), actions[..i])
        invariant mcts.root == if known <= actions then Reach(kids, top, actions[|known|..i]) else null
        invariant forall nd :: nd in mcts.nodes ==> nd.children == kids[nd]
        invariant if mcts.root == null && (top != null || !(known <= actions))
                  then mcts.cache == map[] && mcts.looked == []
                  else mcts.cache == old(mcts.cache) && mcts.looked == old(mcts.looked)
      {
        RunPrefix(actions, i);
        if mcts.root != null {
          mcts.RootIn();
        }
        if known <= actions {
          ReachNext(kids, top, actions[|known|..i], actions[i]);
          assert actions[|known|..i + 1] == actions[|known|..i] + [actions[i]];
        }
        mcts.SelectAction(actions[i], ApplyAll(N, Initial(N), actions[..i]));
      }
      assert known <= actions ==> actions[|known|..|actions|] == actions[|known|..];
      assert actions[..|actions|] == actions;
      if mcts.root != null {
        mcts.RootIn();
        assert mcts.root.ChildVisits() == old(MCTSNode.VisitsOf(Reused(actions).children));
      }
    }
  }
}
