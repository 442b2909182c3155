/** The two rules engines show the same game after every history. */
module EnginesAgree {
  import opened Grid
  import opened Swap2
  import opened RefereeRules

  /** The two boards show the same game. After the end of a game the client
      has passed the turn on and the referee has not. */
  predicate Agrees(cpp: Board, py: Board) {
    && cpp.cells == py.cells && cpp.phase == py.phase && cpp.placed == py.placed
    && cpp.stoneA == py.stoneA && cpp.stoneB == py.stoneB && cpp.result == py.result
    && (cpp.result == Undetermined ==> cpp.seat == py.seat && cpp.toPlace == py.toPlace)
  }

  lemma {:induction false} FullBoard(n: nat, c: seq<Stone>, placed: int)
    requires |c| == n * n && placed + Count(c, Empty) == n * n
    ensures Empty !in c <==> placed == n * n
  {
    assert Empty in multiset(c) <==> Empty in c;
  }

  lemma {:induction false} StepAgrees(n: nat, cpp: Board, py: Board, a: int)
    requires Inv(n, cpp) && Shaped(n, py) && Agrees(cpp, py) && LegalAction(n, py, a)
    ensures LegalAction(n, cpp, a)
    ensures Agrees(ApplyCpp(n, cpp, a), ApplyPy(n, py, a))
  {
    hide FiveThrough, HasFive;
    if PlacementPhase(py.phase) {
      CountsAfterPlacing(n, cpp, a, cpp.toPlace);
      FullBoard(n, cpp.cells[a := cpp.toPlace], cpp.placed + 1);
    }
  }

  /** The client's reconstruction of a board from an action list. */
  ghost function Reconstruct(n: nat, b: Board, actions: seq<int>): (r: Outcome)
    requires Inv(n, b)
    ensures r.Accepted? ==> Inv(n, r.board)
    decreases |actions|
  {
    if actions == [] then Accepted(b)
    else if !LegalAction(n, b, actions[0]) then Rejected
    else
      ApplyKeepsInv(n, b, actions[0]);
      Reconstruct(n, ApplyCpp(n, b, actions[0]), actions[1..])
  }

  lemma {:induction false} ReplaysAgree(n: nat, cpp: Board, py: Board, actions: seq<int>)
    requires Inv(n, cpp) && Shaped(n, py) && Agrees(cpp, py)
    ensures Reconstruct(n, cpp, actions).Accepted? <==> ReplayPy(n, py, actions).Accepted?
    ensures ReplayPy(n, py, actions).Accepted? ==>
      Agrees(Reconstruct(n, cpp, actions).board, ReplayPy(n, py, actions).board)
    decreases |actions|
  {
    hide FiveThrough, HasFive;
    if actions != [] && LegalAction(n, py, actions[0]) {
      StepAgrees(n, cpp, py, actions[0]);
      ApplyKeepsInv(n, cpp, actions[0]);
      ReplaysAgree(n, ApplyCpp(n, cpp, actions[0]), ApplyPy(n, py, actions[0]), actions[1..]);
    }
  }

  /** From a fresh board the two engines accept the same histories, show the
      same game after each, and offer the same next actions. */
  lemma {:induction false} EnginesSimulateEachOther(n: nat, actions: seq<int>)
    requires n >= 5
    ensures var py, cpp := ReplayPy(n, Initial(n), actions), Reconstruct(n, Initial(n), actions);
      && (py.Accepted? <==> cpp.Accepted?)
      && (py.Accepted? ==> Agrees(cpp.board, py.board))
      && (py.Accepted? ==> forall a :: LegalAction(n, cpp.board, a) <==> LegalAction(n, py.board, a))
  {
    ReplaysAgree(n, Initial(n), Initial(n), actions);
  }
}
