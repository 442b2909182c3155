/** The referee's rules engine: its own form of the Swap2 rules, and the
    mutable board that keeps its move history. */
module RefereeRules {
  import opened Grid
  import opened Swap2

  /** What the terminal check of the referee concludes after a placement. */
  ghost function TerminalCheck(n: nat, b: Board, a: nat): Result
    requires |b.cells| == n * n && a < n * n && b.toPlace != Empty
  {
    var c := b.cells[a := b.toPlace];
    if FiveThrough(n, c, PointOf(n, a), b.toPlace) then
      if b.stoneA == b.toPlace then PlayerAWin else if b.stoneB == b.toPlace then PlayerBWin else Draw
    else if Empty !in c then Draw
    else Undetermined
  }

  ghost function PlacePy(n: nat, b: Board, a: nat): Board
    requires Shaped(n, b) && PlacementPhase(b.phase) && a < n * n
  {
    var b' := b.(cells := b.cells[a := b.toPlace], placed := b.placed + 1);
    match b.phase
    case PlaceInitialThree =>
      if b'.placed == 3 then b'.(phase := Swap2Decision, seat := B, toPlace := Empty)
      else b'.(toPlace := if b'.placed == 1 then White else Black)
    case Swap2PlaceTwo =>
      if b'.placed == 4 then b'.(toPlace := Black)
      else if b'.placed == 5 then b'.(phase := ChooseColor, seat := A, toPlace := Empty)
      else b'
    case Standard =>
      var result := TerminalCheck(n, b, a);
      if result != Undetermined then b'.(result := result)
      else b'.(seat := OtherSeat(b.seat), toPlace := Flip(b.toPlace))
  }

  ghost function ApplyPy(n: nat, b: Board, a: int): (r: Board)
    requires Shaped(n, b) && LegalAction(n, b, a)
    ensures Shaped(n, r)
  {
    if a < n * n then PlacePy(n, b, a) else Control(n, b, a)
  }

  /** Each control action of the referee by its number. */
  lemma {:induction false} ControlMeansPy(n: nat, b: Board, a: int)
    requires Shaped(n, b) && LegalAction(n, b, a) && a >= n * n
    ensures ControlDone(n, b, a, ApplyPy(n, b, a))
  {
  }

  datatype Outcome = Accepted(board: Board) | Rejected

  /** The referee's replay of an action list on a board. */
  ghost function ReplayPy(n: nat, b: Board, actions: seq<int>): (r: Outcome)
    requires Shaped(n, b)
    ensures r.Accepted? ==> Shaped(n, r.board)
    decreases |actions|
  {
    if actions == [] then Accepted(b)
    else if !LegalAction(n, b, actions[0]) then Rejected
    else ReplayPy(n, ApplyPy(n, b, actions[0]), actions[1..])
  }

  lemma {:induction false} ReplayAppends(n: nat, b: Board, actions: seq<int>, a: int)
    requires Shaped(n, b) && ReplayPy(n, b, actions).Accepted?
    ensures ReplayPy(n, b, actions + [a]) ==
            if LegalAction(n, ReplayPy(n, b, actions).board, a) then
              Accepted(ApplyPy(n, ReplayPy(n, b, actions).board, a))
            else Rejected
    decreases |actions|
  {
    if actions == [] {
      assert (actions + [a])[1..] == [];
    } else {
      ReplayAppends(n, ApplyPy(n, b, actions[0]), actions[1..], a);
      assert (actions + [a])[1..] == actions[1..] + [a];
    }
  }

  class RefereeBoard {
    const size: nat
    var cells: seq<Stone>
    var moveHistory: seq<int>
    var phase: Phase
    var currentPlayer: Seat
    var stoneToPlace: Stone
    var stoneA: Stone
    var stoneB: Stone
    var moveCount: int
    var result: Result

    function View(): Board
      reads this
    {
      Board(cells, phase, currentPlayer, stoneToPlace, moveCount, stoneA, stoneB, result)
    }

    ghost predicate Valid()
      reads this
    {
      size >= 5 && Shaped(size, View())
    }

    constructor (size: nat)
      requires size >= 5
      ensures Valid() && this.size == size && View() == Initial(size) && moveHistory == []
    {
      this.size := size;
      cells := seq(size * size, _ => Empty);
      moveHistory := [];
      phase, currentPlayer, stoneToPlace, moveCount := PlaceInitialThree, A, Black, 0;
      stoneA, stoneB, result := Empty, Empty, Undetermined;
    }

    function LegalSet(): (s: set<int>)
      requires Valid()
      reads this
      ensures forall a :: a in s <==> LegalAction(size, View(), a)
    {
      if result != Undetermined then {}
      else if PlacementPhase(phase) then set a | 0 <= a < size * size && cells[a] == Empty
      else if phase == Swap2Decision then {Swap2ChooseWhite(size), Swap2ChooseBlack(size), Swap2TakePlaceTwo(size)}
      else {ChooseWhite(size), ChooseBlack(size)}
    }

    /** Applies a legal action and records it; an illegal one changes nothing. */
    method Apply(a: int) returns (ok: bool)
      requires Valid()
      modifies this
      ensures Valid()
      ensures ok <==> old(LegalAction(size, View(), a))
      ensures ok ==> View() == ApplyPy(size, old(View()), a) && moveHistory == old(moveHistory) + [a]
      ensures ok && a >= size * size ==> ControlDone(size, old(View()), a, View())
      ensures !ok ==> View() == old(View()) && moveHistory == old(moveHistory)
    {
      hide FiveThrough;
      if a !in LegalSet() {
        return false;
      }
      if a < size * size {
        ApplyPlacement(a);
      } else {
        ApplyControl(a - size * size);
      }
      moveHistory := moveHistory + [a];
      return true;
    }

    method ApplyPlacement(a: nat)
      requires Valid() && PlacementPhase(phase) && LegalAction(size, View(), a)
      modifies `cells, `phase, `currentPlayer, `stoneToPlace, `moveCount, `result
      ensures Valid() && View() == PlacePy(size, old(View()), a)
    {
      hide FiveThrough;
      cells := cells[a := stoneToPlace];
      moveCount := moveCount + 1;
      if phase == PlaceInitialThree {
        if moveCount == 3 {
          phase, currentPlayer, stoneToPlace := Swap2Decision, B, Empty;
        } else {
          stoneToPlace := if moveCount == 1 then White else Black;
        }
      } else if phase == Swap2PlaceTwo {
        if moveCount == 4 {
          stoneToPlace := Black;
        } else if moveCount == 5 {
          phase, currentPlayer, stoneToPlace := ChooseColor, A, Empty;
        }
      } else {
        CheckTerminalAfterPlacement(PointOf(size, a));
        if result == Undetermined {
          currentPlayer := if currentPlayer == A then B else A;
          stoneToPlace := if stoneToPlace == Black then White else Black;
        }
      }
    }

    method CheckTerminalAfterPlacement(p: Point)
      requires |cells| == size * size && Inside(size, p) && result == Undetermined
      requires At(size, cells, p) == stoneToPlace != Empty
      modifies `result
      ensures result ==
        if FiveThrough(size, cells, p, stoneToPlace) then
          if stoneA == stoneToPlace then PlayerAWin else if stoneB == stoneToPlace then PlayerBWin else Draw
        else if Empty !in cells then Draw
        else Undetermined
    {
      var stone: Colour := stoneToPlace;
      for i := 0 to 4
        invariant result == Undetermined
        invariant forall d: Direction :: d < i ==> !FiveOnLine(size, cells, p, d, stone)
      {
        var back := CountInDirection(size, cells, p, i, false, stone);
        var ahead := CountInDirection(size, cells, p, i, true, stone);
        RunsDecideFive(size, cells, p, i, stone, back, ahead);
        if 1 + back + ahead == 5 {
          result := if stoneA == stone then PlayerAWin else if stoneB == stone then PlayerBWin else Draw;
          return;
        }
      }
      if Empty !in cells {
        result := Draw;
      }
    }

    method ApplyControl(offset: nat)
      requires Valid() && !PlacementPhase(phase) && LegalAction(size, View(), size * size + offset)
      modifies `phase, `currentPlayer, `stoneToPlace, `stoneA, `stoneB
      ensures Valid() && View() == Control(size, old(View()), size * size + offset)
      ensures ControlDone(size, old(View()), size * size + offset, View())
    {
      if offset == 0 {
        stoneA, stoneB, phase, currentPlayer, stoneToPlace := Black, White, Standard, B, White;
      } else if offset == 1 {
        stoneA, stoneB, phase, currentPlayer, stoneToPlace := White, Black, Standard, A, White;
      } else if offset == 2 {
        phase, currentPlayer, stoneToPlace := Swap2PlaceTwo, B, White;
      } else if offset == 3 {
        stoneA, stoneB, phase, currentPlayer, stoneToPlace := White, Black, Standard, A, White;
      } else {
        stoneA, stoneB, phase, currentPlayer, stoneToPlace := Black, White, Standard, B, White;
      }
    }

    /** Applies the actions in order and stops at the first illegal one; those
        before it stay applied. */
    method Replay(actions: seq<int>) returns (ok: bool, ghost applied: nat)
      requires Valid()
      modifies this
      ensures Valid() && applied <= |actions| && moveHistory == old(moveHistory) + actions[..applied]
      ensures old(ReplayPy(size, View(), actions[..applied])) == Accepted(View())
      ensures ok <==> applied == |actions|
      ensures !ok ==> !LegalAction(size, View(), actions[applied])
      ensures ok <==> old(ReplayPy(size, View(), actions).Accepted?)
    {
      hide FiveThrough, ApplyPy, LegalAction;
      ghost var start := View();
      applied := 0;
      for i := 0 to |actions|
        invariant Valid() && applied == i && moveHistory == old(moveHistory) + actions[..i]
        invariant ReplayPy(size, start, actions[..i]) == Accepted(View())
        invariant ReplayPy(size, start, actions) == ReplayPy(size, View(), actions[i..])
      {
        assert actions[i..][0] == actions[i] && actions[i..][1..] == actions[i + 1..];
        ReplayAppends(size, start, actions[..i], actions[i]);
        assert actions[..i] + [actions[i]] == actions[..i + 1];
        var legal := Apply(actions[i]);
        if !legal {
          return false, i;
        }
        applied := i + 1;
      }
      return true, applied;
    }

    /** A copy of everything an Apply can change. */
    function Snapshot(): (s: (Board, seq<int>))
      reads this
    {
      (View(), moveHistory)
    }

    method Restore(snap: (Board, seq<int>))
      modifies this
      ensures Snapshot() == snap
    {
      var b := snap.0;
      cells, phase, currentPlayer, stoneToPlace := b.cells, b.phase, b.seat, b.toPlace;
      stoneA, stoneB, moveCount, result := b.stoneA, b.stoneB, b.placed, b.result;
      moveHistory := snap.1;
    }
  }
}
