/** The Swap2 rules: five phases, the last-move win test, and what every legal
    run keeps. ApplyCpp is a step of the engine's board and Retract takes it
    back; the theorems relate runs of both to the whole board. */
module Swap2 {
  import opened Grid

  datatype Phase = PlaceInitialThree | Swap2Decision | Swap2PlaceTwo | ChooseColor | Standard
  datatype Seat = A | B
  datatype Result = Undetermined | PlayerAWin | PlayerBWin | Draw

  /** A rules board. Empty plays the part of "no stone" for stones to place
      and stones not yet assigned. */
  datatype Board = Board(
    cells: seq<Stone>, phase: Phase, seat: Seat, toPlace: Stone, placed: int,
    stoneA: Stone, stoneB: Stone, result: Result)

  function OtherSeat(s: Seat): Seat {
    if s == A then B else A
  }

  function Flip(s: Stone): Stone {
    if s == Black then White else Black
  }

  // Control actions follow the n*n placements.
  function Swap2ChooseWhite(n: nat): nat { n * n }
  function Swap2ChooseBlack(n: nat): nat { n * n + 1 }
  function Swap2TakePlaceTwo(n: nat): nat { n * n + 2 }
  function ChooseWhite(n: nat): nat { n * n + 3 }
  function ChooseBlack(n: nat): nat { n * n + 4 }

  predicate PlacementPhase(p: Phase) {
    p == PlaceInitialThree || p == Swap2PlaceTwo || p == Standard
  }

  predicate LegalAction(n: nat, b: Board, a: int)
    requires |b.cells| == n * n
  {
    && b.result == Undetermined
    && if PlacementPhase(b.phase) then 0 <= a < n * n && b.cells[a] == Empty
       else if b.phase == Swap2Decision then n * n <= a <= n * n + 2
       else n * n + 3 <= a <= n * n + 4
  }

  /** A board on which a placement has a colour to place. */
  predicate Shaped(n: nat, b: Board) {
    |b.cells| == n * n && (PlacementPhase(b.phase) ==> b.toPlace != Empty)
  }

  // ----- The engine's board -------------------------------------------

  /** Result of a standard-phase placement on a, judged by the lines through a. */
  function PlacementResult(n: nat, b: Board, a: nat): Result
    requires Shaped(n, b) && a < n * n
  {
    if b.phase != Standard then Undetermined
    else if FiveThrough(n, b.cells[a := b.toPlace], PointOf(n, a), b.toPlace) then
      if b.stoneA == b.toPlace then PlayerAWin else PlayerBWin
    else if b.placed + 1 == n * n then Draw
    else Undetermined
  }

  function Transition(b: Board): Board {
    match b.phase
    case PlaceInitialThree =>
      if b.placed == 1 then b.(toPlace := White)
      else if b.placed == 2 then b.(toPlace := Black)
      else if b.placed == 3 then b.(phase := Swap2Decision, toPlace := Empty, seat := B)
      else b
    case Swap2PlaceTwo =>
      if b.placed == 4 then b.(toPlace := Black)
      else if b.placed == 5 then b.(phase := ChooseColor, toPlace := Empty, seat := A)
      else b
    case Standard => b.(toPlace := Flip(b.toPlace), seat := OtherSeat(b.seat))
    case _ => b
  }

  function Control(n: nat, b: Board, a: int): Board {
    if a == Swap2ChooseWhite(n) then
      b.(stoneB := White, stoneA := Black, phase := Standard, toPlace := White, seat := B)
    else if a == Swap2ChooseBlack(n) then
      b.(stoneB := Black, stoneA := White, phase := Standard, toPlace := White, seat := A)
    else if a == Swap2TakePlaceTwo(n) then b.(phase := Swap2PlaceTwo, toPlace := White, seat := B)
    else if a == ChooseWhite(n) then
      b.(stoneA := White, stoneB := Black, phase := Standard, toPlace := White, seat := A)
    else if a == ChooseBlack(n) then
      b.(stoneA := Black, stoneB := White, phase := Standard, toPlace := White, seat := B)
    else b
  }

  function ApplyCpp(n: nat, b: Board, a: int): Board
    requires Shaped(n, b)
  {
    if b.result != Undetermined then b
    else if 0 <= a < n * n then
      Transition(b.(cells := b.cells[a := b.toPlace], placed := b.placed + 1, result := PlacementResult(n, b, a)))
    else Control(n, b, a)
  }

  lemma ApplyTouchesOneCell(n: nat, b: Board, a: int)
    requires Shaped(n, b)
    ensures Shaped(n, ApplyCpp(n, b, a))
    ensures var c := ApplyCpp(n, b, a).cells;
      if 0 <= a < n * n then c == b.cells[a := c[a]] else c == b.cells
  {
    hide FiveThrough;
  }

  function RetractPlacement(b: Board): Board {
    if b.placed == 0 then b.(phase := PlaceInitialThree, toPlace := Black, seat := A)
    else if b.placed == 1 then b.(phase := PlaceInitialThree, toPlace := White, seat := A)
    else if b.placed == 2 then b.(phase := PlaceInitialThree, toPlace := Black, seat := A)
    else if b.placed == 3 then
      if b.phase == Swap2PlaceTwo then b.(toPlace := White, seat := B)
      else b.(toPlace := White, seat := OtherSeat(b.seat))
    else if b.placed == 4 && b.phase == ChooseColor then b.(phase := Swap2PlaceTwo, toPlace := Black, seat := B)
    else b.(toPlace := Flip(b.toPlace), seat := OtherSeat(b.seat))
  }

  function Retract(n: nat, b: Board, a: int): Board
    requires |b.cells| == n * n
  {
    if 0 <= a < n * n then
      RetractPlacement(b.(result := Undetermined, cells := b.cells[a := Empty], placed := b.placed - 1))
    else if n * n <= a <= n * n + 2 then
      b.(result := Undetermined, stoneA := Empty, stoneB := Empty, phase := Swap2Decision, toPlace := Empty, seat := B)
    else if n * n + 3 <= a <= n * n + 4 then
      b.(result := Undetermined, stoneA := Empty, stoneB := Empty, phase := ChooseColor, toPlace := Empty, seat := A)
    else b.(result := Undetermined)
  }

  /** The seat to move after a, computed without applying it. */
  function ChildSeat(n: nat, b: Board, a: int): Seat {
    match b.phase
    case Standard => OtherSeat(b.seat)
    case PlaceInitialThree => if b.placed == 2 then B else A
    case Swap2Decision => if a == Swap2ChooseWhite(n) || a == Swap2TakePlaceTwo(n) then B else A
    case Swap2PlaceTwo => if b.placed == 4 then A else B
    case ChooseColor => if a == ChooseWhite(n) then A else B
  }

  // ----- What every legal run keeps -----------------------------------

  function Count(c: seq<Stone>, s: Stone): nat {
    multiset(c)[s]
  }

  /** Black moves on even counts, white on odd ones. */
  function ColourToMove(placed: int): Colour {
    if placed % 2 == 0 then Black else White
  }

  ghost predicate CountsMatch(n: nat, b: Board) {
    && |b.cells| == n * n
    && 0 <= b.placed && b.placed + Count(b.cells, Empty) == n * n
    && Count(b.cells, Black) == Count(b.cells, White) + b.placed % 2
    && Count(b.cells, Black) + Count(b.cells, White) == b.placed
  }

  ghost predicate PhaseMatches(n: nat, b: Board) {
    && (b.phase != Standard ==> b.result == Undetermined && b.stoneA == b.stoneB == Empty)
    && (PlacementPhase(b.phase) ==> b.toPlace == ColourToMove(b.placed))
    && (!PlacementPhase(b.phase) ==> b.toPlace == Empty)
    && match b.phase
       case PlaceInitialThree => b.placed < 3 && b.seat == A
       case Swap2Decision => b.placed == 3 && b.seat == B
       case Swap2PlaceTwo => 3 <= b.placed < 5 && b.seat == B
       case ChooseColor => b.placed == 5 && b.seat == A
       case Standard =>
         && b.placed >= 3
         && b.stoneA != Empty && b.stoneB == Flip(b.stoneA)
         && b.seat == (if b.stoneA == b.toPlace then A else B)
         && (b.result == Undetermined ==> b.placed < n * n)
         && (b.result == Draw ==> b.placed == n * n)
  }

  /** The result agrees with the whole board: a win is exactly an exact five of
      the winner's colour, and of no other; otherwise there is none at all. */
  ghost predicate ResultMatches(n: nat, b: Board)
    requires |b.cells| == n * n
  {
    && (b.result == Undetermined || b.result == Draw ==> !HasFive(n, b.cells, Black) && !HasFive(n, b.cells, White))
    && (b.result == PlayerAWin ==>
          b.stoneA != Empty && HasFive(n, b.cells, b.stoneA) && !HasFive(n, b.cells, Other(b.stoneA)))
    && (b.result == PlayerBWin ==>
          b.stoneB != Empty && HasFive(n, b.cells, b.stoneB) && !HasFive(n, b.cells, Other(b.stoneB)))
  }

  ghost predicate Inv(n: nat, b: Board) {
    n >= 5 && CountsMatch(n, b) && PhaseMatches(n, b) && ResultMatches(n, b)
  }

  lemma InvShaped(n: nat, b: Board)
    requires Inv(n, b)
    ensures Shaped(n, b)
  {
  }

  // ----- Counting stones ----------------------------------------------

  lemma {:induction false} CountDistinct(c: seq<Stone>, s: Colour, where: seq<nat>)
    requires forall k :: 0 <= k < |where| ==> where[k] < |c| && c[where[k]] == s
    requires forall j, k :: 0 <= j < k < |where| ==> where[j] != where[k]
    ensures Count(c, s) >= |where|
    decreases |where|
  {
    if where != [] {
      var c' := c[where[0] := Empty];
      forall k | 0 <= k < |where[1..]| ensures where[1..][k] < |c'| && c'[where[1..][k]] == s {
        assert where[1..][k] == where[k + 1];
      }
      CountDistinct(c', s, where[1..]);
    }
  }

  /** A five needs five stones. */
  lemma {:induction false} FiveNeedsFive(n: nat, c: seq<Stone>, s: Colour)
    requires |c| == n * n && HasFive(n, c, s)
    ensures Count(c, s) >= 5
  {
    var p: Point, d: Direction :| ExactFive(n, c, p, d, s);
    var where := seq(5, k requires 0 <= k < 5 => Index(n, Go(p, d, k)));
    forall j, k | 0 <= j < k < 5 ensures where[j] != where[k] {
      assert Go(p, d, j) != Go(p, d, k);
      if where[j] == where[k] {
        IndexInjective(n, Go(p, d, j), Go(p, d, k));
      }
    }
    CountDistinct(c, s, where);
  }

  lemma {:induction false} CountsTotal(c: seq<Stone>)
    ensures Count(c, Empty) + Count(c, Black) + Count(c, White) == |c|
    decreases |c|
  {
    if c == [] {
      assert multiset(c) == multiset{};
    } else {
      assert c == [c[0]] + c[1..];
      assert multiset(c) == multiset{c[0]} + multiset(c[1..]);
      assert forall t :: Count(c, t) == Count(c[1..], t) + if t == c[0] then 1 else 0;
      CountsTotal(c[1..]);
    }
  }

  lemma FewStonesNoFive(n: nat, c: seq<Stone>, s: Colour)
    requires |c| == n * n && Count(c, s) < 5
    ensures !HasFive(n, c, s)
  {
    if HasFive(n, c, s) {
      FiveNeedsFive(n, c, s);
    }
  }

  // ----- One step -----------------------------------------------------

  lemma AtLeast25(n: nat)
    requires n >= 5
    ensures n * n >= 25
  {
    assert n * n == 5 * n + (n - 5) * n;
  }

  /** The empty board before the opener's first stone. */
  function Initial(n: nat): (b: Board)
    requires n >= 5
    ensures Inv(n, b)
  {
    var c := seq(n * n, _ => Empty);
    assert Inv(n, Board(c, PlaceInitialThree, A, Black, 0, Empty, Empty, Undetermined)) by {
      assert Black !in c && White !in c;
      assert Count(c, Black) == 0 && Count(c, White) == 0;
      CountsTotal(c);
      FewStonesNoFive(n, c, Black);
      FewStonesNoFive(n, c, White);
    }
    Board(c, PlaceInitialThree, A, Black, 0, Empty, Empty, Undetermined)
  }

  lemma {:induction false} CountsAfterPlacing(n: nat, b: Board, a: nat, s: Colour)
    requires CountsMatch(n, b) && a < n * n && b.cells[a] == Empty && s == ColourToMove(b.placed)
    ensures CountsMatch(n, b.(cells := b.cells[a := s], placed := b.placed + 1))
  {
  }

  /** The result of a standard placement agrees with the whole board. */
  lemma {:induction false} StandardResult(n: nat, b: Board, a: nat)
    requires Inv(n, b) && b.phase == Standard && LegalAction(n, b, a)
    ensures ResultMatches(n, b.(cells := b.cells[a := b.toPlace], result := PlacementResult(n, b, a)))
  {
    var s: Colour := b.toPlace;
    LastMoveDecides(n, b.cells, a, s);
    OtherColourKeepsFives(n, b.cells, a, s, Other(s));
  }

  /** No five is possible before a sixth stone. */
  lemma {:induction false} OpeningHasNoFive(n: nat, b: Board)
    requires CountsMatch(n, b) && b.placed <= 5
    ensures !HasFive(n, b.cells, Black) && !HasFive(n, b.cells, White)
  {
    FewStonesNoFive(n, b.cells, Black);
    FewStonesNoFive(n, b.cells, White);
  }

  lemma {:induction false} ControlKeepsInv(n: nat, b: Board, a: int)
    requires Inv(n, b) && LegalAction(n, b, a) && !PlacementPhase(b.phase)
    ensures Inv(n, ApplyCpp(n, b, a))
  {
    hide HasFive;
    AtLeast25(n);
  }

  /** A seat took a colour: the other seat gets the other one, and white, of whom
      there is one stone less, is to move. */
  predicate ColourTaken(r: Board, chooser: Seat, colour: Colour) {
    && (if chooser == A then r.stoneA else r.stoneB) == colour
    && (if chooser == A then r.stoneB else r.stoneA) == (if colour == White then Black else White)
    && r.phase == Standard && r.toPlace == White && r.seat == if r.stoneA == White then A else B
  }

  /** What a control action makes of a board: B decides after three stones, for
      white, for black, or for two more stones; A chooses after five. */
  predicate ControlDone(n: nat, b: Board, a: int, r: Board) {
    && r.cells == b.cells && r.placed == b.placed && r.result == b.result
    && (a == n * n ==> ColourTaken(r, B, White))
    && (a == n * n + 1 ==> ColourTaken(r, B, Black))
    && (a == n * n + 2 ==> r == b.(phase := Swap2PlaceTwo, seat := B, toPlace := White))
    && (a == n * n + 3 ==> ColourTaken(r, A, White))
    && (a == n * n + 4 ==> ColourTaken(r, A, Black))
  }

  /** The legal actions of a live board, by the number of stones on it: at three
      and at five stones there is a decision to take. */
  lemma LegalMeans(n: nat, b: Board, a: int)
    requires Inv(n, b) && b.result == Undetermined
    ensures LegalAction(n, b, a) <==>
      if b.phase == Standard || b.placed < 3 || b.placed == 4 || (b.placed == 3 && b.phase != Swap2Decision) then
        0 <= a < n * n && b.cells[a] == Empty
      else if b.placed == 3 then a == n * n || a == n * n + 1 || a == n * n + 2
      else a == n * n + 3 || a == n * n + 4
  {
    hide HasFive;
  }

  /** Each control action of the engine by its number. */
  lemma {:induction false} ControlMeans(n: nat, b: Board, a: int)
    requires Shaped(n, b) && b.result == Undetermined && a >= n * n
    ensures ControlDone(n, b, a, ApplyCpp(n, b, a))
  {
    hide FiveThrough;
  }

  lemma {:induction false} OpeningKeepsInv(n: nat, b: Board, a: int)
    requires Inv(n, b) && LegalAction(n, b, a) && PlacementPhase(b.phase) && b.phase != Standard
    ensures Inv(n, ApplyCpp(n, b, a))
  {
    hide HasFive, Count;
    CountsAfterPlacing(n, b, a, b.toPlace);
    OpeningHasNoFive(n, b.(cells := b.cells[a := b.toPlace], placed := b.placed + 1));
  }

  lemma {:induction false} StandardKeepsInv(n: nat, b: Board, a: int)
    requires Inv(n, b) && LegalAction(n, b, a) && b.phase == Standard
    ensures Inv(n, ApplyCpp(n, b, a))
  {
    StandardKeepsCounts(n, b, a);
    StandardKeepsPhase(n, b, a);
    StandardKeepsResult(n, b, a);
    hide ApplyCpp, CountsMatch, PhaseMatches, ResultMatches;
  }

  lemma StandardKeepsCounts(n: nat, b: Board, a: int)
    requires Inv(n, b) && LegalAction(n, b, a) && b.phase == Standard
    ensures CountsMatch(n, ApplyCpp(n, b, a))
  {
    hide HasFive, FiveThrough, Count;
    CountsAfterPlacing(n, b, a, b.toPlace);
  }

  lemma StandardKeepsPhase(n: nat, b: Board, a: int)
    requires Inv(n, b) && LegalAction(n, b, a) && b.phase == Standard
    ensures PhaseMatches(n, ApplyCpp(n, b, a))
  {
    hide HasFive, FiveThrough, Count, ResultMatches;
    CountsAfterPlacing(n, b, a, b.toPlace);
  }

  lemma {:induction false} StandardKeepsResult(n: nat, b: Board, a: int)
    requires Inv(n, b) && LegalAction(n, b, a) && b.phase == Standard
    ensures |ApplyCpp(n, b, a).cells| == n * n && ResultMatches(n, ApplyCpp(n, b, a))
  {
    hide HasFive, FiveThrough, Count;
    StandardResult(n, b, a);
  }

  /** Every legal action keeps the invariant. */
  lemma {:induction false} ApplyKeepsInv(n: nat, b: Board, a: int)
    requires Inv(n, b) && LegalAction(n, b, a)
    ensures Inv(n, ApplyCpp(n, b, a))
  {
    hide Inv, ApplyCpp;
    if !PlacementPhase(b.phase) {
      ControlKeepsInv(n, b, a);
    } else if b.phase == Standard {
      StandardKeepsInv(n, b, a);
    } else {
      OpeningKeepsInv(n, b, a);
    }
  }

  /** Taking back a legal action restores every field, win and draw included. */
  lemma {:induction false} RetractUndoesApply(n: nat, b: Board, a: int)
    requires Inv(n, b) && LegalAction(n, b, a)
    ensures Retract(n, ApplyCpp(n, b, a), a) == b
  {
    hide FiveThrough, ResultMatches, Count;
    if PlacementPhase(b.phase) {
      var b1 := b.(cells := b.cells[a := b.toPlace], placed := b.placed + 1, result := PlacementResult(n, b, a));
      assert b.cells[a := b.toPlace][a := Empty] == b.cells;
      assert ApplyCpp(n, b, a) == Transition(b1);
      RetractPlacementUndoes(n, b, b1);
    }
  }

  /** The phase table read backwards. */
  lemma {:induction false} RetractPlacementUndoes(n: nat, b: Board, b1: Board)
    requires PhaseMatches(n, b) && PlacementPhase(b.phase) && b.result == Undetermined && b.placed >= 0
    requires b1 == b.(cells := b1.cells, placed := b.placed + 1, result := b1.result)
    ensures Transition(b1).cells == b1.cells && Transition(b1).placed == b.placed + 1
    ensures RetractPlacement(Transition(b1).(result := Undetermined, cells := b.cells, placed := b.placed)) == b
  {
  }

  lemma {:induction false} ChildSeatIsNextSeat(n: nat, b: Board, a: int)
    requires Inv(n, b) && LegalAction(n, b, a)
    ensures ChildSeat(n, b, a) == ApplyCpp(n, b, a).seat
  {
    hide FiveThrough, HasFive;
  }

  /** A live board always offers a move. */
  lemma {:induction false} LiveBoardHasMove(n: nat, b: Board)
    requires Inv(n, b) && b.result == Undetermined
    ensures exists a :: LegalAction(n, b, a)
  {
    hide HasFive;
    AtLeast25(n);
    if PlacementPhase(b.phase) {
      assert Empty in multiset(b.cells);
      var a :| 0 <= a < |b.cells| && b.cells[a] == Empty;
      assert LegalAction(n, b, a);
    } else if b.phase == Swap2Decision {
      assert LegalAction(n, b, Swap2ChooseWhite(n));
    } else {
      assert LegalAction(n, b, ChooseWhite(n));
    }
  }

  // ----- Whole runs ---------------------------------------------------

  /** Every action of the list was legal when it was played. */
  ghost predicate LegalRun(n: nat, b: Board, actions: seq<int>)
    requires Inv(n, b)
    decreases |actions|
  {
    actions == [] || (
      && LegalAction(n, b, actions[0])
      && (ApplyKeepsInv(n, b, actions[0]); LegalRun(n, ApplyCpp(n, b, actions[0]), actions[1..])))
  }

  ghost function ApplyAll(n: nat, b: Board, actions: seq<int>): (r: Board)
    requires Inv(n, b) && LegalRun(n, b, actions)
    ensures Inv(n, r)
    decreases |actions|
  {
    if actions == [] then b
    else
      ApplyKeepsInv(n, b, actions[0]);
      ApplyAll(n, ApplyCpp(n, b, actions[0]), actions[1..])
  }

  /** On every legal run the last-move test and a scan of the whole board give
      the same verdict, and the colours stay balanced. */
  lemma {:induction false} LastMoveMatchesWholeBoard(n: nat, actions: seq<int>)
    requires n >= 5 && LegalRun(n, Initial(n), actions)
    ensures var b := ApplyAll(n, Initial(n), actions);
      && (b.result == PlayerAWin || b.result == PlayerBWin <==>
          HasFive(n, b.cells, Black) || HasFive(n, b.cells, White))
      && (b.result == PlayerAWin <==> b.stoneA != Empty && HasFive(n, b.cells, b.stoneA))
      && (b.result == PlayerBWin <==> b.stoneB != Empty && HasFive(n, b.cells, b.stoneB))
      && (b.result == Draw <==>
          Count(b.cells, Empty) == 0 && !HasFive(n, b.cells, Black) && !HasFive(n, b.cells, White))
      && 0 <= Count(b.cells, Black) - Count(b.cells, White) <= 1
  {
    hide HasFive;
    var b := ApplyAll(n, Initial(n), actions);
    if b.phase != Standard {
      OpeningHasNoFive(n, b);
    }
  }

  /** Retracts the actions last to first. */
  function RetractAll(n: nat, b: Board, actions: seq<int>): (r: Board)
    requires |b.cells| == n * n
    ensures |r.cells| == n * n
    decreases |actions|
  {
    if actions == [] then b else Retract(n, RetractAll(n, b, actions[1..]), actions[0])
  }

  lemma {:induction false} RetractAllUndoes(n: nat, b: Board, actions: seq<int>)
    requires Inv(n, b) && LegalRun(n, b, actions)
    ensures RetractAll(n, ApplyAll(n, b, actions), actions) == b
    decreases |actions|
  {
    if actions != [] {
      ApplyKeepsInv(n, b, actions[0]);
      RetractAllUndoes(n, ApplyCpp(n, b, actions[0]), actions[1..]);
      RetractUndoesApply(n, b, actions[0]);
    }
  }

  lemma {:induction false} SplitRun(n: nat, b: Board, actions: seq<int>, k: nat)
    requires Inv(n, b) && LegalRun(n, b, actions) && k <= |actions|
    ensures LegalRun(n, b, actions[..k]) && LegalRun(n, ApplyAll(n, b, actions[..k]), actions[k..])
    ensures ApplyAll(n, ApplyAll(n, b, actions[..k]), actions[k..]) == ApplyAll(n, b, actions)
    decreases k
  {
    if k == 0 {
      assert actions[0..] == actions;
    } else {
      ApplyKeepsInv(n, b, actions[0]);
      SplitRun(n, ApplyCpp(n, b, actions[0]), actions[1..], k - 1);
      assert actions[..k][1..] == actions[1..][..k - 1];
      assert actions[1..][k - 1..] == actions[k..];
    }
  }

  lemma {:induction false} JoinRuns(n: nat, b: Board, first: seq<int>, second: seq<int>)
    requires Inv(n, b) && LegalRun(n, b, first) && LegalRun(n, ApplyAll(n, b, first), second)
    ensures LegalRun(n, b, first + second)
    ensures ApplyAll(n, b, first + second) == ApplyAll(n, ApplyAll(n, b, first), second)
    decreases |first|
  {
    hide Inv, ApplyCpp, LegalAction;
    if first == [] {
      assert first + second == second;
    } else {
      InvShaped(n, b);
      ApplyKeepsInv(n, b, first[0]);
      JoinRuns(n, ApplyCpp(n, b, first[0]), first[1..], second);
      assert (first + second)[1..] == first[1..] + second;
    }
  }

  /** Retracting any tail of a run gives back the board as it stood before it. */
  lemma {:induction false} RetractRestoresEveryStep(n: nat, b: Board, actions: seq<int>, k: nat)
    requires Inv(n, b) && LegalRun(n, b, actions) && k <= |actions|
    ensures LegalRun(n, b, actions[..k])
    ensures RetractAll(n, ApplyAll(n, b, actions), actions[k..]) == ApplyAll(n, b, actions[..k])
  {
    SplitRun(n, b, actions, k);
    RetractAllUndoes(n, ApplyAll(n, b, actions[..k]), actions[k..]);
  }

  /** How many actions can still follow. */
  function Remaining(n: nat, b: Board): int {
    n * n - b.placed + match b.phase
                       case PlaceInitialThree => 2
                       case Swap2Decision => 2
                       case Swap2PlaceTwo => 1
                       case ChooseColor => 1
                       case Standard => 0
  }

  lemma {:induction false} ApplyUsesUpRemaining(n: nat, b: Board, a: int)
    requires Inv(n, b) && LegalAction(n, b, a)
    ensures 0 <= Remaining(n, ApplyCpp(n, b, a)) < Remaining(n, b)
  {
    hide FiveThrough, HasFive;
    AtLeast25(n);
    ApplyKeepsInv(n, b, a);
  }

  /** Every run is at most n*n placements and two control actions long, and a
      run that cannot be continued has ended in a win or a draw. */
  lemma {:induction false} RunsEnd(n: nat, b: Board, actions: seq<int>)
    requires Inv(n, b) && LegalRun(n, b, actions)
    ensures |actions| <= Remaining(n, b)
    ensures (forall a :: !LegalAction(n, ApplyAll(n, b, actions), a)) <==>
            ApplyAll(n, b, actions).result != Undetermined
    decreases |actions|
  {
    hide FiveThrough, HasFive;
    if actions == [] {
      if b.result == Undetermined {
        LiveBoardHasMove(n, b);
      }
    } else {
      ApplyKeepsInv(n, b, actions[0]);
      ApplyUsesUpRemaining(n, b, actions[0]);
      RunsEnd(n, ApplyCpp(n, b, actions[0]), actions[1..]);
    }
  }

  /** The legal actions of a board in ascending order. */
  method ListLegalActions(n: nat, b: Board) returns (actions: seq<nat>)
    requires |b.cells| == n * n
    ensures forall a: int :: a in actions <==> LegalAction(n, b, a)
    ensures forall i, j :: 0 <= i < j < |actions| ==> actions[i] < actions[j]
  {
    actions := [];
    if b.result != Undetermined {
      return;
    }
    if PlacementPhase(b.phase) {
      for i := 0 to n * n
        invariant forall k :: 0 <= k < |actions| ==> actions[k] < i
        invariant forall a: int :: a in actions <==> 0 <= a < i && b.cells[a] == Empty
        invariant forall j, k :: 0 <= j < k < |actions| ==> actions[j] < actions[k]
      {
        if b.cells[i] == Empty {
          actions := actions + [i];
        }
      }
    } else if b.phase == Swap2Decision {
      actions := [Swap2ChooseWhite(n), Swap2ChooseBlack(n), Swap2TakePlaceTwo(n)];
    } else {
      actions := [ChooseWhite(n), ChooseBlack(n)];
    }
  }

  /** The value of a finished board for a seat; zero while undetermined. */
  function ValueForSeat(b: Board, seat: Seat): real {
    match b.result
    case PlayerAWin => if seat == A then 1.0 else -1.0
    case PlayerBWin => if seat == B then 1.0 else -1.0
    case _ => 0.0
  }
}
