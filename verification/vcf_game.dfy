/** What a solver line is worth in the game itself: on the rules board, against
    every legal action of the opponent, draws and overlines included. */
module VcfGame {
  import opened Grid
  import opened Swap2
  import opened VcfTheory
  import opened VcfSolver
  import opened Zobrist

  function WinFor(seat: Seat): Result {
    if seat == A then PlayerAWin else PlayerBWin
  }

  /** The seat can bring the game to its own win whatever the other one does. */
  ghost predicate CanForceWin(n: nat, b: Board, seat: Seat)
    requires Inv(n, b)
    decreases Remaining(n, b)
  {
    if b.result != Undetermined then b.result == WinFor(seat)
    else if b.seat == seat then
      exists a: int :: LegalAction(n, b, a) && WinsAfter(n, b, seat, a)
    else
      forall a: int :: LegalAction(n, b, a) ==> WinsAfter(n, b, seat, a)
  }

  ghost predicate WinsAfter(n: nat, b: Board, seat: Seat, a: int)
    requires Inv(n, b) && LegalAction(n, b, a)
    decreases Remaining(n, b), 0
  {
    ApplyKeepsInv(n, b, a);
    ApplyUsesUpRemaining(n, b, a);
    CanForceWin(n, ApplyCpp(n, b, a), seat)
  }

  ghost predicate InPlay(n: nat, b: Board) {
    Inv(n, b) && b.phase == Standard && b.result == Undetermined
  }

  /** A standard-phase placement in the solver's terms: it wins on an exact
      five, and otherwise the other seat is to move while a cell is left. */
  lemma {:induction false} StandardMove(n: nat, b: Board, a: nat)
    requires InPlay(n, b) && Legal(b.cells, a)
    ensures LegalAction(n, b, a) && b.toPlace != Empty && Shaped(n, b)
    ensures var b1 := ApplyCpp(n, b, a);
      && Inv(n, b1) && b1.phase == Standard && b1.cells == b.cells[a := b.toPlace]
      && b1.seat == OtherSeat(b.seat) && b1.toPlace == Other(b.toPlace)
      && (MakesFive(n, b.cells, a, b.toPlace) <==> b1.result == WinFor(b.seat))
      && (!MakesFive(n, b.cells, a, b.toPlace) && Empty in b1.cells ==> b1.result == Undetermined)
  {
    hide HasFive, FiveThrough;
    ApplyKeepsInv(n, b, a);
    AtLeast25(n);
    var c1 := b.cells[a := b.toPlace];
    CountsAfterPlacing(n, b, a, b.toPlace);
    if Empty in c1 {
      assert Empty in multiset(c1);
    }
  }

  /** A win by continuous fours wins the game. */
  lemma {:induction false} VcfMoveWinsGame(n: nat, b: Board, a: nat)
    requires InPlay(n, b) && b.toPlace != Empty && Legal(b.cells, a) && VcfMove(n, b.cells, b.toPlace, a)
    ensures LegalAction(n, b, a) && WinsAfter(n, b, b.seat, a)
    decreases Empties(b.cells)
  {
    hide Inv, ApplyCpp, MakesFive;
    StandardMove(n, b, a);
    var b1 := ApplyCpp(n, b, a);
    var att: Colour := b.toPlace;
    if MakesFive(n, b.cells, a, att) {
      assert CanForceWin(n, b1, b.seat);
    } else {
      assert HasWin(n, b1.cells, att);
      WinLeavesCell(n, b1.cells, att);
      forall r: int | LegalAction(n, b1, r) ensures WinsAfter(n, b1, b.seat, r) {
        assert Legal(b1.cells, r) && !MakesFive(n, b1.cells, r, Other(att)) && Vcf(n, b1.cells[r := Other(att)], att);
        ReplyLoses(n, b1, r);
      }
      assert b1.seat != b.seat && b1.result == Undetermined;
      assert CanForceWin(n, b1, b.seat);
    }
  }

  lemma WinLeavesCell(n: nat, c: seq<Stone>, s: Colour)
    requires |c| == n * n && HasWin(n, c, s)
    ensures Empty in c
  {
    var w: nat :| MakesFive(n, c, w, s);
    assert c[w] == Empty;
  }

  lemma {:induction false} ReplyLoses(n: nat, b: Board, r: nat)
    requires InPlay(n, b) && b.toPlace != Empty && Legal(b.cells, r)
    requires !MakesFive(n, b.cells, r, b.toPlace) && Vcf(n, b.cells[r := b.toPlace], Other(b.toPlace))
    ensures LegalAction(n, b, r) && WinsAfter(n, b, OtherSeat(b.seat), r)
    decreases Empties(b.cells)
  {
    hide Inv, ApplyCpp, MakesFive, VcfMove;
    StandardMove(n, b, r);
    var b2 := ApplyCpp(n, b, r);
    var a: nat :| Legal(b2.cells, a) && VcfMove(n, b2.cells, Other(b.toPlace), a);
    assert b2.cells[a] in b2.cells;
    VcfMoveWinsGame(n, b2, a);
    assert CanForceWin(n, b2, OtherSeat(b.seat));
  }

  /** The plies of a line are legal one after the other. */
  lemma {:induction false} LineReplays(n: nat, b: Board, line: seq<nat>)
    requires InPlay(n, b) && b.toPlace != Empty && ForcedLine(n, b.cells, b.toPlace, line)
    ensures LegalRun(n, b, Plies(line))
    decreases |line|
  {
    hide Inv, ApplyCpp, MakesFive;
    StandardMove(n, b, line[0]);
    var b1 := ApplyCpp(n, b, line[0]);
    if |line| == 1 {
      assert Plies(line)[1..] == [];
    } else {
      WinLeavesCell(n, b1.cells, b.toPlace);
      ReplyIsLegal(n, b.cells, b.toPlace, line[0], line[1]);
      StandardMove(n, b1, line[1]);
      assert !HasWin(n, b1.cells, b1.toPlace);
      var b2 := ApplyCpp(n, b1, line[1]);
      assert Legal(b2.cells, line[2]) by { assert line[2..][0] == line[2]; }
      assert b2.cells[line[2]] in b2.cells;
      LineReplays(n, b2, line[2..]);
      assert Plies(line)[1..][1..] == Plies(line[2..]);
    }
  }

  lemma ReplyIsLegal(n: nat, c: seq<Stone>, att: Colour, a: nat, w: nat)
    requires |c| == n * n && Legal(c, a) && Forces(n, c, att, a, w)
    ensures Legal(c[a := att], w)
  {
  }

  function Plies(line: seq<nat>): (p: seq<int>)
    ensures |p| == |line| && forall i :: 0 <= i < |p| ==> p[i] == line[i]
  {
    seq(|line|, i requires 0 <= i < |line| => line[i])
  }

  /** Solving a rules board. Whatever the budget and the key table, a returned
      line replays legally and its first move wins the game by force. */
  method SolveBoard(b: Board, keys: KeyTable, maxNodes: int) returns (line: seq<nat>)
    requires Inv(N, b) && |keys| == CELLS
    ensures b.phase != Standard || b.result != Undetermined ==> line == []
    ensures line != [] ==> LegalRun(N, b, Plies(line)) && WinsAfter(N, b, b.seat, line[0]) && CanForceWin(N, b, b.seat)
  {
    hide HasFive, VcfMove, ForcedLine, LegalRun, WinsAfter, Live;
    if b.phase != Standard || b.result != Undetermined {
      return [];
    }
    var position := new Position(b.cells, b.toPlace);
    ghost var visited, met;
    line, visited, met := SolveVCF(position, keys, maxNodes);
    if line != [] {
      FirstPlyLegal(N, b, line);
      VcfMoveWinsGame(N, b, line[0]);
      LineReplays(N, b, line);
    }
  }

  lemma FirstPlyLegal(n: nat, b: Board, line: seq<nat>)
    requires |b.cells| == n * n && b.toPlace != Empty && ForcedLine(n, b.cells, b.toPlace, line)
    ensures line != [] && Legal(b.cells, line[0])
  {
  }
}
