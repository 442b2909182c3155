/** The engine's board as a mutable object: in-place Apply and Retract with the
    incremental signature used to recognise transpositions. */
module EngineBoard {
  import opened Grid
  import opened Swap2
  import opened Zobrist

  /** One lane of the key table. */
  datatype LaneKeys = LaneKeys(
    cell: (nat, Stone) -> Word, phase: Phase -> Word, player: Seat -> Word, toPlace: Stone -> Word,
    seatA: Stone -> Word, seatB: Stone -> Word, result: Result -> Word)

  // ----- Signatures computed from scratch -----------------------------

  function CellsSig(k: LaneKeys, c: seq<Stone>, m: nat): Word
    requires m <= |c|
  {
    if m == 0 then {} else Xor(CellsSig(k, c, m - 1), k.cell(m - 1, c[m - 1]))
  }

  function ToggleMeta(k: LaneKeys, b: Board, w: Word): Word {
    Xor(Xor(Xor(Xor(Xor(Xor(w, k.phase(b.phase)), k.player(b.seat)), k.toPlace(b.toPlace)),
                k.seatA(b.stoneA)), k.seatB(b.stoneB)), k.result(b.result))
  }

  function Signature(k: LaneKeys, b: Board): Word {
    ToggleMeta(k, b, CellsSig(k, b.cells, |b.cells|))
  }

  /** What ToggleHash does to one lane. */
  function Toggle(k: LaneKeys, b: Board, a: int, w: Word): Word {
    ToggleMeta(k, b, if 0 <= a < |b.cells| then Xor(w, k.cell(a, b.cells[a])) else w)
  }

  lemma XorShuffle(u: Word, v: Word, w: Word)
    ensures Xor(Xor(u, v), w) == Xor(Xor(u, w), v)
    ensures Xor(Xor(u, v), v) == u
  {
  }

  /** Toggling twice with the same state fields cancels. */
  lemma {:induction false} ToggleMetaCancels(k: LaneKeys, b: Board, w: Word)
    ensures ToggleMeta(k, b, ToggleMeta(k, b, w)) == w
  {
    var f := MetaWord(k, b);
    ToggleMetaIsXor(k, b, w);
    ToggleMetaIsXor(k, b, ToggleMeta(k, b, w));
    XorShuffle(w, f, f);
  }

  function MetaWord(k: LaneKeys, b: Board): Word {
    ToggleMeta(k, b, {})
  }

  lemma {:induction false} ToggleMetaIsXor(k: LaneKeys, b: Board, w: Word)
    ensures ToggleMeta(k, b, w) == Xor(w, MetaWord(k, b))
  {
    var p1, p2, p3, p4, p5, p6 :=
      k.phase(b.phase), k.player(b.seat), k.toPlace(b.toPlace),
      k.seatA(b.stoneA), k.seatB(b.stoneB), k.result(b.result);
    var z: Word := {};
    hide Xor;
    XorLaws(w, z, p1);
    XorLaws(w, Xor(z, p1), p2);
    XorLaws(w, Xor(Xor(z, p1), p2), p3);
    XorLaws(w, Xor(Xor(Xor(z, p1), p2), p3), p4);
    XorLaws(w, Xor(Xor(Xor(Xor(z, p1), p2), p3), p4), p5);
    XorLaws(w, Xor(Xor(Xor(Xor(Xor(z, p1), p2), p3), p4), p5), p6);
    XorLaws(z, w, z);
  }

  lemma {:induction false} CellsSigAfterChange(k: LaneKeys, c: seq<Stone>, a: nat, s: Stone, m: nat)
    requires a < |c| && m <= |c|
    ensures CellsSig(k, c[a := s], m) ==
            if a < m then Xor(Xor(CellsSig(k, c, m), k.cell(a, c[a])), k.cell(a, s)) else CellsSig(k, c, m)
  {
    hide Xor;
    if m > 0 {
      CellsSigAfterChange(k, c, a, s, m - 1);
      var h, x, old_, new_ := CellsSig(k, c, m - 1), k.cell(m - 1, c[m - 1]), k.cell(a, c[a]), k.cell(a, s);
      XorShuffle(h, x, old_);
      XorShuffle(Xor(h, old_), x, new_);
      XorShuffle(h, old_, old_);
    }
  }

  /** Toggling before and after a change of one cell and any state fields turns
      the old signature into the new one. */
  lemma {:induction false} ToggleAround(k: LaneKeys, b: Board, b': Board, a: int)
    requires 0 <= a < |b.cells| ==> |b'.cells| == |b.cells| && b'.cells == b.cells[a := b'.cells[a]]
    requires !(0 <= a < |b.cells|) ==> b'.cells == b.cells
    ensures Toggle(k, b', a, Toggle(k, b, a, Signature(k, b))) == Signature(k, b')
  {
    var h := CellsSig(k, b.cells, |b.cells|);
    ToggleMetaIsXor(k, b, h);
    ToggleMetaCancels(k, b, h);
    hide Xor;
    if 0 <= a < |b.cells| {
      var x := k.cell(a, b.cells[a]);
      CellsSigAfterChange(k, b.cells, a, b'.cells[a], |b.cells|);
      ToggleMetaIsXor(k, b, Xor(ToggleMeta(k, b, h), x));
      XorShuffle(h, MetaWord(k, b), x);
      XorShuffle(Xor(h, x), MetaWord(k, b), MetaWord(k, b));
    }
  }

  /** The cells among the first m that have a bit in the key of their content. */
  ghost function CellsWithBit(k: LaneKeys, c: seq<Stone>, bit: nat, m: nat): set<nat>
    requires m <= |c|
  {
    set a | 0 <= a < m && bit in k.cell(a, c[a])
  }

  lemma {:induction false} CellsSigBits(k: LaneKeys, c: seq<Stone>, bit: nat, m: nat)
    requires m <= |c|
    ensures bit in CellsSig(k, c, m) <==> |CellsWithBit(k, c, bit, m)| % 2 == 1
  {
    if m == 0 {
      assert CellsWithBit(k, c, bit, 0) == {};
    } else {
      hide Xor;
      CellsSigBits(k, c, bit, m - 1);
      XorBit(CellsSig(k, c, m - 1), k.cell(m - 1, c[m - 1]), bit);
      var before := CellsWithBit(k, c, bit, m - 1);
      assert CellsWithBit(k, c, bit, m) == if bit in k.cell(m - 1, c[m - 1]) then before + {m - 1} else before;
    }
  }

  function One(b: bool): nat { if b then 1 else 0 }

  /** In how many keys of a board a bit is set: one for the content of every cell,
      empty ones included, and one for each of the six state fields. */
  ghost function KeyCount(k: LaneKeys, b: Board, bit: nat): nat {
    |CellsWithBit(k, b.cells, bit, |b.cells|)|
    + One(bit in k.phase(b.phase)) + One(bit in k.player(b.seat)) + One(bit in k.toPlace(b.toPlace))
    + One(bit in k.seatA(b.stoneA)) + One(bit in k.seatB(b.stoneB)) + One(bit in k.result(b.result))
  }

  /** A bit of the signature is set exactly if that number is odd. */
  lemma {:induction false} SignatureBits(k: LaneKeys, b: Board, bit: nat)
    ensures bit in Signature(k, b) <==> KeyCount(k, b, bit) % 2 == 1
  {
    hide CellsSig, CellsWithBit, Xor;
    CellsSigBits(k, b.cells, bit, |b.cells|);
    var w0 := CellsSig(k, b.cells, |b.cells|);
    var w1 := Xor(w0, k.phase(b.phase));
    var w2 := Xor(w1, k.player(b.seat));
    var w3 := Xor(w2, k.toPlace(b.toPlace));
    var w4 := Xor(w3, k.seatA(b.stoneA));
    var w5 := Xor(w4, k.seatB(b.stoneB));
    XorBit(w0, k.phase(b.phase), bit);
    XorBit(w1, k.player(b.seat), bit);
    XorBit(w2, k.toPlace(b.toPlace), bit);
    XorBit(w3, k.seatA(b.stoneA), bit);
    XorBit(w4, k.seatB(b.stoneB), bit);
    XorBit(w5, k.result(b.result), bit);
  }

  /** A change of one state field exchanges its two keys in the signature. */
  lemma {:induction false} FieldChangesSignature(k: LaneKeys, b: Board, p: Phase, seat: Seat, s: Stone, r: Result)
    ensures Signature(k, b.(phase := p)) == Xor(Xor(Signature(k, b), k.phase(b.phase)), k.phase(p))
    ensures Signature(k, b.(seat := seat)) == Xor(Xor(Signature(k, b), k.player(b.seat)), k.player(seat))
    ensures Signature(k, b.(toPlace := s)) == Xor(Xor(Signature(k, b), k.toPlace(b.toPlace)), k.toPlace(s))
    ensures Signature(k, b.(stoneA := s)) == Xor(Xor(Signature(k, b), k.seatA(b.stoneA)), k.seatA(s))
    ensures Signature(k, b.(stoneB := s)) == Xor(Xor(Signature(k, b), k.seatB(b.stoneB)), k.seatB(s))
    ensures Signature(k, b.(result := r)) == Xor(Xor(Signature(k, b), k.result(b.result)), k.result(r))
  {
    forall b': Board, x: Word, y: Word | Exchanged(k, b, b', x, y)
      ensures Signature(k, b') == Xor(Xor(Signature(k, b), x), y)
    {
      KeysExchanged(k, b, b', x, y);
    }
    hide Xor, Signature;
    assert Exchanged(k, b, b.(phase := p), k.phase(b.phase), k.phase(p));
    assert Exchanged(k, b, b.(seat := seat), k.player(b.seat), k.player(seat));
    assert Exchanged(k, b, b.(toPlace := s), k.toPlace(b.toPlace), k.toPlace(s));
    assert Exchanged(k, b, b.(stoneA := s), k.seatA(b.stoneA), k.seatA(s));
    assert Exchanged(k, b, b.(stoneB := s), k.seatB(b.stoneB), k.seatB(s));
    assert Exchanged(k, b, b.(result := r), k.result(b.result), k.result(r));
  }

  ghost predicate Exchanged(k: LaneKeys, b: Board, b': Board, x: Word, y: Word) {
    || (b' == b.(phase := b'.phase) && x == k.phase(b.phase) && y == k.phase(b'.phase))
    || (b' == b.(seat := b'.seat) && x == k.player(b.seat) && y == k.player(b'.seat))
    || (b' == b.(toPlace := b'.toPlace) && x == k.toPlace(b.toPlace) && y == k.toPlace(b'.toPlace))
    || (b' == b.(stoneA := b'.stoneA) && x == k.seatA(b.stoneA) && y == k.seatA(b'.stoneA))
    || (b' == b.(stoneB := b'.stoneB) && x == k.seatB(b.stoneB) && y == k.seatB(b'.stoneB))
    || (b' == b.(result := b'.result) && x == k.result(b.result) && y == k.result(b'.result))
  }

  lemma {:induction false} KeysExchanged(k: LaneKeys, b: Board, b': Board, x: Word, y: Word)
    requires Exchanged(k, b, b', x, y)
    ensures Signature(k, b') == Xor(Xor(Signature(k, b), x), y)
  {
    hide Signature, Xor, Exchanged;
    forall bit: nat ensures bit in Signature(k, b') <==> bit in Xor(Xor(Signature(k, b), x), y) {
      BitExchanged(k, b, b', x, y, bit);
      XorBit(Signature(k, b), x, bit);
      XorBit(Xor(Signature(k, b), x), y, bit);
    }
  }

  lemma {:induction false} BitExchanged(k: LaneKeys, b: Board, b': Board, x: Word, y: Word, bit: nat)
    requires Exchanged(k, b, b', x, y)
    ensures bit in Signature(k, b') <==> ((bit in Signature(k, b)) != (bit in x)) != (bit in y)
  {
    hide Signature, CellsWithBit;
    SignatureBits(k, b, bit);
    SignatureBits(k, b', bit);
    var m := KeyCount(k, b, bit);
    assert KeyCount(k, b', bit) + One(bit in x) == m + One(bit in y);
  }

  class Board15 {
    const keys: seq<LaneKeys>
    const cells: array<Stone>
    var phase: Phase
    var currentPlayer: Seat
    var stoneToPlace: Stone
    var moveCount: int
    var seatAStone: Stone
    var seatBStone: Stone
    var result: Result
    var zobrists: seq<Word>

    function View(): Board
      requires cells.Length == CELLS
      reads this, cells
    {
      Board(cells[..], phase, currentPlayer, stoneToPlace, moveCount, seatAStone, seatBStone, result)
    }

    ghost predicate Valid()
      reads this, cells
    {
      && cells.Length == CELLS == N * N
      && Shaped(N, View())
      && |zobrists| == |keys|
      && forall h :: 0 <= h < |keys| ==> zobrists[h] == Signature(keys[h], View())
    }

    method CheckWin(p: Point, s: Colour) returns (r: bool)
      requires cells.Length == CELLS == N * N && Inside(N, p) && At(N, cells[..], p) == s
      ensures r <==> FiveThrough(N, cells[..], p, s)
    {
      for i := 0 to 4
        invariant forall d: Direction :: d < i ==> !FiveOnLine(N, cells[..], p, d, s)
      {
        var ahead := CountInDirection(N, cells[..], p, i, true, s);
        var back := CountInDirection(N, cells[..], p, i, false, s);
        RunsDecideFive(N, cells[..], p, i, s, back, ahead);
        if 1 + ahead + back == 5 {
          return true;
        }
      }
      return false;
    }

    method TransitionPhase()
      requires cells.Length == CELLS
      modifies `phase, `currentPlayer, `stoneToPlace
      ensures View() == Transition(old(View()))
    {
      if phase == PlaceInitialThree {
        if moveCount == 1 {
          stoneToPlace := White;
        } else if moveCount == 2 {
          stoneToPlace := Black;
        } else if moveCount == 3 {
          phase, stoneToPlace, currentPlayer := Swap2Decision, Empty, B;
        }
      } else if phase == Swap2PlaceTwo {
        if moveCount == 4 {
          stoneToPlace := Black;
        } else if moveCount == 5 {
          phase, stoneToPlace, currentPlayer := ChooseColor, Empty, A;
        }
      } else if phase == Standard {
        stoneToPlace := if stoneToPlace == Black then White else Black;
        currentPlayer := if currentPlayer == A then B else A;
      }
    }

    method ToggleHash(a: int)
      requires cells.Length == CELLS && |zobrists| == |keys|
      modifies `zobrists
      ensures |zobrists| == |keys|
      ensures forall h :: 0 <= h < |keys| ==> zobrists[h] == Toggle(keys[h], View(), a, old(zobrists)[h])
    {
      for h := 0 to |keys|
        invariant |zobrists| == |keys|
        invariant forall i :: 0 <= i < h ==> zobrists[i] == Toggle(keys[i], View(), a, old(zobrists)[i])
        invariant forall i :: h <= i < |keys| ==> zobrists[i] == old(zobrists)[i]
      {
        var k, w := keys[h], zobrists[h];
        if 0 <= a < CELLS {
          w := Xor(w, k.cell(a, cells[a]));
        }
        w := Xor(w, k.phase(phase));
        w := Xor(w, k.player(currentPlayer));
        w := Xor(w, k.toPlace(stoneToPlace));
        w := Xor(w, k.seatA(seatAStone));
        w := Xor(w, k.seatB(seatBStone));
        w := Xor(w, k.result(result));
        zobrists := zobrists[h := w];
      }
    }

    constructor (keys: seq<LaneKeys>)
      ensures Valid() && this.keys == keys && View() == Initial(N) && fresh(cells)
    {
      this.keys := keys;
      cells := new Stone[CELLS](_ => Empty);
      phase, currentPlayer, stoneToPlace, moveCount := PlaceInitialThree, A, Black, 0;
      seatAStone, seatBStone, result := Empty, Empty, Undetermined;
      zobrists := seq(|keys|, _ => {});
      new;
      for a := 0 to CELLS
        invariant cells[..] == Initial(N).cells && View() == Initial(N) && |zobrists| == |keys|
        invariant forall h :: 0 <= h < |keys| ==> zobrists[h] == CellsSig(keys[h], cells[..], a)
      {
        XorCell(a);
      }
      ToggleHash(-1);
    }

    method XorCell(a: nat)
      requires cells.Length == CELLS && a < CELLS && |zobrists| == |keys|
      modifies `zobrists
      ensures |zobrists| == |keys|
      ensures forall h :: 0 <= h < |keys| ==> zobrists[h] == Xor(old(zobrists)[h], keys[h].cell(a, cells[a]))
    {
      for h := 0 to |keys|
        invariant |zobrists| == |keys|
        invariant forall i :: 0 <= i < h ==> zobrists[i] == Xor(old(zobrists)[i], keys[i].cell(a, cells[a]))
        invariant forall i :: h <= i < |keys| ==> zobrists[i] == old(zobrists)[i]
      {
        zobrists := zobrists[h := Xor(zobrists[h], keys[h].cell(a, cells[a]))];
      }
    }

    /** The legal actions in ascending order. */
    method GetLegalActions() returns (actions: seq<nat>)
      requires cells.Length == CELLS == N * N
      ensures forall a: int :: a in actions <==> LegalAction(N, View(), a)
      ensures forall i, j :: 0 <= i < j < |actions| ==> actions[i] < actions[j]
    {
      actions := ListLegalActions(N, View());
    }

    method Apply(a: int)
      requires Valid()
      modifies this, cells
      ensures Valid() && View() == ApplyCpp(N, old(View()), a)
      ensures a >= CELLS && old(result) == Undetermined ==> ControlDone(N, old(View()), a, View())
    {
      if result != Undetermined {
        return;
      }
      ApplyTouchesOneCell(N, View(), a);
      hide ApplyCpp, Xor, Signature, Toggle, ControlDone;
      ghost var before := View();
      ToggleHash(a);
      if 0 <= a < CELLS {
        ApplyPlacement(a);
      } else {
        ApplyControl(a);
      }
      ghost var after := View();
      ToggleHash(a);
      assert after == ApplyCpp(N, before, a);
      forall h | 0 <= h < |keys| ensures zobrists[h] == Signature(keys[h], after) {
        ToggleAround(keys[h], before, after, a);
      }
    }

    method ApplyPlacement(a: nat)
      requires cells.Length == CELLS == N * N && Shaped(N, View()) && a < CELLS && result == Undetermined
      modifies `phase, `currentPlayer, `stoneToPlace, `moveCount, `result, cells
      ensures View() == ApplyCpp(N, old(View()), a)
    {
      hide FiveThrough, Transition;
      cells[a] := stoneToPlace;
      moveCount := moveCount + 1;
      if phase == Standard {
        var p := PointOf(N, a);
        var wins := CheckWin(p, stoneToPlace);
        if wins {
          result := if seatAStone == stoneToPlace then PlayerAWin else PlayerBWin;
        } else if moveCount == CELLS {
          result := Draw;
        }
      }
      TransitionPhase();
    }

    method ApplyControl(a: int)
      requires cells.Length == CELLS == N * N && Shaped(N, View()) && !(0 <= a < CELLS) && result == Undetermined
      modifies `phase, `currentPlayer, `stoneToPlace, `seatAStone, `seatBStone
      ensures View() == ApplyCpp(N, old(View()), a)
      ensures a >= CELLS ==> ControlDone(N, old(View()), a, View())
    {
      if a == 225 {
        seatBStone, seatAStone := White, Black;
        phase, stoneToPlace, currentPlayer := Standard, White, B;
      } else if a == 226 {
        seatBStone, seatAStone := Black, White;
        phase, stoneToPlace, currentPlayer := Standard, White, A;
      } else if a == 227 {
        phase, stoneToPlace, currentPlayer := Phase.Swap2PlaceTwo, White, B;
      } else if a == 228 {
        seatAStone, seatBStone := White, Black;
        phase, stoneToPlace, currentPlayer := Standard, White, A;
      } else if a == 229 {
        seatAStone, seatBStone := Black, White;
        phase, stoneToPlace, currentPlayer := Standard, White, B;
      }
    }

    method Retract(a: int)
      requires Valid()
      modifies this, cells
      ensures Valid() && View() == Swap2.Retract(N, old(View()), a)
    {
      hide Xor, Signature, Toggle;
      ghost var before := View();
      ToggleHash(a);
      if !(0 <= a < CELLS) {
        result := Undetermined;
        if 225 <= a <= 227 {
          seatAStone, seatBStone := Empty, Empty;
          phase, stoneToPlace, currentPlayer := Swap2Decision, Empty, B;
        } else if 228 <= a <= 229 {
          seatAStone, seatBStone := Empty, Empty;
          phase, stoneToPlace, currentPlayer := ChooseColor, Empty, A;
        }
      } else {
        result := Undetermined;
        cells[a] := Empty;
        moveCount := moveCount - 1;
        RewindPlacement();
      }
      ghost var after := View();
      ToggleHash(a);
      assert after == Swap2.Retract(N, before, a);
      forall h | 0 <= h < |keys| ensures zobrists[h] == Signature(keys[h], after) {
        ToggleAround(keys[h], before, after, a);
      }
    }

    method RewindPlacement()
      requires cells.Length == CELLS
      modifies `phase, `currentPlayer, `stoneToPlace
      ensures View() == RetractPlacement(old(View()))
    {
      if moveCount == 0 {
        phase, stoneToPlace, currentPlayer := PlaceInitialThree, Black, A;
      } else if moveCount == 1 {
        phase, stoneToPlace, currentPlayer := PlaceInitialThree, White, A;
      } else if moveCount == 2 {
        phase, stoneToPlace, currentPlayer := PlaceInitialThree, Black, A;
      } else if moveCount == 3 {
        if phase == Phase.Swap2PlaceTwo {
          stoneToPlace, currentPlayer := White, B;
        } else {
          stoneToPlace, currentPlayer := White, OtherSeat(currentPlayer);
        }
      } else if moveCount == 4 && phase == ChooseColor {
        phase, stoneToPlace, currentPlayer := Phase.Swap2PlaceTwo, Black, B;
      } else {
        stoneToPlace, currentPlayer := Flip(stoneToPlace), OtherSeat(currentPlayer);
      }
    }
  }

  /** Applying and then retracting a legal action on the object itself restores
      every field, the signature included. */
  method ApplyThenRetract(board: Board15, a: int)
    requires board.Valid() && Inv(N, board.View()) && LegalAction(N, board.View(), a)
    modifies board, board.cells
    ensures board.Valid() && board.View() == old(board.View()) && board.zobrists == old(board.zobrists)
  {
    RetractUndoesApply(N, board.View(), a);
    board.Apply(a);
    board.Retract(a);
  }

  /** Stones, phase and seat A's colour determine the whole state that a run
      reaches: runs that agree on these three, in whatever order they played
      their moves, agree on every field and on every lane of the signature. */
  lemma {:induction false} TransposedRunsAgree(k: LaneKeys, run: seq<int>, run': seq<int>)
    requires LegalRun(N, Initial(N), run) && LegalRun(N, Initial(N), run')
    requires ApplyAll(N, Initial(N), run).cells == ApplyAll(N, Initial(N), run').cells
    requires ApplyAll(N, Initial(N), run).phase == ApplyAll(N, Initial(N), run').phase
    requires ApplyAll(N, Initial(N), run).stoneA == ApplyAll(N, Initial(N), run').stoneA
    ensures ApplyAll(N, Initial(N), run) == ApplyAll(N, Initial(N), run')
    ensures Signature(k, ApplyAll(N, Initial(N), run)) == Signature(k, ApplyAll(N, Initial(N), run'))
  {
    hide HasFive, Signature, LegalRun, ApplyAll, Initial;
    StateIsDetermined(N, ApplyAll(N, Initial(N), run), ApplyAll(N, Initial(N), run'));
  }

  lemma {:induction false} StateIsDetermined(n: nat, b: Board, b': Board)
    requires Inv(n, b) && Inv(n, b') && b.cells == b'.cells && b.phase == b'.phase && b.stoneA == b'.stoneA
    ensures b == b'
  {
    hide HasFive;
    assert b.placed == b'.placed;
    assert b.result == b'.result;
  }
}
