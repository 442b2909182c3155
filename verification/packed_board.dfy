/** The packed training representation of a position: nine bit planes of the
    board, eight bits to a byte, most significant bit first. A byte is
    represented by the set of its one-bits. */
module PackedBoard {
  import opened Grid
  import opened Swap2

  const PLANES: nat := 9
  const BITS: nat := 2025
  const BYTES: nat := 254

  type Byte = bits: set<nat> | forall b :: b in bits ==> b < 8

  predicate FeatureBit(b: Board, channel: nat, cell: nat)
    requires |b.cells| == CELLS && cell < CELLS
  {
    var current := if b.toPlace == Empty then Black else b.toPlace;
    var opponent := if current == Black then White else Black;
    match channel
    case 0 => b.cells[cell] == current
    case 1 => b.cells[cell] == opponent
    case 2 => b.toPlace == Black
    case 3 => b.toPlace == White
    case 4 => b.phase == PlaceInitialThree
    case 5 => b.phase == Swap2Decision
    case 6 => b.phase == Swap2PlaceTwo
    case 7 => b.phase == ChooseColor
    case 8 => b.phase == Standard
    case _ => false
  }

  function ByteOf(bit: nat): nat { bit / 8 }
  function Shift(bit: nat): nat { 7 - bit % 8 }

  lemma BitPlaces(j: nat, k: nat)
    ensures ByteOf(j) == ByteOf(k) && Shift(j) == Shift(k) ==> j == k
    ensures j < BITS ==> ByteOf(j) < BYTES
  {
  }

  /** The bit number of a cell in a plane. */
  lemma PlaneBit(channel: nat, cell: nat)
    requires cell < CELLS && channel < PLANES
    ensures var bit := channel * CELLS + cell; bit < BITS && bit / CELLS == channel && bit % CELLS == cell
  {
  }

  /** Bit by bit the packed array is the planes one after the other, and the
      bits after the last plane are zero. */
  ghost predicate Packs(packed: seq<Byte>, b: Board)
    requires |b.cells| == CELLS
  {
    && |packed| == BYTES
    && (forall bit: nat :: bit < BITS ==> (BitSet(packed, bit) <==> FeatureBit(b, bit / CELLS, bit % CELLS)))
    && forall bit: nat :: BITS <= bit && ByteOf(bit) < BYTES ==> !BitSet(packed, bit)
  }

  predicate BitSet(packed: seq<Byte>, bit: nat) {
    ByteOf(bit) < |packed| && Shift(bit) in packed[ByteOf(bit)]
  }

  method PackBoard(b: Board) returns (packed: array<Byte>)
    requires |b.cells| == CELLS
    ensures fresh(packed) && Packs(packed[..], b)
  {
    hide FeatureBit, ByteOf, Shift;
    packed := new Byte[BYTES](_ => {});
    for bit := 0 to BITS
      invariant forall j: nat :: j < bit ==> (BitSet(packed[..], j) <==> FeatureBit(b, j / CELLS, j % CELLS))
      invariant forall j: nat :: bit <= j && ByteOf(j) < BYTES ==> !BitSet(packed[..], j)
    {
      var channel, cell := bit / CELLS, bit % CELLS;
      BitPlaces(bit, bit);
      ghost var before := packed[..];
      if FeatureBit(b, channel, cell) {
        ShiftFits(bit);
        packed[ByteOf(bit)] := packed[ByteOf(bit)] + {Shift(bit)};
      }
      forall j: nat | j != bit ensures BitSet(packed[..], j) <==> BitSet(before, j) {
        BitPlaces(j, bit);
      }
    }
  }

  lemma ShiftFits(bit: nat)
    ensures Shift(bit) < 8
  {
  }

  /** The bit of a cell in a plane, by byte and place. */
  predicate BitAt(packed: seq<Byte>, plane: nat, cell: nat)
    requires |packed| == BYTES && plane < PLANES && cell < CELLS
  {
    7 - (225 * plane + cell) % 8 in packed[(225 * plane + cell) / 8]
  }

  /** The planes one by one: the stones of the colour to place, those of the other
      colour, whether black or white is to place, and the five phases. Where there
      is no stone to place, black counts as the colour to place. */
  lemma {:induction false} PlanesMean(packed: seq<Byte>, b: Board, cell: nat)
    requires |b.cells| == CELLS && Packs(packed, b) && cell < CELLS
    ensures BitAt(packed, 0, cell) <==> b.cells[cell] == if b.toPlace == White then White else Black
    ensures BitAt(packed, 1, cell) <==> b.cells[cell] == if b.toPlace == White then Black else White
    ensures BitAt(packed, 2, cell) <==> b.toPlace == Black
    ensures BitAt(packed, 3, cell) <==> b.toPlace == White
    ensures BitAt(packed, 4, cell) <==> b.phase == PlaceInitialThree
    ensures BitAt(packed, 5, cell) <==> b.phase == Swap2Decision
    ensures BitAt(packed, 6, cell) <==> b.phase == Swap2PlaceTwo
    ensures BitAt(packed, 7, cell) <==> b.phase == ChooseColor
    ensures BitAt(packed, 8, cell) <==> b.phase == Standard
  {
    forall plane: nat | plane < PLANES ensures BitAt(packed, plane, cell) <==> FeatureBit(b, plane, cell) {
      BitOfPlane(packed, b, plane, cell);
    }
    hide BitAt, Packs;
    assert BitAt(packed, 0, cell) <==> FeatureBit(b, 0, cell);
    assert BitAt(packed, 1, cell) <==> FeatureBit(b, 1, cell);
    assert BitAt(packed, 2, cell) <==> FeatureBit(b, 2, cell);
    assert BitAt(packed, 3, cell) <==> FeatureBit(b, 3, cell);
    assert BitAt(packed, 4, cell) <==> FeatureBit(b, 4, cell);
    assert BitAt(packed, 5, cell) <==> FeatureBit(b, 5, cell);
    assert BitAt(packed, 6, cell) <==> FeatureBit(b, 6, cell);
    assert BitAt(packed, 7, cell) <==> FeatureBit(b, 7, cell);
    assert BitAt(packed, 8, cell) <==> FeatureBit(b, 8, cell);
  }

  lemma BitOfPlane(packed: seq<Byte>, b: Board, plane: nat, cell: nat)
    requires |b.cells| == CELLS && Packs(packed, b) && plane < PLANES && cell < CELLS
    ensures BitAt(packed, plane, cell) <==> FeatureBit(b, plane, cell)
  {
    hide FeatureBit;
    PlaneBit(plane, cell);
    assert BitSet(packed, plane * CELLS + cell) <==> FeatureBit(b, plane, cell);
  }

  /** The packed form determines the stones, the phase and the stone to place. */
  lemma {:induction false} PackingLosesNothing(packed: seq<Byte>, b: Board, b': Board)
    requires |b.cells| == CELLS == |b'.cells| && Packs(packed, b) && Packs(packed, b')
    ensures b.cells == b'.cells && b.phase == b'.phase && b.toPlace == b'.toPlace
  {
    hide BitSet;
    forall channel: nat, cell: nat | channel < PLANES && cell < CELLS
      ensures FeatureBit(b, channel, cell) <==> FeatureBit(b', channel, cell)
    {
      PlaneBit(channel, cell);
      assert BitSet(packed, channel * CELLS + cell) <==> FeatureBit(b, channel, cell);
    }
    SameFeatures(b, b');
  }

  lemma {:induction false} SameFeatures(b: Board, b': Board)
    requires |b.cells| == CELLS == |b'.cells|
    requires forall channel: nat, cell: nat :: channel < PLANES && cell < CELLS ==>
      (FeatureBit(b, channel, cell) <==> FeatureBit(b', channel, cell))
    ensures b.cells == b'.cells && b.phase == b'.phase && b.toPlace == b'.toPlace
  {
    assert FeatureBit(b, 2, 0) <==> FeatureBit(b', 2, 0);
    assert FeatureBit(b, 3, 0) <==> FeatureBit(b', 3, 0);
    assert FeatureBit(b, 4, 0) <==> FeatureBit(b', 4, 0);
    assert FeatureBit(b, 5, 0) <==> FeatureBit(b', 5, 0);
    assert FeatureBit(b, 6, 0) <==> FeatureBit(b', 6, 0);
    assert FeatureBit(b, 7, 0) <==> FeatureBit(b', 7, 0);
    assert b.toPlace == b'.toPlace;
    forall cell: nat | cell < CELLS ensures b.cells[cell] == b'.cells[cell] {
      assert FeatureBit(b, 0, cell) <==> FeatureBit(b', 0, cell);
      assert FeatureBit(b, 1, cell) <==> FeatureBit(b', 1, cell);
    }
  }
}
