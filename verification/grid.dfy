/** The board geometry shared by both rules engines and by the threat solver:
    points, the four line directions, and the exact-five rule. A board of side
    n is a row-major sequence of n*n stones. */
module Grid {

  /** The side and the number of cells of the engine's board; the referee's
      side is a parameter. */
  const N: nat := 15
  const CELLS: nat := 225

  datatype Stone = Empty | Black | White

  /** A stone that is actually on the board. */
  type Colour = s: Stone | s != Empty witness Black

  function Other(s: Colour): Colour {
    if s == Black then White else Black
  }

  datatype Point = Point(x: int, y: int)

  /** Index into the direction table (1,0), (0,1), (1,1), (1,-1). */
  type Direction = d: nat | d < 4

  /** The point k steps from p along d; negative k steps backwards. */
  function Go(p: Point, d: Direction, k: int): Point {
    Point(if d == 1 then p.x else p.x + k,
          if d == 0 then p.y else if d == 3 then p.y - k else p.y + k)
  }

  /** k steps along d, or along its opposite. */
  function Toward(p: Point, d: Direction, forward: bool, k: int): Point {
    Go(p, d, if forward then k else -k)
  }

  predicate Inside(n: nat, p: Point) {
    0 <= p.x < n && 0 <= p.y < n
  }

  lemma LaterRow(i: nat, j: nat, n: nat)
    requires i < j
    ensures i * n + n <= j * n
  {
    assert j * n == i * n + (j - i) * n;
    assert (j - i) * n == n + (j - i - 1) * n;
  }

  function Index(n: nat, p: Point): (a: nat)
    requires Inside(n, p)
    ensures a < n * n
  {
    LaterRow(p.y, n, n);
    p.y * n + p.x
  }

  lemma RowInRange(n: nat, a: nat)
    requires 0 < n && a < n * n
    ensures a / n < n
  {
    assert a == (a / n) * n + a % n;
    if n < a / n {
      LaterRow(n, a / n, n);
      assert false;
    }
  }

  function PointOf(n: nat, a: nat): (p: Point)
    requires a < n * n
    ensures Inside(n, p) && Index(n, p) == a
  {
    assert n > 0;
    RowInRange(n, a);
    Point(a % n, a / n)
  }

  lemma IndexInjective(n: nat, p: Point, q: Point)
    requires Inside(n, p) && Inside(n, q) && Index(n, p) == Index(n, q)
    ensures p == q
  {
    if p.y < q.y {
      LaterRow(p.y, q.y, n);
    } else if q.y < p.y {
      LaterRow(q.y, p.y, n);
    }
  }

  lemma PointOfIndex(n: nat, p: Point)
    requires Inside(n, p)
    ensures PointOf(n, Index(n, p)) == p
  {
    IndexInjective(n, p, PointOf(n, Index(n, p)));
  }

  /** The stone at p; everything off the board reads as empty. */
  function At(n: nat, c: seq<Stone>, p: Point): Stone
    requires |c| == n * n
  {
    if Inside(n, p) then c[Index(n, p)] else Empty
  }

  lemma AtUpdate(n: nat, c: seq<Stone>, a: nat, s: Stone, p: Point)
    requires |c| == n * n && a < n * n
    ensures At(n, c[a := s], p) == if p == PointOf(n, a) then s else At(n, c, p)
  {
    if Inside(n, p) && p != PointOf(n, a) && Index(n, p) == a {
      IndexInjective(n, p, PointOf(n, a));
    }
  }

  /** Placing a stone of one colour on an empty cell does not change which
      cells hold the other colour. */
  lemma OtherColourUnchanged(n: nat, c: seq<Stone>, a: nat, s: Colour, t: Colour, p: Point)
    requires |c| == n * n && a < n * n && c[a] == Empty && s != t
    ensures At(n, c[a := s], p) == t <==> At(n, c, p) == t
  {
    AtUpdate(n, c, a, s, p);
  }

  /** A run of exactly five stones s begins at p along d: five in a row and
      no sixth at either end. */
  predicate ExactFive(n: nat, c: seq<Stone>, p: Point, d: Direction, s: Colour)
    requires |c| == n * n
  {
    && (forall k :: 0 <= k < 5 ==> At(n, c, Go(p, d, k)) == s)
    && At(n, c, Go(p, d, -1)) != s
    && At(n, c, Go(p, d, 5)) != s
  }

  /** Somewhere on the whole board there is an exact five of s. */
  ghost predicate HasFive(n: nat, c: seq<Stone>, s: Colour)
    requires |c| == n * n
  {
    exists p: Point, d: Direction :: ExactFive(n, c, p, d, s)
  }

  /** The cell in a column and a row, counted along the rows, holds s. */
  predicate Holds(n: nat, c: seq<Stone>, x: int, y: int, s: Colour)
    requires |c| == n * n
  {
    0 <= x < n && 0 <= y < n && (CellInRange(n, x, y); c[y * n + x]) == s
  }

  lemma CellInRange(n: nat, x: int, y: int)
    requires 0 <= x < n && 0 <= y < n
    ensures 0 <= y * n + x < n * n
  {
    LaterRow(y, n, n);
  }

  /** Five and not six from a cell on, by column and row. */
  ghost predicate FiveInARow(n: nat, c: seq<Stone>, x: int, y: int, dx: int, dy: int, s: Colour)
    requires |c| == n * n
  {
    && Holds(n, c, x, y, s) && Holds(n, c, x + dx, y + dy, s) && Holds(n, c, x + 2 * dx, y + 2 * dy, s)
    && Holds(n, c, x + 3 * dx, y + 3 * dy, s) && Holds(n, c, x + 4 * dx, y + 4 * dy, s)
    && !Holds(n, c, x - dx, y - dy, s) && !Holds(n, c, x + 5 * dx, y + 5 * dy, s)
  }

  /** In a row, in a column, or on one of the two diagonals. */
  ghost predicate FiveFromCell(n: nat, c: seq<Stone>, x: int, y: int, s: Colour)
    requires |c| == n * n
  {
    || FiveInARow(n, c, x, y, 1, 0, s) || FiveInARow(n, c, x, y, 0, 1, s)
    || FiveInARow(n, c, x, y, 1, 1, s) || FiveInARow(n, c, x, y, 1, -1, s)
  }

  /** A five on the board is just that, somewhere. */
  lemma {:induction false} FiveMeans(n: nat, c: seq<Stone>, s: Colour)
    requires |c| == n * n
    ensures HasFive(n, c, s) <==> exists x: int, y: int :: FiveFromCell(n, c, x, y, s)
  {
    hide ExactFive, FiveFromCell;
    if HasFive(n, c, s) {
      var p: Point, d: Direction :| ExactFive(n, c, p, d, s);
      FiveFrom(n, c, p.x, p.y, s);
    }
    if x: int, y: int :| FiveFromCell(n, c, x, y, s) {
      FiveFrom(n, c, x, y, s);
      var d: Direction :| ExactFive(n, c, Point(x, y), d, s);
    }
  }

  lemma {:induction false} FiveFrom(n: nat, c: seq<Stone>, x: int, y: int, s: Colour)
    requires |c| == n * n
    ensures FiveFromCell(n, c, x, y, s) <==> exists d: Direction :: ExactFive(n, c, Point(x, y), d, s)
  {
    FiveAlong(n, c, x, y, 0, 1, 0, s);
    FiveAlong(n, c, x, y, 1, 0, 1, s);
    FiveAlong(n, c, x, y, 2, 1, 1, s);
    FiveAlong(n, c, x, y, 3, 1, -1, s);
    hide ExactFive, FiveInARow;
    if d: Direction :| ExactFive(n, c, Point(x, y), d, s) {
      assert d == 0 || d == 1 || d == 2 || d == 3;
    }
  }

  lemma {:induction false} FiveAlong(n: nat, c: seq<Stone>, x: int, y: int, d: Direction, dx: int, dy: int, s: Colour)
    requires |c| == n * n && (dx, dy) == (if d == 1 then 0 else 1, if d == 0 then 0 else if d == 3 then -1 else 1)
    ensures ExactFive(n, c, Point(x, y), d, s) <==> FiveInARow(n, c, x, y, dx, dy, s)
  {
    hide At, Holds, Go, ExactFive;
    FiveSteps(n, c, Point(x, y), d, s);
    StepHolds(n, c, x, y, d, -1, x - dx, y - dy, s);
    StepHolds(n, c, x, y, d, 0, x, y, s);
    StepHolds(n, c, x, y, d, 1, x + dx, y + dy, s);
    StepHolds(n, c, x, y, d, 2, x + 2 * dx, y + 2 * dy, s);
    StepHolds(n, c, x, y, d, 3, x + 3 * dx, y + 3 * dy, s);
    StepHolds(n, c, x, y, d, 4, x + 4 * dx, y + 4 * dy, s);
    StepHolds(n, c, x, y, d, 5, x + 5 * dx, y + 5 * dy, s);
  }

  lemma FiveSteps(n: nat, c: seq<Stone>, p: Point, d: Direction, s: Colour)
    requires |c| == n * n
    ensures ExactFive(n, c, p, d, s) <==>
      && At(n, c, Go(p, d, 0)) == s && At(n, c, Go(p, d, 1)) == s && At(n, c, Go(p, d, 2)) == s
      && At(n, c, Go(p, d, 3)) == s && At(n, c, Go(p, d, 4)) == s
      && At(n, c, Go(p, d, -1)) != s && At(n, c, Go(p, d, 5)) != s
  {
    hide At, Go;
  }

  lemma StepHolds(n: nat, c: seq<Stone>, x: int, y: int, d: Direction, k: int, x': int, y': int, s: Colour)
    requires |c| == n * n
    requires x' == (if d == 1 then x else x + k) && y' == if d == 0 then y else if d == 3 then y - k else y + k
    ensures At(n, c, Go(Point(x, y), d, k)) == s <==> Holds(n, c, x', y', s)
  {
    AtHolds(n, c, Go(Point(x, y), d, k), s);
  }

  lemma AtHolds(n: nat, c: seq<Stone>, p: Point, s: Colour)
    requires |c| == n * n
    ensures At(n, c, p) == s <==> Holds(n, c, p.x, p.y, s)
  {
  }

  /** Some exact five of s runs along d and contains p. */
  predicate FiveOnLine(n: nat, c: seq<Stone>, p: Point, d: Direction, s: Colour)
    requires |c| == n * n
  {
    exists j :: -5 < j <= 0 && ExactFive(n, c, Go(p, d, j), d, s)
  }

  predicate FiveThrough(n: nat, c: seq<Stone>, p: Point, s: Colour)
    requires |c| == n * n
  {
    exists d: Direction :: FiveOnLine(n, c, p, d, s)
  }

  /** a is a winning square of s: it is empty and a stone s there is part of
      an exact five. */
  ghost predicate MakesFive(n: nat, c: seq<Stone>, a: int, s: Colour)
    requires |c| == n * n
  {
    && 0 <= a < n * n && c[a] == Empty
    && FiveThrough(n, c[a := s], PointOf(n, a), s)
  }

  /** On a board without a five of s, a stone s completes a five somewhere
      exactly when the square it is played on is a winning square: looking
      only along the lines through the last move misses nothing. */
  lemma {:induction false} LastMoveDecides(n: nat, c: seq<Stone>, a: nat, s: Colour)
    requires |c| == n * n && a < n * n && c[a] == Empty && !HasFive(n, c, s)
    ensures HasFive(n, c[a := s], s) <==> MakesFive(n, c, a, s)
  {
    var c1, q := c[a := s], PointOf(n, a);
    if HasFive(n, c1, s) {
      var p: Point, d: Direction :| ExactFive(n, c1, p, d, s);
      FiveContains(n, c, a, s, p, d);
      var k :| 0 <= k < 5 && Go(p, d, k) == q;
      assert Go(q, d, -k) == p;
      assert FiveOnLine(n, c1, q, d, s);
    }
  }

  /** An exact five that appears with a stone at a contains a. */
  lemma {:induction false} FiveContains(n: nat, c: seq<Stone>, a: nat, s: Colour, p: Point, d: Direction)
    requires |c| == n * n && a < n * n && c[a] == Empty
    requires ExactFive(n, c[a := s], p, d, s) && !ExactFive(n, c, p, d, s)
    ensures exists k :: 0 <= k < 5 && Go(p, d, k) == PointOf(n, a)
  {
    if forall k :: 0 <= k < 5 ==> Go(p, d, k) != PointOf(n, a) {
      forall k | -1 <= k <= 5
        ensures At(n, c[a := s], Go(p, d, k)) == s <==> At(n, c, Go(p, d, k)) == s
      {
        AtUpdate(n, c, a, s, Go(p, d, k));
      }
      assert false;
    }
  }

  /** A stone of the other colour neither makes nor breaks a five of t. */
  lemma {:induction false} OtherColourKeepsFives(n: nat, c: seq<Stone>, a: nat, s: Colour, t: Colour)
    requires |c| == n * n && a < n * n && c[a] == Empty && s != t
    ensures forall p: Point, d: Direction :: ExactFive(n, c[a := s], p, d, t) <==> ExactFive(n, c, p, d, t)
    ensures HasFive(n, c[a := s], t) <==> HasFive(n, c, t)
  {
    forall p: Point, d: Direction
      ensures ExactFive(n, c[a := s], p, d, t) <==> ExactFive(n, c, p, d, t)
    {
      forall k: int
        ensures At(n, c[a := s], Go(p, d, k)) == t <==> At(n, c, Go(p, d, k)) == t
      {
        OtherColourUnchanged(n, c, a, s, t, Go(p, d, k));
      }
    }
    if HasFive(n, c[a := s], t) {
      var p: Point, d: Direction :| ExactFive(n, c[a := s], p, d, t);
      assert ExactFive(n, c, p, d, t);
    }
    if HasFive(n, c, t) {
      var p: Point, d: Direction :| ExactFive(n, c, p, d, t);
      assert ExactFive(n, c[a := s], p, d, t);
    }
  }

  /** A stone of the other colour at a changes the winning squares of t only
      by taking a away. */
  lemma {:induction false} OtherColourTakesOneSquare(n: nat, c: seq<Stone>, a: nat, s: Colour, t: Colour, w: int)
    requires |c| == n * n && a < n * n && c[a] == Empty && s != t
    ensures MakesFive(n, c[a := s], w, t) <==> w != a && MakesFive(n, c, w, t)
  {
    if 0 <= w < n * n && w != a && c[w] == Empty {
      assert c[a := s][w := t] == c[w := t][a := s];
      OtherColourKeepsFives(n, c[w := t], a, s, t);
      SameFivesThrough(n, c[w := t], c[w := t][a := s], PointOf(n, w), t);
    }
  }

  lemma SameFivesThrough(n: nat, c: seq<Stone>, c1: seq<Stone>, p: Point, t: Colour)
    requires |c| == |c1| == n * n
    requires forall q: Point, d: Direction :: ExactFive(n, c1, q, d, t) <==> ExactFive(n, c, q, d, t)
    ensures FiveThrough(n, c1, p, t) <==> FiveThrough(n, c, p, t)
  {
    forall d: Direction ensures FiveOnLine(n, c1, p, d, t) <==> FiveOnLine(n, c, p, d, t) {}
  }

  // ----- Run lengths -------------------------------------------------

  /** Exactly m stones s follow p in the given sense before the run stops. */
  ghost predicate RunFrom(n: nat, c: seq<Stone>, p: Point, d: Direction, forward: bool, s: Colour, m: nat)
    requires |c| == n * n
  {
    && (forall k :: 1 <= k <= m ==> At(n, c, Toward(p, d, forward, k)) == s)
    && At(n, c, Toward(p, d, forward, m + 1)) != s
  }

  lemma RunUnique(n: nat, c: seq<Stone>, p: Point, d: Direction, forward: bool, s: Colour, m: nat, m': nat)
    requires |c| == n * n
    requires RunFrom(n, c, p, d, forward, s, m) && RunFrom(n, c, p, d, forward, s, m')
    ensures m == m'
  {
  }

  lemma GoGo(p: Point, d: Direction, j: int)
    ensures forall i: int :: Go(Go(p, d, j), d, i) == Go(p, d, i + j)
    ensures Go(p, d, 0) == p
  {
  }

  lemma {:induction false} RunsMakeFive(n: nat, c: seq<Stone>, p: Point, d: Direction, s: Colour, back: nat, ahead: nat)
    requires |c| == n * n && At(n, c, p) == s && 1 + back + ahead == 5
    requires RunFrom(n, c, p, d, false, s, back) && RunFrom(n, c, p, d, true, s, ahead)
    ensures ExactFive(n, c, Go(p, d, -(back as int)), d, s)
  {
    hide Go, At;
    var q := Go(p, d, -(back as int));
    GoGo(p, d, -(back as int));
    forall i | 0 <= i < 5 ensures At(n, c, Go(q, d, i)) == s {
      if i < back {
        assert At(n, c, Toward(p, d, false, back - i)) == s;
      } else if i > back {
        assert At(n, c, Toward(p, d, true, i - back)) == s;
      }
    }
  }

  lemma {:induction false} FiveGivesRuns(n: nat, c: seq<Stone>, p: Point, d: Direction, s: Colour, k: nat)
    requires |c| == n * n && k < 5 && ExactFive(n, c, Go(p, d, -(k as int)), d, s)
    ensures RunFrom(n, c, p, d, false, s, k) && RunFrom(n, c, p, d, true, s, 4 - k)
  {
    hide Go, At;
    var q := Go(p, d, -(k as int));
    GoGo(p, d, -(k as int));
    forall i | 1 <= i <= k ensures At(n, c, Toward(p, d, false, i)) == s {
      assert At(n, c, Go(q, d, k - i)) == s;
    }
    forall i | 1 <= i <= 4 - k ensures At(n, c, Toward(p, d, true, i)) == s {
      assert At(n, c, Go(q, d, k + i)) == s;
    }
    assert Toward(p, d, false, k + 1) == Go(q, d, -1);
    assert Toward(p, d, true, 4 - k + 1) == Go(q, d, 5);
  }

  /** The two run lengths on either side of p decide whether the run through
      p is an exact five. */
  lemma {:induction false} RunsDecideFive(n: nat, c: seq<Stone>, p: Point, d: Direction, s: Colour, back: nat,
                                          ahead: nat)
    requires |c| == n * n && At(n, c, p) == s
    requires RunFrom(n, c, p, d, false, s, back) && RunFrom(n, c, p, d, true, s, ahead)
    ensures 1 + back + ahead == 5 <==> FiveOnLine(n, c, p, d, s)
  {
    if 1 + back + ahead == 5 {
      RunsMakeFive(n, c, p, d, s, back, ahead);
    }
    if FiveOnLine(n, c, p, d, s) {
      var j :| -5 < j <= 0 && ExactFive(n, c, Go(p, d, j), d, s);
      FiveGivesRuns(n, c, p, d, s, -j);
      RunUnique(n, c, p, d, false, s, back, -j);
      RunUnique(n, c, p, d, true, s, ahead, 4 + j);
    }
  }

  /** The run lengths around a square do not depend on the square itself. */
  lemma {:induction false} RunIgnoresCentre(n: nat, c: seq<Stone>, a: nat, t: Stone, d: Direction, forward: bool,
                                            s: Colour, m: nat)
    requires |c| == n * n && a < n * n
    requires RunFrom(n, c, PointOf(n, a), d, forward, s, m)
    ensures RunFrom(n, c[a := t], PointOf(n, a), d, forward, s, m)
  {
    var p := PointOf(n, a);
    forall k | 1 <= k <= m + 1
      ensures At(n, c[a := t], Toward(p, d, forward, k)) == At(n, c, Toward(p, d, forward, k))
    {
      AtUpdate(n, c, a, t, Toward(p, d, forward, k));
    }
  }

  /** Steps before a walk from p must leave the board. */
  function StepsLeft(n: nat, p: Point, d: Direction, forward: bool): nat {
    if !Inside(n, p) then 0
    else if d == 1 then (if forward then n - p.y else p.y + 1)
    else if forward then n - p.x else p.x + 1
  }

  /** Length of the run of s that starts one step from p. */
  method CountInDirection(n: nat, c: seq<Stone>, p: Point, d: Direction, forward: bool, s: Colour)
    returns (count: nat)
    requires |c| == n * n
    ensures RunFrom(n, c, p, d, forward, s, count)
  {
    count := 0;
    var q := Toward(p, d, forward, 1);
    while Inside(n, q) && c[Index(n, q)] == s
      invariant q == Toward(p, d, forward, count + 1)
      invariant forall k :: 1 <= k <= count ==> At(n, c, Toward(p, d, forward, k)) == s
      decreases StepsLeft(n, q, d, forward)
    {
      count := count + 1;
      q := Toward(q, d, forward, 1);
    }
  }
}
