/** What one more defender stone can do. Under the exact-five rule a stone next
    to one's own open end turns the winning square into an overline, and a line
    of fours that the counter-win refuted now goes through: such a stone can
    give the attacker a win by continuous fours that was not there before. A
    stone that completes no five and stands at the end of no five the defender
    could still make cannot. */
module DefenderStone {
  import opened Grid
  import opened Swap2
  import opened VcfTheory
  import opened VcfGame

  // ----- Harmless stones ----------------------------------------------

  /** The defender could still complete the five cells from p along d. */
  predicate OpenWindow(n: nat, c: seq<Stone>, p: Point, d: Direction, def: Colour)
    requires |c| == n * n
  {
    forall k :: 0 <= k < 5 ==> Inside(n, Go(p, d, k)) && At(n, c, Go(p, d, k)) != Other(def)
  }

  lemma OpenWindowBefore(n: nat, c: seq<Stone>, p: Point, d: Direction, def: Colour, a: nat, s: Stone)
    requires |c| == n * n && Legal(c, a) && OpenWindow(n, c[a := s], p, d, def)
    ensures OpenWindow(n, c, p, d, def)
  {
    hide Go;
    forall k | 0 <= k < 5 ensures At(n, c, Go(p, d, k)) != Other(def) {
      AtUpdate(n, c, a, s, Go(p, d, k));
    }
  }

  lemma FiveIsOpen(n: nat, c: seq<Stone>, p: Point, d: Direction, def: Colour)
    requires |c| == n * n && ExactFive(n, c, p, d, def)
    ensures OpenWindow(n, c, p, d, def)
  {
    hide Go;
  }

  /** r lies at an end of the five cells from p along d. */
  predicate EndsAt(n: nat, p: Point, d: Direction, r: nat)
    requires r < n * n
  {
    Go(p, d, -1) == PointOf(n, r) || Go(p, d, 5) == PointOf(n, r)
  }

  /** No five the defender could still complete ends next to r. */
  ghost predicate OffEnds(n: nat, c: seq<Stone>, r: nat, def: Colour)
    requires |c| == n * n && r < |c|
  {
    forall p: Point, d: Direction :: OpenWindow(n, c, p, d, def) ==> !EndsAt(n, p, d, r)
  }

  lemma {:induction false} OffEndsStays(n: nat, c: seq<Stone>, r: nat, def: Colour, a: nat, s: Stone)
    requires |c| == n * n && r < |c| && OffEnds(n, c, r, def) && Legal(c, a)
    ensures OffEnds(n, c[a := s], r, def)
  {
    hide OpenWindow, EndsAt;
    forall p: Point, d: Direction | OpenWindow(n, c[a := s], p, d, def) ensures !EndsAt(n, p, d, r) {
      OpenWindowBefore(n, c, p, d, def, a, s);
    }
  }

  /** A stone outside a five and not at its ends changes nothing about it. */
  lemma {:induction false} OutsideKeepsFive(n: nat, c: seq<Stone>, r: nat, s: Colour, p: Point, d: Direction)
    requires |c| == n * n && r < |c| && c[r] == Empty && !EndsAt(n, p, d, r)
    requires forall k :: 0 <= k < 5 ==> Go(p, d, k) != PointOf(n, r)
    ensures ExactFive(n, c[r := s], p, d, s) <==> ExactFive(n, c, p, d, s)
  {
    hide Go, At;
    forall k | -1 <= k <= 5 ensures At(n, c[r := s], Go(p, d, k)) == At(n, c, Go(p, d, k)) {
      AtUpdate(n, c, r, s, Go(p, d, k));
    }
  }

  /** An empty cell is no part of a five. */
  lemma EmptyIsOutside(n: nat, c: seq<Stone>, r: nat, s: Colour, p: Point, d: Direction)
    requires |c| == n * n && r < |c| && c[r] == Empty && ExactFive(n, c, p, d, s)
    ensures forall k :: 0 <= k < 5 ==> Go(p, d, k) != PointOf(n, r)
  {
    hide Go;
  }

  /** The five that v completes along d from p, in the two orders of two stones. */
  ghost predicate FiveOf(n: nat, c: seq<Stone>, v: nat, def: Colour, d: Direction, j: int)
    requires |c| == n * n && v < |c|
  {
    -5 < j <= 0 && ExactFive(n, c[v := def], Go(PointOf(n, v), d, j), d, def)
  }

  lemma MakesFiveBy(n: nat, c: seq<Stone>, v: nat, def: Colour)
    requires |c| == n * n && Legal(c, v)
    ensures MakesFive(n, c, v, def) <==> exists d: Direction, j: int :: FiveOf(n, c, v, def, d, j)
  {
    hide Go, ExactFive;
    if MakesFive(n, c, v, def) {
      var d: Direction :| FiveOnLine(n, c[v := def], PointOf(n, v), d, def);
      var j :| -5 < j <= 0 && ExactFive(n, c[v := def], Go(PointOf(n, v), d, j), d, def);
      assert FiveOf(n, c, v, def, d, j);
    }
    if d: Direction, j: int :| FiveOf(n, c, v, def, d, j) {
      assert FiveOnLine(n, c[v := def], PointOf(n, v), d, def);
    }
  }

  /** Some five of v does not end next to r. */
  ghost predicate FiveOffEnds(n: nat, c: seq<Stone>, v: nat, r: nat, def: Colour)
    requires |c| == n * n && v < |c| && r < |c|
  {
    exists d: Direction, j: int :: FiveOf(n, c, v, def, d, j) && !EndsAt(n, Go(PointOf(n, v), d, j), d, r)
  }

  /** With one more stone on r, a square v wins for its owner exactly if it did so
      by a five that does not end next to r, or now does so by a five through r.
      So the stone takes a winning square away exactly if every five of that
      square ends next to it and they make none together. */
  lemma {:induction false} OneMoreStone(n: nat, c: seq<Stone>, v: nat, r: nat, def: Colour)
    requires |c| == n * n && Legal(c, v) && Legal(c, r) && v != r
    ensures MakesFive(n, c[r := def], v, def) <==>
      FiveOffEnds(n, c, v, r, def) || CreatedWin(n, c[r := def], r, v, def)
  {
    hide MakesFive, Go, ExactFive, EndsAt;
    var q, c1, both := PointOf(n, v), c[r := def], c[v := def][r := def];
    assert c1[v := def] == both;
    MakesFiveBy(n, c1, v, def);
    if MakesFive(n, c1, v, def) {
      var d: Direction, j: int :| FiveOf(n, c1, v, def, d, j);
      var p := Go(q, d, j);
      if WithinFive(p, d, PointOf(n, r)) {
        assert FiveThroughBoth(n, both, q, PointOf(n, r), d, def);
      } else {
        FiveEndsClear(n, both, p, d, r, def);
        OutsideKeepsFive(n, c[v := def], r, def, p, d);
        assert FiveOf(n, c, v, def, d, j);
      }
    }
    if FiveOffEnds(n, c, v, r, def) {
      var d: Direction, j: int :| FiveOf(n, c, v, def, d, j) && !EndsAt(n, Go(q, d, j), d, r);
      EmptyIsOutside(n, c[v := def], r, def, Go(q, d, j), d);
      OutsideKeepsFive(n, c[v := def], r, def, Go(q, d, j), d);
      assert FiveOf(n, c1, v, def, d, j);
    }
    if CreatedWin(n, c1, r, v, def) {
      var d: Direction :| FiveThroughBoth(n, both, q, PointOf(n, r), d, def);
      var j :| -5 < j <= 0 && ExactFive(n, both, Go(q, d, j), d, def);
      assert FiveOf(n, c1, v, def, d, j);
    }
  }

  lemma FiveEndsClear(n: nat, c: seq<Stone>, p: Point, d: Direction, r: nat, s: Colour)
    requires |c| == n * n && r < |c| && c[r] == s && ExactFive(n, c, p, d, s)
    ensures !EndsAt(n, p, d, r)
  {
  }

  /** So a stone off the ends takes no winning square away. */
  lemma {:induction false} OffEndsSpoilsNoFive(n: nat, c: seq<Stone>, r: nat, def: Colour, v: nat)
    requires |c| == n * n && Legal(c, r) && OffEnds(n, c, r, def) && v != r && MakesFive(n, c, v, def)
    ensures MakesFive(n, c[r := def], v, def)
  {
    hide MakesFive, Go, OpenWindow, EndsAt, ExactFive;
    assert Legal(c, v) by { MakesFiveIsLegal(n, c, v, def); }
    MakesFiveBy(n, c, v, def);
    var d: Direction, j: int :| FiveOf(n, c, v, def, d, j);
    var p := Go(PointOf(n, v), d, j);
    FiveIsOpen(n, c[v := def], p, d, def);
    OpenWindowBefore(n, c, p, d, def, v, def);
    assert FiveOffEnds(n, c, v, r, def);
    OneMoreStone(n, c, v, r, def);
  }

  lemma MakesFiveIsLegal(n: nat, c: seq<Stone>, v: nat, def: Colour)
    requires |c| == n * n && MakesFive(n, c, v, def)
    ensures Legal(c, v)
  {
  }

  /** A square that wins neither alone nor after another stone is not made to win
      by that stone. */
  lemma {:induction false} StaysQuiet(n: nat, c: seq<Stone>, r: nat, s: nat, def: Colour)
    requires |c| == n * n && Legal(c, r) && Legal(c, s) && r != s
    requires !MakesFive(n, c, r, def) && !MakesFive(n, c[r := def], s, def)
    ensures !MakesFive(n, c[s := def], r, def)
  {
    hide MakesFive, Go, ExactFive, EndsAt;
    if MakesFive(n, c[s := def], r, def) {
      OneMoreStone(n, c, r, s, def);
      MakesFiveBy(n, c, r, def);
      var both := c[s := def][r := def];
      var d: Direction :| FiveThroughBoth(n, both, PointOf(n, r), PointOf(n, s), d, def);
      var j :| -5 < j <= 0 && ExactFive(n, both, Go(PointOf(n, r), d, j), d, def) &&
        WithinFive(Go(PointOf(n, r), d, j), d, PointOf(n, s));
      var p := Go(PointOf(n, r), d, j);
      var k :| 0 <= k < 5 && Go(p, d, k) == PointOf(n, s);
      assert both == c[r := def][s := def];
      GoBackTo(p, d, k);
      assert FiveOf(n, c[r := def], s, def, d, -k);
      MakesFiveBy(n, c[r := def], s, def);
      assert false;
    }
  }

  lemma GoBackTo(p: Point, d: Direction, k: int)
    ensures Go(Go(p, d, k), d, -k) == p
  {
  }

  lemma FewerEmpties(c: seq<Stone>, a: nat, s: Colour)
    requires Legal(c, a)
    ensures Empties(c[a := s]) < Empties(c)
  {
  }

  /** A defender stone that completes no five and stands at the end of none that
      the defender could still make gives the attacker nothing: a win by
      continuous fours that is there with the stone is there without it. */
  lemma {:induction false} RemoteStoneExposesNothing(n: nat, c: seq<Stone>, r: nat, att: Colour)
    requires |c| == n * n && Legal(c, r) && OffEnds(n, c, r, Other(att)) && !MakesFive(n, c, r, Other(att))
    requires Vcf(n, c[r := Other(att)], att)
    ensures Vcf(n, c, att)
    decreases Empties(c)
  {
    hide MakesFive, OffEnds, Empties;
    var def, c' := Other(att), c[r := Other(att)];
    var a: nat :| Legal(c', a) && VcfMove(n, c', att, a);
    OtherColourTakesOneSquare(n, c, r, def, att, a);
    if !MakesFive(n, c', a, att) {
      var c1 := c[a := att];
      assert c'[a := att] == c1[r := def];
      OffEndsStays(n, c, r, def, a, att);
      OtherColourTakesOneSquare(n, c, a, att, def, r);
      FewerEmpties(c, a, att);
      RemoteReplies(n, c1, r, att);
    }
    assert VcfMove(n, c, att, a);
  }

  lemma {:induction false} RemoteReplies(n: nat, c: seq<Stone>, r: nat, att: Colour)
    requires |c| == n * n && Legal(c, r) && OffEnds(n, c, r, Other(att)) && !MakesFive(n, c, r, Other(att))
    requires HasWin(n, c[r := Other(att)], att) && EveryReplyLoses(n, c[r := Other(att)], att)
    ensures HasWin(n, c, att) && EveryReplyLoses(n, c, att)
    decreases Empties(c)
  {
    hide MakesFive, OffEnds, Empties, Vcf;
    var def := Other(att);
    var w: nat :| MakesFive(n, c[r := def], w, att);
    OtherColourTakesOneSquare(n, c, r, def, att, w);
    forall s: nat | Legal(c, s) ensures !MakesFive(n, c, s, def) && Vcf(n, c[s := def], att) {
      if s == r {
        WinningSquareWins(n, c[r := def], att, w);
      } else {
        assert Legal(c[r := def], s);
        assert c[r := def][s := def] == c[s := def][r := def];
        if MakesFive(n, c, s, def) {
          OffEndsSpoilsNoFive(n, c, r, def, s);
          assert false;
        }
        OffEndsStays(n, c, r, def, s, def);
        StaysQuiet(n, c, r, s, def);
        FewerEmpties(c, s, def);
        RemoteStoneExposesNothing(n, c[s := def], r, att);
      }
    }
  }

  // ----- A stone that exposes -----------------------------------------

  /** White holds four in the top row from the edge; black, the attacker, holds
      an open three in row 7 and two stones in far corners. */
  predicate WhiteAt(p: Point) {
    p.y == 0 && 0 <= p.x <= 3
  }

  predicate BlackAt(p: Point) {
    (p.y == 7 && 4 <= p.x <= 6) || p == Point(0, 14) || p == Point(14, 14)
  }

  function StoneOf(p: Point): Stone {
    if WhiteAt(p) then White else if BlackAt(p) then Black else Empty
  }

  function Before(): (c: seq<Stone>)
    ensures |c| == N * N
  {
    seq(N * N, a requires 0 <= a < N * N => StoneOf(PointOf(N, a)))
  }

  lemma BeforeAt(p: Point)
    ensures At(N, Before(), p) == StoneOf(p)
  {
    if Inside(N, p) {
      PointOfIndex(N, p);
    }
  }

  /** White's winning square, the careless reply beside it, and the attack. */
  function Gap(): nat { Index(N, Point(4, 0)) }
  function Beside(): nat { Index(N, Point(5, 0)) }
  function Attack(): nat { Index(N, Point(7, 7)) }

  lemma Squares()
    ensures PointOf(N, Gap()) == Point(4, 0) && PointOf(N, Beside()) == Point(5, 0)
    ensures PointOf(N, Attack()) == Point(7, 7)
    ensures Before()[Gap()] == Before()[Beside()] == Before()[Attack()] == Empty
  {
    PointOfIndex(N, Point(4, 0));
    PointOfIndex(N, Point(5, 0));
    PointOfIndex(N, Point(7, 7));
    BeforeAt(Point(4, 0));
    BeforeAt(Point(5, 0));
    BeforeAt(Point(7, 7));
  }

  /** Five in a row that hold at most one stone outside a row of stones lie in
      that row. */
  lemma FiveIsHorizontal(p: Point, d: Direction, q: Point, y: int)
    requires forall k :: 0 <= k < 5 ==> Go(p, d, k) == q || Go(p, d, k).y == y
    ensures d == 0 && (p.y == y || p.y == q.y)
  {
    assert Go(p, d, 0) == q || Go(p, d, 0).y == y;
    assert Go(p, d, 1) == q || Go(p, d, 1).y == y;
    assert Go(p, d, 2) == q || Go(p, d, 2).y == y;
  }

  predicate BlackOr(p: Point, q: Point) {
    p == q || BlackAt(p)
  }

  /** Nowhere do four of five cells in a row hold black stones. */
  lemma FewBlacksInRow(p: Point, d: Direction, q: Point)
    ensures !(BlackOr(Go(p, d, 0), q) && BlackOr(Go(p, d, 1), q) && BlackOr(Go(p, d, 2), q) && BlackOr(Go(p, d, 3), q)
              && BlackOr(Go(p, d, 4), q))
  {
  }

  lemma FewWhitesInRow(p: Point, d: Direction)
    ensures !(WhiteAt(Go(p, d, 0)) && WhiteAt(Go(p, d, 1)) && WhiteAt(Go(p, d, 4)))
  {
  }

  /** Black cannot win at once. */
  lemma {:induction false} NoBlackWin()
    ensures !HasWin(N, Before(), Black)
  {
    var c := Before();
    forall w: nat ensures !MakesFive(N, c, w, Black) {
      if MakesFive(N, c, w, Black) {
        var q := PointOf(N, w);
        var d: Direction :| FiveOnLine(N, c[w := Black], q, d, Black);
        var j :| -5 < j <= 0 && ExactFive(N, c[w := Black], Go(q, d, j), d, Black);
        var p := Go(q, d, j);
        forall k | 0 <= k < 5 ensures BlackOr(Go(p, d, k), q) {
          assert At(N, c[w := Black], Go(p, d, k)) == Black;
          AtUpdate(N, c, w, Black, Go(p, d, k));
          BeforeAt(Go(p, d, k));
        }
        FewBlacksInRow(p, d, q);
        assert false;
      }
    }
  }

  lemma {:induction false} WhiteWinsAtGap()
    ensures MakesFive(N, Before(), Gap(), White)
  {
    Squares();
    var c, p := Before(), Point(0, 0);
    forall k: int ensures At(N, c[Gap() := White], Go(p, 0, k)) == if 0 <= k <= 4 then White else Empty {
      AtUpdate(N, c, Gap(), White, Go(p, 0, k));
      BeforeAt(Go(p, 0, k));
    }
    assert ExactFive(N, c[Gap() := White], Go(Point(4, 0), 0, -4), 0, White);
    assert FiveOnLine(N, c[Gap() := White], Point(4, 0), 0, White);
  }

  /** With White's win standing, no attack of Black's works. */
  lemma {:induction false} NoVcfBefore()
    ensures !Vcf(N, Before(), Black)
  {
    hide MakesFive;
    Squares();
    NoBlackWin();
    WhiteWinsAtGap();
    var c := Before();
    forall a: nat | a < |c| && Legal(c, a) ensures !VcfMove(N, c, Black, a) {
      if a == Gap() {
        forall d: Direction, k: int | -4 <= k <= 4 && k != 0 ensures At(N, c, Go(PointOf(N, a), d, k)) != Black {
          BeforeAt(Go(PointOf(N, a), d, k));
        }
        IsolatedMoveThreatensNothing(N, c, a, Black);
      } else {
        CounterWinRefutes(N, c, Black, a, Gap());
      }
    }
    NoMoveNoVcf(N, c, Black);
  }

  function After(): (c: seq<Stone>)
    ensures |c| == N * N
  {
    Squares();
    Before()[Beside() := White]
  }

  lemma AfterAt(p: Point)
    ensures At(N, After(), p) == if p == Point(5, 0) then White else StoneOf(p)
  {
    Squares();
    BeforeAt(p);
    AtUpdate(N, Before(), Beside(), White, p);
  }

  predicate WhiteAfter(p: Point, q: Point) {
    p == q || WhiteAt(p) || p == Point(5, 0)
  }

  /** Five in a row among those cells always have a sixth at an end. */
  lemma SixthStone(p: Point, q: Point)
    requires q.x >= 0 && !WhiteAt(q) && q != Point(5, 0)
    requires forall k :: 0 <= k < 5 ==> WhiteAfter(Go(p, 0, k), q)
    ensures WhiteAfter(Go(p, 0, -1), q) || WhiteAfter(Go(p, 0, 5), q)
  {
    assert WhiteAfter(Go(p, 0, 0), q) && WhiteAfter(Go(p, 0, 1), q) && WhiteAfter(Go(p, 0, 2), q);
    assert WhiteAfter(Go(p, 0, 3), q) && WhiteAfter(Go(p, 0, 4), q);
  }

  lemma SixInTopRow(p: Point, q: Point, w: nat)
    requires w < N * N && q == PointOf(N, w) && After()[w] == Empty
    requires forall k :: 0 <= k < 5 ==> WhiteAfter(Go(p, 0, k), q)
    ensures !ExactFive(N, After()[w := White], p, 0, White)
  {
    AfterAt(q);
    SixthStone(p, q);
    AtUpdate(N, After(), w, White, Go(p, 0, -1));
    AtUpdate(N, After(), w, White, Go(p, 0, 5));
    AfterAt(Go(p, 0, -1));
    AfterAt(Go(p, 0, 5));
  }

  lemma WhiteFiveCells(w: nat, p: Point, d: Direction)
    requires w < N * N && ExactFive(N, After()[w := White], p, d, White)
    ensures forall k :: 0 <= k < 5 ==> WhiteAfter(Go(p, d, k), PointOf(N, w))
  {
    forall k | 0 <= k < 5 ensures WhiteAfter(Go(p, d, k), PointOf(N, w)) {
      AtUpdate(N, After(), w, White, Go(p, d, k));
      AfterAt(Go(p, d, k));
    }
  }

  /** The fifth stone of White leaves no winning square: the gap now makes six. */
  lemma {:induction false} NoWhiteWinAfter()
    ensures !HasWin(N, After(), White)
  {
    hide At, ExactFive, StoneOf;
    var c := After();
    forall w: nat ensures !MakesFive(N, c, w, White) {
      if MakesFive(N, c, w, White) {
        var q := PointOf(N, w);
        var d: Direction :| FiveOnLine(N, c[w := White], q, d, White);
        var j :| -5 < j <= 0 && ExactFive(N, c[w := White], Go(q, d, j), d, White);
        var p := Go(q, d, j);
        WhiteFiveCells(w, p, d);
        assert WhiteAfter(Go(p, d, 0), q) && WhiteAfter(Go(p, d, 1), q) && WhiteAfter(Go(p, d, 2), q);
        FiveIsHorizontal(p, d, q, 0);
        SixInTopRow(p, q, w);
        assert false;
      }
    }
  }

  lemma {:induction false} BlackMakesFive(x: int)
    requires x == 3 || x == 8
    ensures var w := Index(N, Point(x, 7)); w != Attack() && MakesFive(N, After()[Attack() := Black], w, Black)
  {
    Squares();
    var c, w := After()[Attack() := Black], Index(N, Point(x, 7));
    PointOfIndex(N, Point(x, 7));
    AfterAt(Point(x, 7));
    AfterAt(Point(7, 7));
    AtUpdate(N, After(), Attack(), Black, Point(x, 7));
    var p := Point(if x == 3 then 3 else 4, 7);
    forall k | -1 <= k <= 5 ensures At(N, c[w := Black], Go(p, 0, k)) == Black <==> 0 <= k <= 4 {
      AtUpdate(N, c, w, Black, Go(p, 0, k));
      AtUpdate(N, After(), Attack(), Black, Go(p, 0, k));
      AfterAt(Go(p, 0, k));
    }
    assert ExactFive(N, c[w := Black], Go(Point(x, 7), 0, p.x - x), 0, Black);
    assert FiveOnLine(N, c[w := Black], Point(x, 7), 0, Black);
  }

  // ----- How the position arises ----------------------------------------

  /** Only stones of the position, and perhaps not all of them yet. */
  ghost predicate PartOfBefore(c: seq<Stone>) {
    |c| == N * N && forall p: Point :: At(N, c, p) == Empty || At(N, c, p) == StoneOf(p)
  }

  lemma {:induction false} PartHasNoFive(c: seq<Stone>, s: Colour)
    requires PartOfBefore(c)
    ensures !HasFive(N, c, s) && Empty in c
  {
    Squares();
    assert At(N, c, PointOf(N, Gap())) == Empty;
    forall p: Point, d: Direction ensures !ExactFive(N, c, p, d, s) {
      FewBlacksInRow(p, d, p);
      FewWhitesInRow(p, d);
    }
  }

  /** Squares of the position, colour after colour. */
  ghost predicate InTurn(c: seq<Stone>, moves: seq<int>, s: Colour)
    requires |c| == N * N
    decreases |moves|
  {
    moves == [] || (
      && 0 <= moves[0] < |c| && c[moves[0]] == Empty && StoneOf(PointOf(N, moves[0])) == s
      && InTurn(c[moves[0] := s], moves[1..], Other(s)))
  }

  function AllPlaced(c: seq<Stone>, moves: seq<int>): (r: seq<Stone>)
    requires |c| == N * N && forall k :: 0 <= k < |moves| ==> 0 <= moves[k] < |c|
    ensures |r| == |c|
    decreases |moves|
  {
    if moves == [] then c else AllPlaced(c[moves[0] := StoneOf(PointOf(N, moves[0]))], moves[1..])
  }

  lemma {:induction false} PlayedInTurn(b: Board, moves: seq<int>)
    requires InPlay(N, b) && b.toPlace != Empty && PartOfBefore(b.cells) && InTurn(b.cells, moves, b.toPlace)
    requires forall k :: 0 <= k < |moves| ==> 0 <= moves[k] < N * N
    ensures LegalRun(N, b, moves)
    ensures var r := ApplyAll(N, b, moves);
      && InPlay(N, r) && r.cells == AllPlaced(b.cells, moves)
      && r.toPlace == if |moves| % 2 == 0 then b.toPlace else Other(b.toPlace)
    decreases |moves|
  {
    hide HasFive, MakesFive, ApplyCpp, StoneOf, Swap2.Inv, PartOfBefore, LegalAction, PointOf, At, Index;
    hide LegalRun, ApplyAll;
    if moves == [] {
      NothingPlayed(N, b);
    } else {
      var a := moves[0];
      OneInTurn(b, a);
      PlayedInTurn(ApplyCpp(N, b, a), moves[1..]);
      OneMoreAction(N, b, a, moves[1..]);
      assert [a] + moves[1..] == moves;
    }
  }

  lemma NothingPlayed(n: nat, b: Board)
    requires Swap2.Inv(n, b)
    ensures LegalRun(n, b, []) && ApplyAll(n, b, []) == b
  {
  }

  lemma {:induction false} OneInTurn(b: Board, a: nat)
    requires InPlay(N, b) && b.toPlace != Empty && PartOfBefore(b.cells) && Legal(b.cells, a)
    requires StoneOf(PointOf(N, a)) == b.toPlace
    ensures Shaped(N, b) && LegalAction(N, b, a)
    ensures var b1 := ApplyCpp(N, b, a);
      InPlay(N, b1) && b1.cells == b.cells[a := b.toPlace] && b1.toPlace == Other(b.toPlace) && PartOfBefore(b1.cells)
  {
    hide HasFive, MakesFive, ApplyCpp, StoneOf, Swap2.Inv;
    var c1 := b.cells[a := b.toPlace];
    forall p: Point ensures At(N, c1, p) == Empty || At(N, c1, p) == StoneOf(p) {
      AtUpdate(N, b.cells, a, b.toPlace, p);
    }
    PartHasNoFive(b.cells, b.toPlace);
    PartHasNoFive(c1, b.toPlace);
    LastMoveDecides(N, b.cells, a, b.toPlace);
    StandardMove(N, b, a);
  }

  /** The opening: three stones, and the second player chooses white. */
  lemma {:induction false} OpeningRun(n: nat, a0: nat, a1: nat, a2: nat)
    requires n >= 5 && a0 < n * n && a1 < n * n && a2 < n * n && a0 != a1 && a0 != a2 && a1 != a2
    ensures var run := [a0, a1, a2, Swap2ChooseWhite(n)];
      && LegalRun(n, Initial(n), run)
      && ApplyAll(n, Initial(n), run) ==
         Board(Initial(n).cells[a0 := Black][a1 := White][a2 := Black],
               Standard, B, White, 3, Black, White, Undetermined)
  {
    hide FiveThrough, Swap2.Inv;
    var b0, choose := Initial(n), Swap2ChooseWhite(n);
    var b1 := ApplyCpp(n, b0, a0);
    ApplyKeepsInv(n, b0, a0);
    var b2 := ApplyCpp(n, b1, a1);
    ApplyKeepsInv(n, b1, a1);
    var b3 := ApplyCpp(n, b2, a2);
    ApplyKeepsInv(n, b2, a2);
    OneMoreAction(n, b3, choose, []);
    OneMoreAction(n, b2, a2, [choose]);
    OneMoreAction(n, b1, a1, [a2, choose]);
    OneMoreAction(n, b0, a0, [a1, a2, choose]);
    assert [a0] + [a1, a2, choose] == [a0, a1, a2, choose];
    assert [a1] + [a2, choose] == [a1, a2, choose];
    assert [a2] + [choose] == [a2, choose];
    assert [choose] + [] == [choose];
  }

  lemma OneMoreAction(n: nat, b: Board, a: int, rest: seq<int>)
    requires Swap2.Inv(n, b) && LegalAction(n, b, a)
    requires Swap2.Inv(n, ApplyCpp(n, b, a)) ==> LegalRun(n, ApplyCpp(n, b, a), rest)
    ensures LegalRun(n, b, [a] + rest)
    ensures Swap2.Inv(n, ApplyCpp(n, b, a))
    ensures ApplyAll(n, b, [a] + rest) == ApplyAll(n, ApplyCpp(n, b, a), rest)
  {
    hide Swap2.Inv, ApplyCpp, LegalAction;
    ApplyKeepsInv(n, b, a);
    assert ([a] + rest)[1..] == rest;
  }

  function Sq(x: nat, y: nat): nat {
    15 * y + x
  }

  lemma SquareOf(a: nat)
    requires a < N * N
    ensures a == Sq(PointOf(N, a).x, PointOf(N, a).y)
  {
  }

  function Opening(): seq<int> {
    [Sq(4, 7), Sq(0, 0), Sq(5, 7), Swap2ChooseWhite(N)]
  }

  function Middle(): seq<int> {
    [Sq(1, 0), Sq(6, 7), Sq(2, 0), Sq(0, 14), Sq(3, 0), Sq(14, 14)]
  }

  lemma {:induction false} PlacedCells(c: seq<Stone>, moves: seq<int>, a: nat)
    requires |c| == N * N && a < |c| && forall k :: 0 <= k < |moves| ==> 0 <= moves[k] < |c|
    ensures AllPlaced(c, moves)[a] == if a in moves then StoneOf(PointOf(N, a)) else c[a]
    decreases |moves|
  {
    hide StoneOf, PointOf;
    if moves != [] {
      PlacedCells(c[moves[0] := StoneOf(PointOf(N, moves[0]))], moves[1..], a);
    }
  }

  function AfterOpening(): (c: seq<Stone>)
    ensures |c| == N * N
  {
    Initial(N).cells[Sq(4, 7) := Black][Sq(0, 0) := White][Sq(5, 7) := Black]
  }

  lemma {:induction false} MiddleInTurn()
    ensures InTurn(AfterOpening(), Middle(), White)
  {
    hide PointOf, Index, PartOfBefore;
    forall k | 0 <= k < 6 ensures Middle()[k] == Sq(PointOf(N, Middle()[k]).x, PointOf(N, Middle()[k]).y) {
      SquareOf(Middle()[k]);
    }
    var m, c0 := Middle(), AfterOpening();
    var c1 := c0[m[0] := White];
    var c2 := c1[m[1] := Black];
    var c3 := c2[m[2] := White];
    var c4 := c3[m[3] := Black];
    var c5 := c4[m[4] := White];
    assert InTurn(c5, [m[5]], Black);
    assert [m[4], m[5]][1..] == [m[5]] && InTurn(c4, [m[4], m[5]], White);
    assert [m[3], m[4], m[5]][1..] == [m[4], m[5]] && InTurn(c3, [m[3], m[4], m[5]], Black);
    assert [m[2], m[3], m[4], m[5]][1..] == [m[3], m[4], m[5]] && InTurn(c2, [m[2], m[3], m[4], m[5]], White);
    assert m[1..][1..] == [m[2], m[3], m[4], m[5]] && InTurn(c1, m[1..], Black);
  }

  lemma {:induction false} OpeningIsPart()
    ensures PartOfBefore(AfterOpening())
  {
    hide PointOf, Index;
    SquareOf(Sq(4, 7));
    SquareOf(Sq(0, 0));
    SquareOf(Sq(5, 7));
    var e := Initial(N).cells;
    forall p: Point ensures At(N, AfterOpening(), p) == Empty || At(N, AfterOpening(), p) == StoneOf(p) {
      AtUpdate(N, e[Sq(4, 7) := Black][Sq(0, 0) := White], Sq(5, 7), Black, p);
      AtUpdate(N, e[Sq(4, 7) := Black], Sq(0, 0), White, p);
      AtUpdate(N, e, Sq(4, 7), Black, p);
    }
  }

  lemma {:induction false} MiddleEndsBefore()
    ensures AllPlaced(AfterOpening(), Middle()) == Before()
  {
    hide AllPlaced, AfterOpening, Before, Middle;
    MiddleOnBoard();
    forall a: nat | a < N * N ensures AllPlaced(AfterOpening(), Middle())[a] == Before()[a] {
      PlacedCells(AfterOpening(), Middle(), a);
      ListedStones(a);
    }
  }

  lemma MiddleOnBoard()
    ensures forall k :: 0 <= k < |Middle()| ==> 0 <= Middle()[k] < N * N
  {
  }

  lemma ListedStones(a: nat)
    requires a < N * N
    ensures Before()[a] == if a in Middle() then StoneOf(PointOf(N, a)) else AfterOpening()[a]
  {
    hide PointOf, Index;
    SquareOf(a);
  }

  /** The position arises in play: nine legal stones, and white is to move. */
  lemma {:induction false} BeforeArises()
    ensures LegalRun(N, Initial(N), Opening() + Middle())
    ensures var b := ApplyAll(N, Initial(N), Opening() + Middle());
      InPlay(N, b) && b.cells == Before() && b.toPlace == White
  {
    hide StoneOf, PartOfBefore, InTurn, AllPlaced, Before, Initial, LegalRun, ApplyAll, InPlay, Opening, Middle;
    hide AfterOpening;
    OpeningReached();
    var b := ApplyAll(N, Initial(N), Opening());
    OpeningIsPart();
    MiddleInTurn();
    MiddleOnBoard();
    PlayedInTurn(b, Middle());
    MiddleEndsBefore();
    MiddleIsEven();
    JoinRuns(N, Initial(N), Opening(), Middle());
  }

  lemma MiddleIsEven()
    ensures |Middle()| % 2 == 0
  {
  }

  lemma {:induction false} OpeningReached()
    ensures LegalRun(N, Initial(N), Opening())
    ensures var b := ApplyAll(N, Initial(N), Opening());
      InPlay(N, b) && b.cells == AfterOpening() && b.toPlace == White
  {
    hide Initial, LegalRun, ApplyAll, Swap2.Inv;
    OpeningRun(N, Sq(4, 7), Sq(0, 0), Sq(5, 7));
  }

  /** Black has no win by continuous fours; after one more white stone it has. */
  lemma {:induction false} DefenderStoneExposes()
    ensures Before()[Beside()] == Empty
    ensures !Vcf(N, Before(), Black) && Vcf(N, Before()[Beside() := White], Black)
  {
    hide MakesFive;
    Squares();
    NoVcfBefore();
    var c := After();
    AfterAt(Point(7, 7));
    NoWhiteWinAfter();
    BlackMakesFive(3);
    BlackMakesFive(8);
    var c1 := c[Attack() := Black];
    forall w: nat ensures !MakesFive(N, c1, w, White) {
      OtherColourTakesOneSquare(N, c, Attack(), Black, White, w);
    }
    assert TwoWins(N, c1, Black) by {
      assert Index(N, Point(3, 7)) != Index(N, Point(8, 7));
    }
    assert ForcedLine(N, c, Black, [Attack()]);
    ForcedLineWins(N, c, Black, [Attack()]);
  }

  lemma FewWhitesAfter(p: Point, d: Direction)
    ensures !(WhiteAfter(Go(p, d, 0), Point(5, 0)) && WhiteAfter(Go(p, d, 1), Point(5, 0))
              && WhiteAfter(Go(p, d, 2), Point(5, 0)) && WhiteAfter(Go(p, d, 3), Point(5, 0))
              && WhiteAfter(Go(p, d, 4), Point(5, 0)))
  {
  }

  lemma {:induction false} BesideMakesNoFive()
    ensures !MakesFive(N, Before(), Beside(), White)
  {
    hide StoneOf;
    Squares();
    forall p: Point, d: Direction ensures !ExactFive(N, After(), p, d, White) {
      FewWhitesAfter(p, d);
      forall k | 0 <= k < 5 ensures At(N, After(), Go(p, d, k)) == White ==> WhiteAfter(Go(p, d, k), Point(5, 0)) {
        AfterAt(Go(p, d, k));
        WhiteStones(Go(p, d, k));
      }
    }
    assert Before()[Beside() := White] == After();
    assert forall d: Direction :: !FiveOnLine(N, After(), Point(5, 0), d, White);
  }

  lemma WhiteStones(p: Point)
    ensures StoneOf(p) == White <==> WhiteAt(p)
  {
  }

  /** In that game white could win at once; the stone beside the gap hands the
      game to black. */
  lemma {:induction false} StoneLosesTheGame()
    ensures LegalRun(N, Initial(N), Opening() + Middle())
    ensures var b := ApplyAll(N, Initial(N), Opening() + Middle());
      && LegalAction(N, b, Gap()) && WinsAfter(N, b, b.seat, Gap())
      && LegalAction(N, b, Beside()) && WinsAfter(N, b, OtherSeat(b.seat), Beside())
  {
    hide MakesFive, StoneOf, PointOf, Index, Before, Initial, LegalRun, ApplyAll, Swap2.Inv, ApplyCpp, Vcf;
    hide Opening, Middle;
    BeforeArises();
    DefenderStoneExposes();
    WhiteWinsAtGap();
    BesideMakesNoFive();
    var b := ApplyAll(N, Initial(N), Opening() + Middle());
    Squares();
    VcfMoveWinsGame(N, b, Gap());
    ReplyLoses(N, b, Beside());
  }
}
