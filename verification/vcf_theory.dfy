/** What a victory by continuous fours is, and why the solver's shortcuts lose
    nothing. The definitions quantify over every legal reply of the defender;
    nothing here mentions how the solver searches. */
module VcfTheory {
  import opened Grid

  predicate Legal(c: seq<Stone>, a: int) {
    0 <= a < |c| && c[a] == Empty
  }

  function Empties(c: seq<Stone>): nat {
    multiset(c)[Empty]
  }

  /** s has a winning square. */
  ghost predicate HasWin(n: nat, c: seq<Stone>, s: Colour)
    requires |c| == n * n
  {
    exists w: nat :: MakesFive(n, c, w, s)
  }

  /** w is the one winning square of s. */
  ghost predicate OnlyWin(n: nat, c: seq<Stone>, s: Colour, w: nat)
    requires |c| == n * n
  {
    forall v: nat :: MakesFive(n, c, v, s) <==> v == w
  }

  ghost predicate TwoWins(n: nat, c: seq<Stone>, s: Colour)
    requires |c| == n * n
  {
    exists v: nat, w: nat :: v != w && MakesFive(n, c, v, s) && MakesFive(n, c, w, s)
  }

  /** The attacker, to move, wins by a sequence of fours: whatever legal reply
      the defender chooses at each turn. */
  ghost predicate Vcf(n: nat, c: seq<Stone>, att: Colour)
    requires |c| == n * n
    decreases Empties(c), 1
  {
    exists a: nat :: Legal(c, a) && VcfMove(n, c, att, a)
  }

  /** a starts such a sequence: it completes an exact five, or it threatens to
      and no legal reply saves the defender. */
  ghost predicate VcfMove(n: nat, c: seq<Stone>, att: Colour, a: nat)
    requires |c| == n * n && Legal(c, a)
    decreases Empties(c), 0
  {
    MakesFive(n, c, a, att) || (HasWin(n, c[a := att], att) && EveryReplyLoses(n, c[a := att], att))
  }

  /** The attacker has just moved: no legal reply wins for the defender or
      ends the attacker's sequence. */
  ghost predicate EveryReplyLoses(n: nat, c: seq<Stone>, att: Colour)
    requires |c| == n * n
    decreases Empties(c), 2
  {
    forall r: nat :: Legal(c, r) ==>
      !MakesFive(n, c, r, Other(att)) && Vcf(n, c[r := Other(att)], att)
  }

  /** After a the defender cannot win at once and w is the attacker's one
      winning square, so w is the only reply that does not lose at once. */
  ghost predicate Forces(n: nat, c: seq<Stone>, att: Colour, a: nat, w: nat)
    requires |c| == n * n && Legal(c, a)
  {
    && !HasWin(n, c[a := att], Other(att))
    && OnlyWin(n, c[a := att], att, w)
    && MakesFive(n, c[a := att], w, att)
  }

  /** A line as the solver returns it: attacks and forced replies in turn, the
      last attack being a five or a double threat no reply can meet. */
  ghost predicate ForcedLine(n: nat, c: seq<Stone>, att: Colour, line: seq<nat>)
    requires |c| == n * n
    decreases |line|
  {
    && line != [] && Legal(c, line[0])
    && if |line| == 1 then
         || MakesFive(n, c, line[0], att)
         || (!HasWin(n, c[line[0] := att], Other(att)) && TwoWins(n, c[line[0] := att], att))
       else
         && !MakesFive(n, c, line[0], att)
         && Forces(n, c, att, line[0], line[1])
         && ForcedLine(n, c[line[0] := att][line[1] := Other(att)], att, line[2..])
  }

  /** The line that comes first in the order of the squares: the first winning
      square if there is one, otherwise the first move that wins, and after its
      forced reply the first line again. */
  ghost predicate FirstLine(n: nat, c: seq<Stone>, att: Colour, line: seq<nat>)
    requires |c| == n * n
    decreases |line|, 1
  {
    && line != [] && Legal(c, line[0])
    && if HasWin(n, c, att) then
         |line| == 1 && MakesFive(n, c, line[0], att) && forall b: nat :: b < line[0] ==> !MakesFive(n, c, b, att)
       else
         && (forall b: nat :: b < line[0] && Legal(c, b) ==> !VcfMove(n, c, att, b))
         && GoesOnFirst(n, c, att, line)
  }

  /** How it goes on after an attack without a five. */
  ghost predicate GoesOnFirst(n: nat, c: seq<Stone>, att: Colour, line: seq<nat>)
    requires |c| == n * n && line != [] && Legal(c, line[0])
    decreases |line|, 0
  {
    if |line| == 1 then TwoWins(n, c[line[0] := att], att)
    else
      && Forces(n, c, att, line[0], line[1])
      && FirstLine(n, c[line[0] := att][line[1] := Other(att)], att, line[2..])
  }

  /** There is only one such line. */
  lemma {:induction false} FirstLineIsOne(n: nat, c: seq<Stone>, att: Colour, line: seq<nat>, line': seq<nat>)
    requires |c| == n * n && FirstLine(n, c, att, line) && FirstLine(n, c, att, line')
    requires ForcedLine(n, c, att, line) && ForcedLine(n, c, att, line')
    ensures line == line'
    decreases |line|
  {
    hide MakesFive, VcfMove;
    ForcedLineWins(n, c, att, line);
    ForcedLineWins(n, c, att, line');
    assert line[0] == line'[0];
    if !HasWin(n, c, att) {
      if |line| > 1 && |line'| > 1 {
        ForcesOne(n, c, att, line[0], line[1], line'[1]);
        FirstLineIsOne(n, c[line[0] := att][line[1] := Other(att)], att, line[2..], line'[2..]);
        assert line == [line[0], line[1]] + line[2..] && line' == [line[0], line[1]] + line'[2..];
      } else {
        OneOrTwo(n, c, att, line, line');
      }
    }
  }

  lemma ForcesOne(n: nat, c: seq<Stone>, att: Colour, a: nat, w: nat, v: nat)
    requires |c| == n * n && Legal(c, a) && Forces(n, c, att, a, w) && Forces(n, c, att, a, v)
    ensures w == v && Legal(c[a := att], w)
  {
  }

  lemma OneOrTwo(n: nat, c: seq<Stone>, att: Colour, line: seq<nat>, line': seq<nat>)
    requires |c| == n * n && line != [] && line' != [] && line[0] == line'[0] && Legal(c, line[0])
    requires GoesOnFirst(n, c, att, line) && GoesOnFirst(n, c, att, line')
    ensures |line| == 1 <==> |line'| == 1
  {
    hide MakesFive;
  }

  lemma {:induction false} WinningSquareWins(n: nat, c: seq<Stone>, att: Colour, w: nat)
    requires |c| == n * n && MakesFive(n, c, w, att)
    ensures Vcf(n, c, att) && ForcedLine(n, c, att, [w])
  {
    assert Legal(c, w) && VcfMove(n, c, att, w);
  }

  lemma {:induction false} NoMoveNoVcf(n: nat, c: seq<Stone>, att: Colour)
    requires |c| == n * n && forall a: nat :: a < |c| && Legal(c, a) ==> !VcfMove(n, c, att, a)
    ensures !Vcf(n, c, att)
  {
  }

  /** A winning square survives any reply that does not occupy it. */
  lemma {:induction false} UnblockedThreatWins(n: nat, c: seq<Stone>, att: Colour, w: nat, r: nat)
    requires |c| == n * n && MakesFive(n, c, w, att) && Legal(c, r) && r != w
    ensures Vcf(n, c[r := Other(att)], att)
  {
    OtherColourTakesOneSquare(n, c, r, Other(att), att, w);
    WinningSquareWins(n, c[r := Other(att)], att, w);
  }

  /** Soundness of a line: its first move wins against every legal reply, not
      only against the replies the line happens to show. */
  lemma {:induction false} ForcedLineWins(n: nat, c: seq<Stone>, att: Colour, line: seq<nat>)
    requires |c| == n * n && ForcedLine(n, c, att, line)
    ensures line != [] && Legal(c, line[0]) && VcfMove(n, c, att, line[0])
    decreases |line|
  {
    var a, def := line[0], Other(att);
    var c1 := c[a := att];
    if |line| == 1 {
      if !MakesFive(n, c, a, att) {
        var v: nat, w: nat :| v != w && MakesFive(n, c1, v, att) && MakesFive(n, c1, w, att);
        forall r: nat | Legal(c1, r) ensures !MakesFive(n, c1, r, def) && Vcf(n, c1[r := def], att) {
          UnblockedThreatWins(n, c1, att, if r == v then w else v, r);
        }
      }
    } else {
      var w := line[1];
      ForcedLineWins(n, c1[w := def], att, line[2..]);
      forall r: nat | Legal(c1, r) ensures !MakesFive(n, c1, r, def) && Vcf(n, c1[r := def], att) {
        if r != w {
          UnblockedThreatWins(n, c1, att, w, r);
        }
      }
    }
  }

  lemma {:induction false} ForcedLineExtends(n: nat, c: seq<Stone>, att: Colour, a: nat, w: nat, line: seq<nat>)
    requires |c| == n * n && Legal(c, a) && !HasWin(n, c, att)
    requires Forces(n, c, att, a, w) && Legal(c[a := att], w)
    requires ForcedLine(n, c[a := att][w := Other(att)], att, line)
    ensures ForcedLine(n, c, att, [a, w] + line)
  {
    assert ([a, w] + line)[2..] == line;
  }

  /** With a single winning square the whole question reduces to the one reply
      that blocks it. */
  lemma {:induction false} SingleThreatReduces(n: nat, c: seq<Stone>, att: Colour, a: nat, w: nat)
    requires |c| == n * n && Legal(c, a) && !HasWin(n, c, att)
    requires Forces(n, c, att, a, w)
    ensures Legal(c[a := att], w)
    ensures VcfMove(n, c, att, a) <==> Vcf(n, c[a := att][w := Other(att)], att)
  {
    var c1, def := c[a := att], Other(att);
    assert Legal(c1, w);
    if Vcf(n, c1[w := def], att) {
      forall r: nat | Legal(c1, r) ensures !MakesFive(n, c1, r, def) && Vcf(n, c1[r := def], att) {
        if r != w {
          UnblockedThreatWins(n, c1, att, w, r);
        }
      }
      assert EveryReplyLoses(n, c1, att);
    }
  }

  /** A defender win elsewhere refutes an attack. */
  lemma {:induction false} CounterWinRefutes(n: nat, c: seq<Stone>, att: Colour, a: nat, w: nat)
    requires |c| == n * n && Legal(c, a) && !HasWin(n, c, att)
    requires w != a && MakesFive(n, c, w, Other(att))
    ensures !VcfMove(n, c, att, a)
  {
    OtherColourTakesOneSquare(n, c, a, att, Other(att), w);
    assert Legal(c[a := att], w);
  }

  // ----- The fast scan -----------------------------------------------

  /** A five along d contains both p and q. */
  ghost predicate FiveThroughBoth(n: nat, c: seq<Stone>, p: Point, q: Point, d: Direction, s: Colour)
    requires |c| == n * n
  {
    exists j :: -5 < j <= 0 && ExactFive(n, c, Go(p, d, j), d, s) && WithinFive(Go(p, d, j), d, q)
  }

  /** With the run lengths around p at hand, sharing a five along d comes down
      to q lying on the run. */
  lemma {:induction false} RunsDecideSharing(n: nat, c: seq<Stone>, p: Point, q: Point, d: Direction, s: Colour,
                                             back: nat, ahead: nat)
    requires |c| == n * n && At(n, c, p) == s
    requires RunFrom(n, c, p, d, false, s, back) && RunFrom(n, c, p, d, true, s, ahead)
    ensures FiveThroughBoth(n, c, p, q, d, s) <==>
            1 + back + ahead == 5 && WithinFive(Go(p, d, -(back as int)), d, q)
  {
    hide RunFrom, Go;
    RunsDecideFive(n, c, p, d, s, back, ahead);
    if 1 + back + ahead == 5 {
      RunsMakeFive(n, c, p, d, s, back, ahead);
    }
    if FiveThroughBoth(n, c, p, q, d, s) {
      var j :| -5 < j <= 0 && ExactFive(n, c, Go(p, d, j), d, s) && WithinFive(Go(p, d, j), d, q);
      assert FiveOnLine(n, c, p, d, s);
      FiveGivesRuns(n, c, p, d, s, -j);
      RunUnique(n, c, p, d, false, s, back, -j);
    }
  }

  ghost predicate SharedFive(n: nat, c: seq<Stone>, p: Point, q: Point, s: Colour)
    requires |c| == n * n
  {
    exists d: Direction :: FiveThroughBoth(n, c, p, q, d, s)
  }

  ghost predicate WithinFive(start: Point, d: Direction, q: Point) {
    exists i :: 0 <= i < 5 && Go(start, d, i) == q
  }

  /** The winning squares that the fast scan looks for: w completes a five
      that also contains the stone just placed on a. */
  ghost predicate CreatedWin(n: nat, c: seq<Stone>, a: nat, w: int, s: Colour)
    requires |c| == n * n && a < |c|
  {
    && Legal(c, w)
    && SharedFive(n, c[w := s], PointOf(n, w), PointOf(n, a), s)
  }

  /** w completes a five along d that also contains a. */
  ghost predicate CreatedAlong(n: nat, c: seq<Stone>, a: nat, w: int, d: Direction, s: Colour)
    requires |c| == n * n && a < |c|
  {
    Legal(c, w) && FiveThroughBoth(n, c[w := s], PointOf(n, w), PointOf(n, a), d, s)
  }

  lemma CreatedByDirection(n: nat, c: seq<Stone>, a: nat, w: int, s: Colour)
    requires |c| == n * n && a < |c|
    ensures CreatedWin(n, c, a, w, s) <==> exists d: Direction :: CreatedAlong(n, c, a, w, d, s)
  {
    if CreatedWin(n, c, a, w, s) {
      var d: Direction :| FiveThroughBoth(n, c[w := s], PointOf(n, w), PointOf(n, a), d, s);
      assert CreatedAlong(n, c, a, w, d, s);
    }
  }

  /** Such a square lies within four steps of a. */
  lemma {:induction false} CreatedIsNear(n: nat, c: seq<Stone>, a: nat, w: int, d: Direction, s: Colour)
    requires |c| == n * n && a < |c| && c[a] == s && CreatedAlong(n, c, a, w, d, s)
    ensures exists k :: -4 <= k <= 4 && k != 0 && Go(PointOf(n, a), d, k) == PointOf(n, w)
  {
    var p, q := PointOf(n, w), PointOf(n, a);
    var j :| -5 < j <= 0 && ExactFive(n, c[w := s], Go(p, d, j), d, s) && WithinFive(Go(p, d, j), d, q);
    var i :| 0 <= i < 5 && Go(Go(p, d, j), d, i) == q;
    assert Go(q, d, -(i + j)) == p;
    assert p != q;
  }

  lemma FiveMakesWin(n: nat, c: seq<Stone>, w: nat, s: Colour, d: Direction, j: int)
    requires |c| == n * n && Legal(c, w)
    requires -5 < j <= 0 && ExactFive(n, c[w := s], Go(PointOf(n, w), d, j), d, s)
    ensures MakesFive(n, c, w, s)
  {
    assert FiveOnLine(n, c[w := s], PointOf(n, w), d, s);
  }

  /** Right after an attack from a position without a winning square, the fast
      scan and the full scan see the same winning squares. */
  lemma {:induction false} CreatedWinsAreAllWins(n: nat, c: seq<Stone>, a: nat, s: Colour, w: nat)
    requires |c| == n * n && Legal(c, a) && !HasWin(n, c, s)
    ensures MakesFive(n, c[a := s], w, s) <==> CreatedWin(n, c[a := s], a, w, s)
  {
    var c1 := c[a := s];
    if MakesFive(n, c1, w, s) {
      var p := PointOf(n, w);
      var d: Direction :| FiveOnLine(n, c1[w := s], p, d, s);
      var j :| -5 < j <= 0 && ExactFive(n, c1[w := s], Go(p, d, j), d, s);
      assert c1[w := s] == c[w := s][a := s];
      if ExactFive(n, c[w := s], Go(p, d, j), d, s) {
        FiveMakesWin(n, c, w, s, d, j);
        assert false;
      }
      FiveContains(n, c[w := s], a, s, Go(p, d, j), d);
      assert FiveThroughBoth(n, c1[w := s], p, PointOf(n, a), d, s);
    } else if CreatedWin(n, c1, a, w, s) {
      var d: Direction :| FiveThroughBoth(n, c1[w := s], PointOf(n, w), PointOf(n, a), d, s);
      assert FiveOnLine(n, c1[w := s], PointOf(n, w), d, s);
      assert false;
    }
  }

  /** No stone s lies within four steps of p on any of the four lines. */
  ghost predicate Isolated(n: nat, c: seq<Stone>, p: Point, s: Colour)
    requires |c| == n * n
  {
    forall d: Direction, k: int :: -4 <= k <= 4 && k != 0 ==> At(n, c, Go(p, d, k)) != s
  }

  /** A move with no friendly stone within line distance four creates no
      winning square. */
  lemma {:induction false} IsolatedMoveThreatensNothing(n: nat, c: seq<Stone>, a: nat, s: Colour)
    requires |c| == n * n && Legal(c, a) && !HasWin(n, c, s) && Isolated(n, c, PointOf(n, a), s)
    ensures !HasWin(n, c[a := s], s) && !VcfMove(n, c, s, a)
  {
    var c1 := c[a := s];
    forall w: nat ensures !MakesFive(n, c1, w, s) {
      if MakesFive(n, c1, w, s) {
        CreatedWinsAreAllWins(n, c, a, s, w);
        IsolatedSquareNotCreated(n, c, a, s, w);
      }
    }
  }

  lemma {:induction false} IsolatedSquareNotCreated(n: nat, c: seq<Stone>, a: nat, s: Colour, w: nat)
    requires |c| == n * n && Legal(c, a) && Legal(c, w) && w != a && Isolated(n, c, PointOf(n, a), s)
    ensures !CreatedWin(n, c[a := s], a, w, s)
  {
    var c2, p, q := c[a := s][w := s], PointOf(n, w), PointOf(n, a);
    if CreatedWin(n, c[a := s], a, w, s) {
      var d: Direction :| FiveThroughBoth(n, c2, p, q, d, s);
      var j :| -5 < j <= 0 && ExactFive(n, c2, Go(p, d, j), d, s) && WithinFive(Go(p, d, j), d, q);
      var m, k := ThirdOfFive(p, q, d, j);
      var r := Go(Go(p, d, j), d, m);
      assert At(n, c2, r) == s;
      AtUpdate(n, c[a := s], w, s, r);
      AtUpdate(n, c, a, s, r);
      assert false;
    }
  }

  /** Of five in a row containing p and q, one is neither, and it lies within
      four steps of q. */
  lemma ThirdOfFive(p: Point, q: Point, d: Direction, j: int) returns (m: int, k: int)
    requires -5 < j <= 0 && WithinFive(Go(p, d, j), d, q)
    ensures 0 <= m < 5 && -4 <= k <= 4 && k != 0
    ensures Go(Go(p, d, j), d, m) == Go(q, d, k) != p
    ensures Go(q, d, k) != q
  {
    var i :| 0 <= i < 5 && Go(Go(p, d, j), d, i) == q;
    m := if i != 0 && j != 0 then 0 else if i != 1 && j != -1 then 1 else 2;
    k := m - i;
  }

  /** After an attack that the defender cannot answer with a win elsewhere,
      the scanned squares are all the winning squares there are. */
  lemma {:induction false} ScannedWins(n: nat, c: seq<Stone>, att: Colour, a: nat, attackerWins: seq<nat>,
                                       defenderWins: seq<nat>)
    requires |c| == n * n && Legal(c, a) && !HasWin(n, c, att)
    requires forall w: nat :: w in attackerWins <==> CreatedWin(n, c[a := att], a, w, att)
    requires forall w: nat :: w in defenderWins <==> MakesFive(n, c, w, Other(att))
    requires forall w: nat :: w in defenderWins ==> w == a
    ensures forall w: nat :: w in attackerWins <==> MakesFive(n, c[a := att], w, att)
    ensures !HasWin(n, c[a := att], Other(att))
  {
    var c1 := c[a := att];
    forall w: nat ensures w in attackerWins <==> MakesFive(n, c1, w, att) {
      CreatedWinsAreAllWins(n, c, a, att, w);
    }
    forall w: nat ensures !MakesFive(n, c1, w, Other(att)) {
      OtherColourTakesOneSquare(n, c, a, att, Other(att), w);
    }
  }

  /** The number of winning squares settles a quiet attack. */
  lemma {:induction false} AttackOutcome(n: nat, c: seq<Stone>, att: Colour, a: nat, attackerWins: seq<nat>)
    requires |c| == n * n && Legal(c, a) && !HasWin(n, c, att) && !HasWin(n, c[a := att], Other(att))
    requires forall w: nat :: w in attackerWins <==> MakesFive(n, c[a := att], w, att)
    requires forall i, j :: 0 <= i < j < |attackerWins| ==> attackerWins[i] != attackerWins[j]
    ensures attackerWins == [] ==> !VcfMove(n, c, att, a)
    ensures |attackerWins| == 1 ==> Forces(n, c, att, a, attackerWins[0])
    ensures |attackerWins| >= 2 ==> ForcedLine(n, c, att, [a]) && GoesOnFirst(n, c, att, [a])
  {
    hide MakesFive;
    var c1 := c[a := att];
    assert !MakesFive(n, c, a, att);
    if attackerWins == [] {
      assert forall w: nat :: MakesFive(n, c1, w, att) ==> w in attackerWins;
    }
    if |attackerWins| == 1 {
      assert attackerWins[0] in attackerWins;
      forall v: nat ensures MakesFive(n, c1, v, att) <==> v == attackerWins[0] {
        assert MakesFive(n, c1, v, att) <==> v in attackerWins;
      }
    }
    if |attackerWins| >= 2 {
      assert attackerWins[0] in attackerWins && attackerWins[1] in attackerWins;
      assert MakesFive(n, c1, attackerWins[0], att) && MakesFive(n, c1, attackerWins[1], att);
      assert TwoWins(n, c1, att);
    }
  }

  // ----- Nothing is ever already won during the search ---------------

  /** Neither colour has an exact five anywhere. */
  ghost predicate Live(n: nat, c: seq<Stone>)
    requires |c| == n * n
  {
    !HasFive(n, c, Black) && !HasFive(n, c, White)
  }

  lemma {:induction false} QuietMoveKeepsLive(n: nat, c: seq<Stone>, a: nat, s: Colour)
    requires |c| == n * n && Live(n, c) && Legal(c, a) && !MakesFive(n, c, a, s)
    ensures Live(n, c[a := s])
  {
    LastMoveDecides(n, c, a, s);
    OtherColourKeepsFives(n, c, a, s, Other(s));
  }

  /** An attack that wins nothing at once and its forced reply leave a live
      position. */
  lemma {:induction false} ForcedPairKeepsLive(n: nat, c: seq<Stone>, att: Colour, a: nat, w: nat)
    requires |c| == n * n && Live(n, c) && Legal(c, a) && !HasWin(n, c, att) && Forces(n, c, att, a, w)
    ensures Live(n, c[a := att]) && Live(n, c[a := att][w := Other(att)])
  {
    QuietMoveKeepsLive(n, c, a, att);
    QuietMoveKeepsLive(n, c[a := att], w, Other(att));
  }

  // ----- The positions a search may have to look at -------------------

  /** The tree of forced continuations from c, in preorder: one entry for
      every sequence of attacks with a single forced reply. */
  ghost function ForcingTree(n: nat, c: seq<Stone>, att: Colour): (t: seq<seq<Stone>>)
    requires |c| == n * n
    decreases Empties(c), |c| + 1
  {
    [c] + ForcingTreeFrom(n, c, att, 0)
  }

  /** The part of that tree that starts with an attack on square a or later. */
  ghost function ForcingTreeFrom(n: nat, c: seq<Stone>, att: Colour, a: nat): (t: seq<seq<Stone>>)
    requires |c| == n * n && a <= |c|
    decreases Empties(c), |c| - a
  {
    if a == |c| then []
    else ForcedSubtree(n, c, att, a) + ForcingTreeFrom(n, c, att, a + 1)
  }

  ghost function ForcedSubtree(n: nat, c: seq<Stone>, att: Colour, a: nat): (t: seq<seq<Stone>>)
    requires |c| == n * n && a < |c|
    decreases Empties(c), 0
  {
    if Legal(c, a) && exists w: nat :: Forces(n, c, att, a, w) then
      var w: nat :| Forces(n, c, att, a, w);
      ForcingTree(n, c[a := att][w := Other(att)], att)
    else []
  }

  lemma ForcedSubtreeOf(n: nat, c: seq<Stone>, att: Colour, a: nat, w: nat)
    requires |c| == n * n && Legal(c, a) && Forces(n, c, att, a, w)
    ensures ForcedSubtree(n, c, att, a) == ForcingTree(n, c[a := att][w := Other(att)], att)
  {
  }

  lemma {:induction false} TreeLengths(n: nat, c: seq<Stone>, att: Colour, a: nat)
    requires |c| == n * n && a <= |c|
    ensures forall x :: x in ForcingTreeFrom(n, c, att, a) ==> |x| == |c|
    ensures forall x :: x in ForcingTree(n, c, att) && a == 0 ==> |x| == |c|
    decreases Empties(c), |c| - a
  {
    if a < |c| {
      TreeLengths(n, c, att, a + 1);
      if Legal(c, a) && exists w: nat :: Forces(n, c, att, a, w) {
        var w: nat :| Forces(n, c, att, a, w) &&
          ForcedSubtree(n, c, att, a) == ForcingTree(n, c[a := att][w := Other(att)], att);
        TreeLengths(n, c[a := att][w := Other(att)], att, 0);
      }
    }
  }
}
