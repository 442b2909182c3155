/** The depth-first solver for victories by continuous fours: run counting,
    the threat scans and the make/unmake search on one shared position. */
module VcfSolver {
  import opened Grid
  import opened VcfTheory
  import opened Zobrist

  /** The position under search: one stone per cell, updated in place. */
  class Position {
    const cells: array<Stone>
    const currentPlayer: Stone

    constructor (c: seq<Stone>, currentPlayer: Stone)
      requires |c| == CELLS
      ensures fresh(cells) && Valid() && Stones() == c && this.currentPlayer == currentPlayer
    {
      cells := new Stone[CELLS](i requires 0 <= i < CELLS => c[i]);
      this.currentPlayer := currentPlayer;
      new;
      assert cells[..] == c;
    }

    ghost predicate Valid() {
      cells.Length == CELLS == N * N
    }

    function Stones(): (c: seq<Stone>)
      requires Valid()
      reads cells
      ensures |c| == N * N
    {
      cells[..]
    }

    function StoneAt(p: Point): (s: Stone)
      requires Valid()
      reads cells
      ensures s == At(N, Stones(), p)
    {
      if Inside(N, p) then cells[Index(N, p)] else Empty
    }

    predicate IsEmpty(a: int)
      requires Valid()
      reads cells
    {
      0 <= a < CELLS && cells[a] == Empty
    }
  }

  method MakesExactFive(position: Position, a: int, s: Colour) returns (r: bool)
    requires position.Valid()
    ensures r <==> MakesFive(N, position.Stones(), a, s)
  {
    if !position.IsEmpty(a) {
      return false;
    }
    ghost var c := position.Stones();
    ghost var c1 := c[a := s];
    var p := PointOf(N, a);
    AtUpdate(N, c, a, s, p);
    for i := 0 to 4
      invariant forall d: Direction :: d < i ==> !FiveOnLine(N, c1, p, d, s)
    {
      var ahead := CountInDirection(N, position.cells[..], p, i, true, s);
      var back := CountInDirection(N, position.cells[..], p, i, false, s);
      RunIgnoresCentre(N, c, a, s, i, true, s, ahead);
      RunIgnoresCentre(N, c, a, s, i, false, s, back);
      RunsDecideFive(N, c1, p, i, s, back, ahead);
      if 1 + ahead + back == 5 {
        return true;
      }
    }
    return false;
  }

  /** All winning squares of s, in row-major order. */
  method WinningMoves(position: Position, s: Colour) returns (moves: seq<nat>)
    requires position.Valid()
    ensures forall w: nat :: w in moves <==> MakesFive(N, position.Stones(), w, s)
    ensures forall i, j :: 0 <= i < j < |moves| ==> moves[i] < moves[j]
  {
    hide MakesFive;
    ghost var c := position.Stones();
    moves := [];
    for a := 0 to CELLS
      invariant forall i :: 0 <= i < |moves| ==> moves[i] < a
      invariant forall w: nat :: w in moves <==> w < a && MakesFive(N, c, w, s)
      invariant forall i, j :: 0 <= i < j < |moves| ==> moves[i] < moves[j]
    {
      var wins := MakesExactFive(position, a, s);
      if wins {
        moves := moves + [a];
      }
    }
    forall w: nat | MakesFive(N, c, w, s) ensures w < CELLS {
      WinInRange(c, w, s);
    }
  }

  lemma WinInRange(c: seq<Stone>, w: nat, s: Colour)
    requires |c| == N * N && MakesFive(N, c, w, s)
    ensures w < CELLS
  {
  }

  /** Scans the whole board for a run of exactly five. */
  method HasExactFive(position: Position, s: Colour) returns (r: bool)
    requires position.Valid()
    ensures r <==> HasFive(N, position.Stones(), s)
  {
    ghost var c := position.Stones();
    for a := 0 to CELLS
      invariant forall b: nat, d: Direction :: b < a ==> !ExactFive(N, c, PointOf(N, b), d, s)
    {
      var starts := StartsExactFive(position, a, s);
      if starts {
        return true;
      }
      assert position.Stones() == c;
    }
    forall p: Point, d: Direction ensures !ExactFive(N, c, p, d, s) {
      if Inside(N, p) {
        PointOfIndex(N, p);
      } else {
        assert Go(p, d, 0) == p;
      }
    }
    return false;
  }

  /** Inspects only runs that begin at a, so that a run of six or more is not
      mistaken for a five. */
  method StartsExactFive(position: Position, a: nat, s: Colour) returns (r: bool)
    requires position.Valid() && a < CELLS
    ensures r <==> exists d: Direction :: ExactFive(N, position.Stones(), PointOf(N, a), d, s)
  {
    ghost var c := position.Stones();
    var p := PointOf(N, a);
    if position.cells[a] != s {
      forall d: Direction ensures !ExactFive(N, c, p, d, s) {
        assert Go(p, d, 0) == p;
      }
      return false;
    }
    for i := 0 to 4
      invariant forall d: Direction :: d < i ==> !ExactFive(N, c, p, d, s)
    {
      if position.StoneAt(Go(p, i, -1)) == s {
        continue;
      }
      var ahead := CountInDirection(N, position.cells[..], p, i, true, s);
      RunStartDecides(c, p, i, s, ahead);
      if 1 + ahead == 5 {
        assert ExactFive(N, position.Stones(), PointOf(N, a), i, s);
        return true;
      }
    }
    return false;
  }

  lemma {:induction false} RunStartDecides(c: seq<Stone>, p: Point, d: Direction, s: Colour, ahead: nat)
    requires |c| == N * N && At(N, c, p) == s && At(N, c, Go(p, d, -1)) != s
    requires RunFrom(N, c, p, d, true, s, ahead)
    ensures 1 + ahead == 5 <==> ExactFive(N, c, p, d, s)
  {
    assert Toward(p, d, false, 1) == Go(p, d, -1);
    assert Go(p, d, 0) == p;
    if 1 + ahead == 5 {
      RunsMakeFive(N, c, p, d, s, 0, ahead);
    }
    if ExactFive(N, c, p, d, s) {
      FiveGivesRuns(N, c, p, d, s, 0);
      RunUnique(N, c, p, d, true, s, ahead, 4);
    }
  }

  method HasStoneWithinLineDistance4(position: Position, p: Point, s: Colour) returns (r: bool)
    requires position.Valid()
    ensures r <==> !Isolated(N, position.Stones(), p, s)
  {
    ghost var c := position.Stones();
    for i := 0 to 4
      invariant forall d: Direction, k: int :: d < i && -4 <= k <= 4 && k != 0 ==> At(N, c, Go(p, d, k)) != s
    {
      for k := -4 to 5
        invariant forall m :: -4 <= m < k && m != 0 ==> At(N, c, Go(p, i, m)) != s
      {
        if k != 0 && position.StoneAt(Go(p, i, k)) == s {
          return true;
        }
      }
    }
    return false;
  }

  ghost predicate CreatedAt(c: seq<Stone>, placed: nat, q: Point, d: Direction, s: Colour)
    requires |c| == N * N && placed < |c|
  {
    Inside(N, q) && CreatedAlong(N, c, placed, Index(N, q), d, s)
  }

  /** Scans only the four lines through the stone just placed, counts along
      that one line, and keeps a square only if its five contains the stone. */
  method FindCreatedWinningMoves(position: Position, placed: nat, s: Colour) returns (moves: seq<nat>)
    requires position.Valid() && placed < CELLS && position.cells[placed] == s
    ensures forall w: nat :: w in moves <==> CreatedWin(N, position.Stones(), placed, w, s)
    ensures forall i, j :: 0 <= i < j < |moves| ==> moves[i] != moves[j]
  {
    hide CreatedWin, FiveThroughBoth, PointOf, Go, ExactFive, WithinFive;
    ghost var c := position.Stones();
    moves := [];
    var p := PointOf(N, placed);
    for i := 0 to 4
      invariant forall w: nat :: w in moves ==> CreatedWin(N, c, placed, w, s)
      invariant forall i, j :: 0 <= i < j < |moves| ==> moves[i] != moves[j]
      invariant forall w: nat, d: Direction :: d < i && CreatedAlong(N, c, placed, w, d, s) ==> w in moves
    {
      for k := -4 to 5
        invariant forall w: nat :: w in moves ==> CreatedWin(N, c, placed, w, s)
        invariant forall i, j :: 0 <= i < j < |moves| ==> moves[i] != moves[j]
        invariant forall w: nat, d: Direction :: d < i && CreatedAlong(N, c, placed, w, d, s) ==> w in moves
        invariant forall m :: -4 <= m < k && m != 0 && CreatedAt(c, placed, Go(p, i, m), i, s)
                              ==> Index(N, Go(p, i, m)) in moves
      {
        var q := Go(p, i, k);
        if k == 0 || !Inside(N, q) || !position.IsEmpty(Index(N, q)) {
          continue;
        }
        var a := Index(N, q);
        PointOfIndex(N, q);
        var created := CreatesAlong(position, placed, a, i, s);
        if created && a !in moves {
          CreatedByDirection(N, c, placed, a, s);
          moves := moves + [a];
        }
      }
      forall w: nat | CreatedAlong(N, c, placed, w, i, s) ensures w in moves {
        CreatedIsNear(N, c, placed, w, i, s);
      }
    }
    forall w: nat | CreatedWin(N, c, placed, w, s) ensures w in moves {
      CreatedByDirection(N, c, placed, w, s);
    }
  }

  /** Does a stone s on the empty cell a complete a five along d that contains
      the placed stone? */
  method CreatesAlong(position: Position, placed: nat, a: nat, d: Direction, s: Colour) returns (r: bool)
    requires position.Valid() && placed < CELLS && position.IsEmpty(a)
    ensures r <==> CreatedAlong(N, position.Stones(), placed, a, d, s)
  {
    ghost var c := position.Stones();
    var p, q := PointOf(N, placed), PointOf(N, a);
    var back := CountInDirection(N, position.cells[..], q, d, false, s);
    var ahead := CountInDirection(N, position.cells[..], q, d, true, s);
    RunIgnoresCentre(N, c, a, s, d, true, s, ahead);
    RunIgnoresCentre(N, c, a, s, d, false, s, back);
    AtUpdate(N, c, a, s, q);
    RunsDecideSharing(N, c[a := s], q, p, d, s, back, ahead);
    r := 1 + back + ahead == 5;
    if r {
      r := RunIncludes(q, p, d, back, ahead);
    }
  }

  /** Does the stretch from back steps behind q to ahead steps after it contain p? */
  method RunIncludes(q: Point, p: Point, d: Direction, back: nat, ahead: nat) returns (r: bool)
    requires 1 + back + ahead == 5
    ensures r <==> WithinFive(Go(q, d, -(back as int)), d, p)
  {
    var lo := -(back as int);
    GoGo(q, d, lo);
    for offset := lo to ahead + 1
      invariant forall k :: 0 <= k < offset - lo ==> Go(Go(q, d, lo), d, k) != p
    {
      if Go(q, d, offset) == p {
        assert Go(Go(q, d, lo), d, offset - lo) == p;
        return true;
      }
    }
    return false;
  }

  // ----- The search ---------------------------------------------------

  class SearchContext {
    const keys: KeyTable
    const attacker: Colour
    const maxNodes: int
    var visitedNodes: int
    var hash: Word
    var failedPositions: set<Word>

    /** The positions entered so far, and those whose hash was recorded as failed. */
    ghost var seen: set<seq<Stone>>
    ghost var failed: set<seq<Stone>>

    constructor (keys: KeyTable, attacker: Colour, maxNodes: int, hash: Word)
      requires |keys| == CELLS
      ensures this.keys == keys && this.attacker == attacker && this.maxNodes == maxNodes
      ensures visitedNodes == 0 && this.hash == hash && seen == {} && Consistent()
    {
      this.keys, this.attacker, this.maxNodes := keys, attacker, maxNodes;
      visitedNodes, this.hash, failedPositions := 0, hash, {};
      seen, failed := {}, {};
    }

    ghost predicate WellFormed()
      reads this
    {
      |keys| == CELLS == N * N && forall c :: c in seen ==> |c| == CELLS
    }

    /** The budget has not run out and no two positions met so far collide. */
    ghost predicate Reliable()
      requires WellFormed()
      reads this
    {
      visitedNodes <= maxNodes && InjectiveOn(keys, seen)
    }

    /** Every recorded hash stems from a position that was entered, and as long
        as the context is reliable that position really has no win. */
    ghost predicate Consistent()
      reads this
    {
      && WellFormed()
      && failed <= seen
      && (forall h :: h in failedPositions ==> Recorded(h))
      && (Reliable() ==> forall c :: c in failed ==> !Vcf(N, c, attacker))
    }

    ghost predicate Recorded(h: Word)
      requires WellFormed() && failed <= seen
      reads this
    {
      exists c :: c in failed && Hash(keys, c) == h
    }
  }

  method MakeMove(position: Position, context: SearchContext, a: nat, s: Colour)
    requires position.Valid() && context.Consistent() && position.IsEmpty(a)
    requires context.hash == Hash(context.keys, position.Stones())
    modifies position.cells, context`hash
    ensures position.Stones() == old(position.Stones())[a := s]
    ensures context.hash == Hash(context.keys, position.Stones())
    ensures context.Consistent() && context.Reliable() == old(context.Reliable())
  {
    HashAfterPlacing(context.keys, position.Stones(), a, s);
    position.cells[a] := s;
    context.hash := Xor(context.hash, Key(context.keys, a, s));
    assert forall h :: h in context.failedPositions ==> old(context.Recorded(h));
  }

  /** Takes back a stone that was placed on the empty cell a of c. */
  method UnmakeMove(position: Position, context: SearchContext, a: nat, s: Colour, ghost c: seq<Stone>)
    requires position.Valid() && context.Consistent()
    requires |c| == CELLS && Legal(c, a) && position.Stones() == c[a := s]
    requires context.hash == Hash(context.keys, position.Stones())
    modifies position.cells, context`hash
    ensures position.Stones() == c && context.hash == Hash(context.keys, c)
    ensures context.Consistent() && context.Reliable() == old(context.Reliable())
  {
    HashAfterPlacing(context.keys, c, a, s);
    position.cells[a] := Empty;
    context.hash := Xor(context.hash, Key(context.keys, a, s));
    assert forall h :: h in context.failedPositions ==> old(context.Recorded(h));
    assert position.Stones() == c;
  }

  /** Counts the node against the budget and looks it up among the failures. */
  method Enter(context: SearchContext, ghost c: seq<Stone>) returns (pruned: bool)
    requires context.Consistent() && |c| == CELLS && context.hash == Hash(context.keys, c)
    modifies context`visitedNodes, context`seen
    ensures context.Consistent() && context.visitedNodes == old(context.visitedNodes) + 1
    ensures old(context.seen) <= context.seen <= old(context.seen) + {c}
    ensures context.Reliable() ==> old(context.Reliable())
    ensures pruned && context.Reliable() ==> !Vcf(N, c, context.attacker)
    ensures !pruned ==> c in context.seen && context.visitedNodes <= context.maxNodes
    ensures pruned <==> context.visitedNodes > context.maxNodes || context.hash in context.failedPositions
  {
    hide Vcf, Hash;
    context.visitedNodes := context.visitedNodes + 1;
    if context.visitedNodes > context.maxNodes {
      return true;
    }
    context.seen := context.seen + {c};
    assert forall h :: h in context.failedPositions ==> old(context.Recorded(h));
    return context.hash in context.failedPositions;
  }

  /** Searches in place. The position and the hash come back as they were; a
      line that is found forces the win whatever the hashes and the budget; and
      if nothing is found in a reliable context, there is no win to find. */
  method Search(position: Position, context: SearchContext) returns (found: bool, line: seq<nat>)
    requires position.Valid() && context.Consistent() && Live(N, position.Stones())
    requires context.hash == Hash(context.keys, position.Stones())
    modifies position.cells, context
    ensures position.Stones() == old(position.Stones()) && context.hash == old(context.hash)
    ensures context.Consistent()
    ensures found ==> ForcedLine(N, position.Stones(), context.attacker, line)
    ensures !found && context.Reliable() ==> !Vcf(N, position.Stones(), context.attacker)
    ensures found && context.Reliable() ==> FirstLine(N, position.Stones(), context.attacker, line)
    ensures old(context.failedPositions) <= context.failedPositions
    ensures !found && context.visitedNodes <= context.maxNodes ==> context.hash in context.failedPositions
    ensures old(context.visitedNodes) < context.visitedNodes
            <= old(context.visitedNodes) + |ForcingTree(N, position.Stones(), context.attacker)|
    ensures old(context.seen) <= context.seen
    ensures context.Reliable() ==> old(context.Reliable())
    ensures forall c :: c in context.seen ==>
      c in old(context.seen) || c in ForcingTree(N, position.Stones(), context.attacker)
    decreases Empties(position.Stones()), 1
  {
    hide MakesFive, Hash, HasFive, ForcedLine, VcfMove, Vcf, ForcedSubtree, Live, InjectiveOn, GoesOnFirst;
    ghost var c, seen0, visited0 := position.Stones(), context.seen, context.visitedNodes;
    ghost var tree := ForcingTree(N, c, context.attacker);
    var pruned := Enter(context, c);
    if pruned {
      return false, [];
    }

    var immediateWins := WinningMoves(position, context.attacker);
    if immediateWins != [] {
      assert immediateWins[0] in immediateWins;
      WinningSquareWins(N, c, context.attacker, immediateWins[0]);
      FirstWinIsFirst(c, context.attacker, immediateWins);
      return true, [immediateWins[0]];
    }
    var defenderWins := WinningMoves(position, Other(context.attacker));

    for a := 0 to CELLS
      invariant position.Stones() == c && context.hash == Hash(context.keys, c) && context.Consistent()
      invariant context.Reliable() ==> forall b: nat :: b < a && Legal(c, b) ==> !VcfMove(N, c, context.attacker, b)
      invariant visited0 < context.visitedNodes && (context.Reliable() ==> old(context.Reliable()))
      invariant context.visitedNodes + |ForcingTreeFrom(N, c, context.attacker, a)| <= visited0 + |tree|
      invariant seen0 + {c} <= context.seen && old(context.failedPositions) <= context.failedPositions
      invariant forall x :: x in context.seen ==> x in seen0 || x in tree
      invariant forall x :: x in ForcingTreeFrom(N, c, context.attacker, a) ==> x in tree
    {
      if position.IsEmpty(a) {
        found, line := TryAttack(position, context, a, defenderWins);
        if found {
          return;
        }
      }
    }

    if context.Reliable() {
      NoMoveNoVcf(N, c, context.attacker);
    }
    RecordFailure(context, c);
    return false, [];
  }

  lemma FirstWinIsFirst(c: seq<Stone>, att: Colour, wins: seq<nat>)
    requires |c| == N * N && wins != [] && forall w: nat :: w in wins <==> MakesFive(N, c, w, att)
    requires forall i, j :: 0 <= i < j < |wins| ==> wins[i] < wins[j]
    ensures FirstLine(N, c, att, [wins[0]])
  {
    assert wins[0] in wins;
    forall b: nat | b < wins[0] ensures !MakesFive(N, c, b, att) {
      assert b !in wins;
    }
  }

  method RecordFailure(context: SearchContext, ghost c: seq<Stone>)
    requires context.Consistent() && c in context.seen && context.hash == Hash(context.keys, c)
    requires context.Reliable() ==> !Vcf(N, c, context.attacker)
    modifies context`failedPositions, context`failed
    ensures context.Consistent()
    ensures context.failedPositions == old(context.failedPositions) + {context.hash}
  {
    hide Vcf, Hash, InjectiveOn;
    context.failedPositions := context.failedPositions + {context.hash};
    context.failed := context.failed + {c};
    forall h | h in context.failedPositions ensures context.Recorded(h) {
      if h != context.hash {
        assert old(context.Recorded(h));
      }
    }
  }

  /** One attack of the search loop, with its prunes and its forced reply. */
  method TryAttack(position: Position, context: SearchContext, a: nat, defenderWins: seq<nat>)
    returns (found: bool, line: seq<nat>)
    requires position.Valid() && context.Consistent() && Live(N, position.Stones())
    requires context.hash == Hash(context.keys, position.Stones())
    requires Legal(position.Stones(), a) && !HasWin(N, position.Stones(), context.attacker)
    requires forall w: nat :: w in defenderWins <==> MakesFive(N, position.Stones(), w, Other(context.attacker))
    requires forall i, j :: 0 <= i < j < |defenderWins| ==> defenderWins[i] < defenderWins[j]
    modifies position.cells, context
    ensures position.Stones() == old(position.Stones()) && context.hash == old(context.hash)
    ensures context.Consistent()
    ensures found ==> ForcedLine(N, position.Stones(), context.attacker, line)
    ensures !found && context.Reliable() ==> !VcfMove(N, position.Stones(), context.attacker, a)
    ensures found && context.Reliable() ==>
      line != [] && line[0] == a && GoesOnFirst(N, position.Stones(), context.attacker, line)
    ensures old(context.failedPositions) <= context.failedPositions
    ensures old(context.visitedNodes) <= context.visitedNodes
            <= old(context.visitedNodes) + |ForcedSubtree(N, position.Stones(), context.attacker, a)|
    ensures old(context.seen) <= context.seen
    ensures context.Reliable() ==> old(context.Reliable())
    ensures forall c :: c in context.seen ==>
      c in old(context.seen) || c in ForcedSubtree(N, position.Stones(), context.attacker, a)
    decreases Empties(position.Stones()), 0
  {
    hide MakesFive, Hash, CreatedWin, Isolated, Vcf, VcfMove, HasWin, Forces, ForcedLine, ForcingTree;
    hide ForcedSubtree, HasFive, Live, InjectiveOn, FirstLine;
    hide Xor, Key, At, SearchContext.Recorded, SearchContext.Reliable;
    ghost var c := position.Stones();
    var att, def := context.attacker, Other(context.attacker);
    if |defenderWins| >= 2 || (|defenderWins| == 1 && defenderWins[0] != a) {
      ghost var w := if defenderWins[0] != a then defenderWins[0] else defenderWins[1];
      CounterWinRefutes(N, c, att, a, w);
      return false, [];
    }
    var near := HasStoneWithinLineDistance4(position, PointOf(N, a), att);
    if !near {
      IsolatedMoveThreatensNothing(N, c, a, att);
      return false, [];
    }

    MakeMove(position, context, a, att);
    ghost var c1 := position.Stones();
    var attackerWins := FindCreatedWinningMoves(position, a, att);
    ScannedWins(N, c, att, a, attackerWins, defenderWins);
    AttackOutcome(N, c, att, a, attackerWins);
    if attackerWins == [] {
      UnmakeMove(position, context, a, att, c);
      return false, [];
    }
    if |attackerWins| >= 2 {
      UnmakeMove(position, context, a, att, c);
      return true, [a];
    }
    var reply := attackerWins[0];
    ForcedPairKeepsLive(N, c, att, a, reply);
    ForcedSubtreeOf(N, c, att, a, reply);
    SingleThreatReduces(N, c, att, a, reply);
    MakeMove(position, context, reply, def);
    var solved, continuation := Search(position, context);
    UnmakeMove(position, context, reply, def, c1);
    UnmakeMove(position, context, a, att, c);
    if !solved {
      return false, [];
    }
    ForcedLineExtends(N, c, att, a, reply, continuation);
    assert ([a, reply] + continuation)[2..] == continuation;
    return true, [a, reply] + continuation;
  }

  method HashPosition(keys: KeyTable, position: Position) returns (hash: Word)
    requires position.Valid() && |keys| == CELLS
    ensures hash == Hash(keys, position.Stones())
  {
    hash := {};
    for a := 0 to CELLS
      invariant hash == HashPrefix(keys, position.Stones(), a)
    {
      var stone := position.cells[a];
      XorLaws({}, hash, {});
      if stone != Empty {
        hash := Xor(hash, Key(keys, a, stone));
      }
    }
  }

  /** The positions a search from c may enter. */
  ghost function Reachable(c: seq<Stone>, att: Colour): (s: set<seq<Stone>>)
    requires |c| == N * N
    ensures forall x :: x in s ==> |x| == CELLS
  {
    TreeLengths(N, c, att, 0);
    set x | x in ForcingTree(N, c, att)
  }

  /** A line comes back only if it wins against every defence. If none comes
      back although the budget was not exceeded and no two positions met share a
      hash, then there is no win by continuous fours. The positions met all
      belong to the tree of forced continuations, so a budget that covers that
      tree is never exceeded. */
  method SolveVCF(position: Position, keys: KeyTable, maxNodes: int)
    returns (line: seq<nat>, ghost visited: int, ghost met: set<seq<Stone>>)
    requires position.Valid() && |keys| == CELLS
    ensures position.currentPlayer == Empty || !Live(N, position.Stones()) ==> line == []
    ensures position.currentPlayer != Empty && line != [] ==>
      && ForcedLine(N, position.Stones(), position.currentPlayer, line)
      && VcfMove(N, position.Stones(), position.currentPlayer, line[0])
    ensures position.currentPlayer != Empty && Live(N, position.Stones()) ==>
      && met <= Reachable(position.Stones(), position.currentPlayer)
      && visited <= |ForcingTree(N, position.Stones(), position.currentPlayer)|
      && (line == [] && visited <= maxNodes && InjectiveOn(keys, met) ==>
            !Vcf(N, position.Stones(), position.currentPlayer))
      && (line != [] && visited <= maxNodes && InjectiveOn(keys, met) ==>
            FirstLine(N, position.Stones(), position.currentPlayer, line))
  {
    hide MakesFive, HasFive, ForcedLine, VcfMove, Vcf, ForcingTree, Hash, FirstLine;
    visited, met := 0, {};
    if position.currentPlayer == Empty {
      return [], visited, met;
    }
    var fiveBlack := HasExactFive(position, Black);
    var fiveWhite := HasExactFive(position, White);
    if fiveBlack || fiveWhite {
      return [], visited, met;
    }
    ghost var c := position.Stones();
    var att: Colour := position.currentPlayer;
    var hash := HashPosition(keys, position);
    var context := new SearchContext(keys, att, maxNodes, hash);
    var scratch := new Position(position.cells[..], att);
    var found, foundLine := Search(scratch, context);
    assert position.Stones() == c;
    visited, met := context.visitedNodes, context.seen;
    if found {
      ForcedLineWins(N, c, att, foundLine);
      return foundLine, visited, met;
    }
    return [], visited, met;
  }
}
