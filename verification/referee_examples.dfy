/** Runs of the match referee in which a grace period does not protect: the exact
    conditions of RefereeRuns are met from the empty server on. */
module RefereeExamples {
  import opened Grid
  import opened Swap2
  import opened RefereeSteps
  import opened RefereeRuns
  import opened Elo

  function EmptyServer(): State {
    State(map[], [], map[], map[], map[], true, map[], [], [])
  }

  lemma RunSnoc(cfg: Config, s: State, steps: seq<Step>, step: Step)
    ensures RunAll(cfg, s, steps + [step]) == After(cfg, step, RunAll(cfg, s, steps))
  {
    hide After;
    assert (steps + [step])[..|steps|] == steps;
  }

  /** Two players with their names, ids and first connections. */
  datatype Pair = Pair(nameA: string, nameB: string, playerA: string, playerB: string, connA: string, connB: string)
  {
    predicate Valid() {
      nameA != "" && nameB != "" && nameA != nameB && playerA != playerB && connA != connB
    }
  }

  function Arrivals(p: Pair): seq<Step> {
    [Enter(p.connA, p.nameA, p.playerA, 0), Enter(p.connB, p.nameB, p.playerB, 0)]
  }

  /** Both are there, and no game is. */
  ghost predicate BothThere(p: Pair, s: State) {
    && s.games == map[] && s.order == [] && s.ticking
    && s.conns == map[p.connA := p.playerA, p.connB := p.playerB]
    && s.live == map[p.playerA := p.connA, p.playerB := p.connB]
    && s.names == map[p.nameA := p.playerA, p.nameB := p.playerB]
  }

  lemma ArrivalsMean(cfg: Config, p: Pair)
    requires p.Valid()
    ensures BothThere(p, RunAll(cfg, EmptyServer(), Arrivals(p)))
  {
    var e1, e2 := Enter(p.connA, p.nameA, p.playerA, 0), Enter(p.connB, p.nameB, p.playerB, 0);
    var s0 := EmptyServer();
    assert RunAll(cfg, s0, []) == s0;
    RunSnoc(cfg, s0, [], e1);
    RunSnoc(cfg, s0, [e1], e2);
    assert [] + [e1] == [e1] && [e1] + [e2] == Arrivals(p);
    var s1 := After(cfg, e1, s0);
    assert s1 == s0.(conns := map[p.connA := p.playerA], live := map[p.playerA := p.connA],
                     names := map[p.nameA := p.playerA]);
    var s2 := After(cfg, e2, s1);
    assert s2 == s1.(conns := s1.conns[p.connB := p.playerB], live := s1.live[p.playerB := p.connB],
                     names := s1.names[p.nameB := p.playerB]);
  }

  // ----- The turn comes to an absent player ---------------------------------

  /** k stones of the opening are on the board, on the first squares. */
  ghost predicate OpeningStones(g: GameSummary, k: nat) {
    && g.size == 15 && !g.finished && |g.board.cells| == 225 && g.board.phase == PlaceInitialThree
    && g.board.seat == A && g.board.result == Undetermined && g.board.placed == k
    && g.board.toPlace == (if k == 1 then White else Black)
    && forall a :: k <= a < 225 ==> g.board.cells[a] == Empty
  }

  lemma OpeningStone(g: GameSummary, k: nat, live: map<string, string>, now: int)
    requires OpeningStones(g, k) && k <= 1 && g.playerA in live
    ensures g.Legal(k)
    ensures var g' := Advanced(Played(g, k), live, now);
      && OpeningStones(g', k + 1) && g' == g.(history := g'.history, board := g'.board, deadlineAt := g'.deadlineAt)
  {
  }

  lemma ThirdStone(g: GameSummary, live: map<string, string>, now: int)
    requires OpeningStones(g, 2) && g.playerB !in live && g.playerA != g.playerB
    ensures g.Legal(2)
    ensures var g' := Advanced(Played(g, 2), live, now); LostByDisconnect(g') && g'.board.result == PlayerAWin
  {
  }

  /** The second player has a grace period of a minute and goes away; the opener
      places the third stone a tick later, and the game is over. */
  function GraceRun(p: Pair, id: string): seq<Step> {
    var w := Writes(true, 4);
    Arrivals(p) + [Create(id, p.nameA, p.nameB, 15, 5000, 60000, true)] + [KickOff(id, 0, w)]
    + [Submit(p.connA, id, 0, 0, true, w)] + [Submit(p.connA, id, 1, 0, true, w)]
    + [Drop(p.connB, 0, map[])] + [Submit(p.connA, id, 2, 1, true, w)]
  }

  ghost predicate OneGame(p: Pair, id: string, s: State, g: GameSummary) {
    && s.games == map[id := g] && s.order == [id]
    && g.playerA == p.playerA && g.playerB == p.playerB && g.graceMs == 60000 && g.deadlineMs == 5000
    && s.names == map[p.nameA := p.playerA, p.nameB := p.playerB]
    && p.connA in s.conns && s.conns[p.connA] == p.playerA && p.playerA in s.live
  }

  lemma OneGameListed(p: Pair, id: string, s: State, g: GameSummary)
    requires OneGame(p, id, s, g)
    ensures Listed(s)
  {
  }

  lemma {:induction false} OpenTheGame(cfg: Config, p: Pair, id: string, s: State)
    requires p.Valid() && BothThere(p, s)
    ensures var t := After(cfg, Create(id, p.nameA, p.nameB, 15, 5000, 60000, true), s);
      && id in t.games && OneGame(p, id, t, t.games[id]) && OpeningStones(t.games[id], 0)
      && t.games[id].forfeitAt == None && t.games[id].deadlineAt == None && t.conns == s.conns && t.live == s.live
      && t.ticking
  {
  }

  lemma {:induction false} StartTheGame(cfg: Config, p: Pair, id: string, s: State, g: GameSummary, w: Writes)
    requires OneGame(p, id, s, g) && OpeningStones(g, 0) && g.forfeitAt == None
    ensures var t := After(cfg, KickOff(id, 0, w), s);
      && id in t.games && OneGame(p, id, t, t.games[id]) && OpeningStones(t.games[id], 0)
      && t.games[id].forfeitAt == None && t.conns == s.conns && t.live == s.live
  {
    hide After;
    var step := KickOff(id, 0, w);
    OneGameListed(p, id, s, g);
    AfterMeans(cfg, step, s, id);
    AfterLobby(cfg, step, s);
    OnlyOne(s, After(cfg, step, s), id);
  }

  lemma OnlyOne(s: State, t: State, id: string)
    requires s.games.Keys == t.games.Keys == {id}
    ensures t.games == map[id := t.games[id]]
  {
  }

  lemma {:induction false} PlaceStone(cfg: Config, p: Pair, id: string, s: State, g: GameSummary, k: nat, w: Writes)
    requires OneGame(p, id, s, g) && OpeningStones(g, k) && k <= 1
    ensures var t := After(cfg, Submit(p.connA, id, k, 0, true, w), s);
      && id in t.games && OneGame(p, id, t, t.games[id]) && OpeningStones(t.games[id], k + 1)
      && t.games[id].forfeitAt == g.forfeitAt && t.conns == s.conns && t.live == s.live
  {
    hide After, Advanced, Played, LegalAction, Shaped;
    var step := Submit(p.connA, id, k, 0, true, w);
    OneGameListed(p, id, s, g);
    AfterMeans(cfg, step, s, id);
    AfterLobby(cfg, step, s);
    OpeningStone(g, k, s.live, 0);
    assert MoveRefusal(s, p.connA, id, k) == None;
    OnlyOne(s, After(cfg, step, s), id);
  }

  lemma {:induction false} GoAway(cfg: Config, p: Pair, id: string, s: State, g: GameSummary, k: nat)
    requires p.Valid() && OneGame(p, id, s, g) && OpeningStones(g, k)
    requires p.connB in s.conns && s.conns[p.connB] == p.playerB
    ensures var t := After(cfg, Drop(p.connB, 0, map[]), s);
      && id in t.games && OneGame(p, id, t, t.games[id]) && OpeningStones(t.games[id], k)
      && t.games[id].forfeitAt == Some(60000) && p.playerB !in t.live
  {
    hide After, Reached;
    var step := Drop(p.connB, 0, map[]);
    OneGameListed(p, id, s, g);
    AfterMeans(cfg, step, s, id);
    AfterLobby(cfg, step, s);
    assert Reached(cfg, s.games, s.order, id, Leave(p.playerB, 0), map[]) by { FirstIsReached(cfg, s, id, p.playerB); }
    OnlyOne(s, After(cfg, step, s), id);
  }

  lemma FirstIsReached(cfg: Config, s: State, id: string, player: string)
    requires s.order == [id]
    ensures Reached(cfg, s.games, s.order, id, Leave(player, 0), map[])
  {
    hide RaisesAt;
    assert s.order[0] == id;
  }

  /** The forfeit was not due before time 60000, and the game ends at time 1. */
  lemma {:induction false} GraceDoesNotProtect(p: Pair, id: string)
    requires p.Valid()
    ensures var cfg, run := Config(true, true), GraceRun(p, id);
      var s, t := RunAll(cfg, EmptyServer(), run[..7]), RunAll(cfg, EmptyServer(), run);
      && |run| == 8 && id in s.games && !s.games[id].finished && s.games[id].forfeitAt == Some(60000)
      && id in t.games && LostByDisconnect(t.games[id]) && t.games[id].board.result == PlayerAWin
  {
    hide After, OneGame, OpeningStones, RunAll;
    var cfg, w, s0, r0 := Config(true, true), Writes(true, 4), EmptyServer(), Arrivals(p);
    ArrivalsMean(cfg, p);
    var e1 := Create(id, p.nameA, p.nameB, 15, 5000, 60000, true);
    var r1 := r0 + [e1];
    RunSnoc(cfg, s0, r0, e1);
    OpenTheGame(cfg, p, id, RunAll(cfg, s0, r0));
    var s1 := RunAll(cfg, s0, r1);
    var r2 := r1 + [KickOff(id, 0, w)];
    RunSnoc(cfg, s0, r1, KickOff(id, 0, w));
    StartTheGame(cfg, p, id, s1, s1.games[id], w);
    var s2 := RunAll(cfg, s0, r2);
    var r3 := r2 + [Submit(p.connA, id, 0, 0, true, w)];
    RunSnoc(cfg, s0, r2, Submit(p.connA, id, 0, 0, true, w));
    PlaceStone(cfg, p, id, s2, s2.games[id], 0, w);
    var s3 := RunAll(cfg, s0, r3);
    var r4 := r3 + [Submit(p.connA, id, 1, 0, true, w)];
    RunSnoc(cfg, s0, r3, Submit(p.connA, id, 1, 0, true, w));
    PlaceStone(cfg, p, id, s3, s3.games[id], 1, w);
    var s4 := RunAll(cfg, s0, r4);
    var r5 := r4 + [Drop(p.connB, 0, map[])];
    RunSnoc(cfg, s0, r4, Drop(p.connB, 0, map[]));
    GoAway(cfg, p, id, s4, s4.games[id], 2);
    var s5 := RunAll(cfg, s0, r5);
    RunSnoc(cfg, s0, r5, Submit(p.connA, id, 2, 1, true, w));
    LastStone(cfg, p, id, s5, s5.games[id], w);
    assert GraceRun(p, id) == r5 + [Submit(p.connA, id, 2, 1, true, w)];
    assert GraceRun(p, id)[..7] == r5;
  }

  lemma {:induction false} LastStone(cfg: Config, p: Pair, id: string, s: State, g: GameSummary, w: Writes)
    requires p.Valid() && OneGame(p, id, s, g) && OpeningStones(g, 2) && p.playerB !in s.live
    ensures !g.finished && id in s.games && s.games[id] == g
    ensures var t := After(cfg, Submit(p.connA, id, 2, 1, true, w), s);
      id in t.games && LostByDisconnect(t.games[id]) && t.games[id].board.result == PlayerAWin
  {
    hide After, Advanced, Played, LegalAction, Shaped;
    OneGameListed(p, id, s, g);
    ThirdStone(g, s.live, 1);
    assert MoveRefusal(s, p.connA, id, 2) == None;
    AfterMeans(cfg, Submit(p.connA, id, 2, 1, true, w), s, id);
  }

  // ----- An absent player with no forfeit pending -----------------------------

  /** A game is opened with a player who has gone. */
  lemma {:induction false} OpenedUnwatched(p: Pair, id: string)
    requires p.Valid()
    ensures var cfg := Config(true, true);
      var run := Arrivals(p) + [Drop(p.connB, 0, map[])] + [Create(id, p.nameA, p.nameB, 15, 5000, 60000, true)];
      var t := RunAll(cfg, EmptyServer(), run);
      id in t.games && !Watched(t.games[id], t.live)
  {
    hide RunAll;
    var cfg, s0, r0 := Config(true, true), EmptyServer(), Arrivals(p);
    ArrivalsMean(cfg, p);
    RunSnoc(cfg, s0, r0, Drop(p.connB, 0, map[]));
    RunSnoc(cfg, s0, r0 + [Drop(p.connB, 0, map[])], Create(id, p.nameA, p.nameB, 15, 5000, 60000, true));
  }

  /** Both players go, and the one who comes back lifts the forfeit of the other. */
  lemma {:induction false} ReturnedUnwatched(p: Pair, id: string, conn: string)
    requires p.Valid()
    ensures var cfg := Config(true, true);
      var run := Arrivals(p) + [Create(id, p.nameA, p.nameB, 15, 5000, 60000, true)] + [Drop(p.connB, 0, map[])]
                 + [Drop(p.connA, 0, map[])] + [Enter(conn, p.nameA, "", 1)];
      var t := RunAll(cfg, EmptyServer(), run);
      id in t.games && !Watched(t.games[id], t.live)
  {
    hide RunAll, After, OneGame, OpeningStones;
    var cfg, s0, r0 := Config(true, true), EmptyServer(), Arrivals(p);
    ArrivalsMean(cfg, p);
    var e1 := Create(id, p.nameA, p.nameB, 15, 5000, 60000, true);
    RunSnoc(cfg, s0, r0, e1);
    OpenTheGame(cfg, p, id, RunAll(cfg, s0, r0));
    var s1 := RunAll(cfg, s0, r0 + [e1]);
    RunSnoc(cfg, s0, r0 + [e1], Drop(p.connB, 0, map[]));
    GoAway(cfg, p, id, s1, s1.games[id], 0);
    var r2 := r0 + [e1] + [Drop(p.connB, 0, map[])];
    var s2 := RunAll(cfg, s0, r2);
    GoneB(cfg, p, s1);
    RunSnoc(cfg, s0, r2, Drop(p.connA, 0, map[]));
    var r3 := r2 + [Drop(p.connA, 0, map[])];
    BothGone(cfg, p, id, s2, s2.games[id]);
    RunSnoc(cfg, s0, r3, Enter(conn, p.nameA, "", 1));
    BackAlone(cfg, p, id, RunAll(cfg, s0, r3), conn);
  }

  lemma GoneB(cfg: Config, p: Pair, s: State)
    requires Listed(s) && p.connB in s.conns && s.conns[p.connB] == p.playerB
    ensures After(cfg, Drop(p.connB, 0, map[]), s).conns == s.conns - {p.connB}
  {
    hide After, Listed;
    AfterLobby(cfg, Drop(p.connB, 0, map[]), s);
  }

  ghost predicate Deserted(p: Pair, id: string, s: State) {
    && Listed(s) && id in s.games && p.playerA !in s.live && p.playerB !in s.live && s.conns == map[]
    && p.nameA in s.names && s.names[p.nameA] == p.playerA
    && var g := s.games[id]; !g.finished && g.graceMs == 60000 && g.playerA == p.playerA && g.playerB == p.playerB
  }

  lemma {:induction false} BothGone(cfg: Config, p: Pair, id: string, s: State, g: GameSummary)
    requires p.Valid() && OneGame(p, id, s, g) && OpeningStones(g, 0) && p.playerB !in s.live
    requires s.conns == map[p.connA := p.playerA]
    ensures Deserted(p, id, After(cfg, Drop(p.connA, 0, map[]), s))
  {
    hide After, Reached, Listed;
    OneGameListed(p, id, s, g);
    var step := Drop(p.connA, 0, map[]);
    AfterMeans(cfg, step, s, id);
    AfterLobby(cfg, step, s);
  }

  lemma {:induction false} BackAlone(cfg: Config, p: Pair, id: string, s: State, conn: string)
    requires p.Valid() && Deserted(p, id, s)
    ensures var t := After(cfg, Enter(conn, p.nameA, "", 1), s); id in t.games && !Watched(t.games[id], t.live)
  {
    hide After, Listed;
    var step := Enter(conn, p.nameA, "", 1);
    AfterMeans(cfg, step, s, id);
    AfterLobby(cfg, step, s);
    assert MayEnter(s, conn, p.nameA);
  }

  ghost predicate TwoGames(p: Pair, id: string, id2: string, s: State) {
    && s.order == [id, id2] && id in s.games && id2 in s.games
    && p.connB in s.conns && s.conns[p.connB] == p.playerB
    && var g, g2 := s.games[id], s.games[id2];
    && !g.finished && g.graceMs == 0 && g.playerA == p.playerA && g.playerB == p.playerB
    && !g2.finished && g2.graceMs == 60000 && g2.playerA == p.playerA && g2.playerB == p.playerB && g2.forfeitAt == None
  }

  lemma {:induction false} CutShort(p: Pair, id: string, id2: string, s: State)
    requires p.Valid() && id != id2 && Listed(s) && TwoGames(p, id, id2, s)
    ensures var t := After(Config(true, true), Drop(p.connB, 0, map[]), s);
      id2 in t.games && !Watched(t.games[id2], t.live)
  {
    hide After, Listed;
    var cfg, step := Config(true, true), Drop(p.connB, 0, map[]);
    AfterMeans(cfg, step, s, id2);
    AfterLobby(cfg, step, s);
    assert RaisesAt(cfg, s.games, s.order[0], Leave(p.playerB, 0), map[]);
    NotReachedBehind(cfg, s, id, id2, Leave(p.playerB, 0));
  }

  lemma NotReachedBehind(cfg: Config, s: State, id: string, id2: string, sweep: Sweep)
    requires id != id2 && s.order == [id, id2] && RaisesAt(cfg, s.games, id, sweep, map[])
    ensures !Reached(cfg, s.games, s.order, id2, sweep, map[])
  {
    hide RaisesAt;
    assert RaisesAt(cfg, s.games, s.order[0], sweep, map[]);
  }

  /** The journal fails for a game without a grace period, and the player's next
      game is not reached. */
  lemma {:induction false} DroppedUnwatched(p: Pair, id: string, id2: string)
    requires p.Valid() && id != id2
    ensures var cfg := Config(true, true);
      var run := Arrivals(p) + [Create(id, p.nameA, p.nameB, 15, 5000, 0, true)]
                 + [Create(id2, p.nameA, p.nameB, 15, 5000, 60000, true)] + [Drop(p.connB, 0, map[])];
      var t := RunAll(cfg, EmptyServer(), run);
      id2 in t.games && !Watched(t.games[id2], t.live)
  {
    hide RunAll, After, TwoGames, FirstGame, Listed;
    var cfg, s0, r0 := Config(true, true), EmptyServer(), Arrivals(p);
    ArrivalsMean(cfg, p);
    var e1, e2 := Create(id, p.nameA, p.nameB, 15, 5000, 0, true), Create(id2, p.nameA, p.nameB, 15, 5000, 60000, true);
    RunSnoc(cfg, s0, r0, e1);
    RunSnoc(cfg, s0, r0 + [e1], e2);
    RunSnoc(cfg, s0, r0 + [e1] + [e2], Drop(p.connB, 0, map[]));
    FirstOpened(p, id, RunAll(cfg, s0, r0));
    SecondOpened(p, id, id2, RunAll(cfg, s0, r0 + [e1]));
    CutShort(p, id, id2, RunAll(cfg, s0, r0 + [e1] + [e2]));
  }

  ghost predicate FirstGame(p: Pair, id: string, s: State) {
    && Listed(s) && s.order == [id] && s.games.Keys == {id} && BothThere(p, s.(games := map[], order := []))
    && var g := s.games[id]; !g.finished && g.graceMs == 0 && g.playerA == p.playerA && g.playerB == p.playerB
  }

  lemma {:induction false} FirstOpened(p: Pair, id: string, s: State)
    requires p.Valid() && BothThere(p, s)
    ensures FirstGame(p, id, After(Config(true, true), Create(id, p.nameA, p.nameB, 15, 5000, 0, true), s))
  {
    hide After, Initial;
    AfterLobby(Config(true, true), Create(id, p.nameA, p.nameB, 15, 5000, 0, true), s);
  }

  lemma {:induction false} SecondOpened(p: Pair, id: string, id2: string, s: State)
    requires p.Valid() && id != id2 && FirstGame(p, id, s)
    ensures var t := After(Config(true, true), Create(id2, p.nameA, p.nameB, 15, 5000, 60000, true), s);
      Listed(t) && TwoGames(p, id, id2, t)
  {
    hide After, Initial, Listed;
    var cfg, step := Config(true, true), Create(id2, p.nameA, p.nameB, 15, 5000, 60000, true);
    AfterLobby(cfg, step, s);
    AfterMeans(cfg, step, s, id);
  }

  // ----- The clock stops --------------------------------------------------------

  /** A deadline passes while the journal takes nothing: the game is over, and so
      is the clock. */
  lemma {:induction false} ClockStops(p: Pair, id: string)
    requires p.Valid()
    ensures var cfg, w := Config(true, true), Writes(true, 4);
      var run := Arrivals(p) + [Create(id, p.nameA, p.nameB, 15, 5000, 60000, true)] + [KickOff(id, 0, w)]
                 + [Tick(5000, map[])];
      !RunAll(cfg, EmptyServer(), run).ticking
  {
    hide RunAll, After, OneGame, OpeningStones;
    var cfg, w, s0, r0 := Config(true, true), Writes(true, 4), EmptyServer(), Arrivals(p);
    ArrivalsMean(cfg, p);
    var e1, e2 := Create(id, p.nameA, p.nameB, 15, 5000, 60000, true), KickOff(id, 0, w);
    RunSnoc(cfg, s0, r0, e1);
    OpenTheGame(cfg, p, id, RunAll(cfg, s0, r0));
    var s1 := RunAll(cfg, s0, r0 + [e1]);
    RunSnoc(cfg, s0, r0 + [e1], e2);
    RunSnoc(cfg, s0, r0 + [e1] + [e2], Tick(5000, map[]));
    TurnStarts(cfg, p, id, s1, s1.games[id], w);
    Expires(id, RunAll(cfg, s0, r0 + [e1] + [e2]));
  }

  lemma {:induction false} TurnStarts(cfg: Config, p: Pair, id: string, s: State, g: GameSummary, w: Writes)
    requires OneGame(p, id, s, g) && OpeningStones(g, 0) && g.deadlineAt == None && s.ticking
    ensures var t := After(cfg, KickOff(id, 0, w), s);
      Listed(t) && t.ticking && id in t.games && !t.games[id].finished && t.games[id].deadlineAt == Some(5000)
  {
    hide After;
    OneGameListed(p, id, s, g);
    AfterMeans(cfg, KickOff(id, 0, w), s, id);
    AfterLobby(cfg, KickOff(id, 0, w), s);
  }

  lemma {:induction false} Expires(id: string, s: State)
    requires Listed(s) && id in s.games && !s.games[id].finished && s.games[id].deadlineAt == Some(5000)
    ensures !After(Config(true, true), Tick(5000, map[]), s).ticking
  {
    hide After, Listed;
    AfterLobby(Config(true, true), Tick(5000, map[]), s);
    assert Clocked(s.games[id], 5000).finished && Fails(Config(true, true), WritesFor(map[], id));
  }
}
