/** What the steps of the referee do to a single game and what they tell about
    it, in plain terms: who loses and why, which times are set, what is announced,
    journalled and rated. Nothing here refers to how a step is computed. */
module RefereeVerdicts {
  import opened Swap2
  import opened RefereeRules
  import opened RefereeSteps
  import opened RefereeRuns
  import opened Elo

  /** The player whose turn it is. */
  function Mover(g: GameSummary): string {
    if g.board.seat == A then g.playerA else g.playerB
  }

  /** The seat of a player; seat A for a player who holds both. */
  function Side(g: GameSummary, player: string): Seat {
    if player == g.playerA then A else B
  }

  /** The game is over and the seat has lost; all else is as it was. */
  ghost predicate LostBy(g: GameSummary, g': GameSummary, seat: Seat, reason: string) {
    g' == g.(finished := true, reason := reason, deadlineAt := None,
             board := g.board.(result := if seat == A then PlayerBWin else PlayerAWin))
  }

  // ----- One game ----------------------------------------------------------

  /** A move is accepted from the registered player to move on a running game if it
      is legal and the journal takes it. */
  predicate Accepts(cfg: Config, s: State, conn: string, id: string, a: int, storeOk: bool) {
    && conn in s.conns && id in s.games && !s.games[id].finished && s.conns[conn] == Mover(s.games[id])
    && s.games[id].Legal(a) && (cfg.hasStore ==> storeOk)
  }

  /** It is on the board, the next player has a fresh deadline, and the game is
      over if the board is decided or the next player is not there. */
  ghost predicate MoveEffect(g: GameSummary, g': GameSummary, a: int, now: int, live: map<string, string>)
    requires g.Legal(a)
  {
    var x := g.(history := g.history + [a], board := ApplyPy(g.size, g.board, a),
                deadlineAt := Some(now + g.deadlineMs));
    if x.board.result == Draw then g' == x.(finished := true, reason := "draw", deadlineAt := None)
    else if x.board.result != Undetermined then
      g' == x.(finished := true, reason := "five_in_a_row", deadlineAt := None)
    else if Mover(x) in live then g' == x
    else LostBy(x, g', Side(x, Mover(x)), "disconnect")
  }

  /** A departure starts the grace period, or is a loss where there is none. */
  ghost predicate LeaveEffect(g: GameSummary, g': GameSummary, player: string, now: int) {
    if g.graceMs > 0 then g' == g.(forfeitAt := Some(now + g.graceMs), loser := Some(Side(g, player)))
    else LostBy(g, g', Side(g, player), "disconnect")
  }

  /** A return ends any grace period; the player to move gets a fresh deadline. */
  ghost predicate ReturnEffect(g: GameSummary, g': GameSummary, player: string, now: int) {
    g' == g.(forfeitAt := None, loser := None,
             deadlineAt := if Mover(g) == player then Some(now + g.deadlineMs) else g.deadlineAt)
  }

  predicate Late(g: GameSummary, now: int) {
    g.deadlineAt.Some? && now >= g.deadlineAt.value
  }

  predicate Gone(g: GameSummary, now: int) {
    g.forfeitAt.Some? && now >= g.forfeitAt.value
  }

  /** A player who is late loses; otherwise one whose grace period is over. */
  ghost predicate TickEffect(g: GameSummary, g': GameSummary, now: int) {
    if Late(g, now) then LostBy(g, g', g.board.seat, "timeout")
    else if Gone(g, now) then LostBy(g, g', if g.loser == Some(B) then B else A, "disconnect")
    else g' == g
  }

  /** The player to move gets a deadline if there is none yet, or loses when not there. */
  ghost predicate TurnEffect(g: GameSummary, g': GameSummary, now: int, live: map<string, string>) {
    if Mover(g) !in live then LostBy(g, g', Side(g, Mover(g)), "disconnect")
    else g' == g.(deadlineAt := if g.deadlineAt == None then Some(now + g.deadlineMs) else g.deadlineAt)
  }

  predicate Takes(cfg: Config, ws: map<string, Writes>, id: string) {
    cfg.hasStore ==> id in ws && ws[id].finishOk
  }

  /** The journal takes the result of every game that a tick ends. */
  ghost predicate TickJournalled(cfg: Config, games: map<string, GameSummary>, now: int, ws: map<string, Writes>) {
    forall id ::
      id in games && !games[id].finished && (Late(games[id], now) || Gone(games[id], now)) ==> Takes(cfg, ws, id)
  }

  /** The journal takes the result of every game that a departure ends. */
  ghost predicate DropJournalled(cfg: Config, games: map<string, GameSummary>, player: string,
                                 ws: map<string, Writes>)
  {
    forall id ::
      id in games && !games[id].finished && games[id].Plays(player) && games[id].graceMs <= 0 ==> Takes(cfg, ws, id)
  }

  /** A known player without a connection comes back on a free connection. */
  predicate Returns(s: State, conn: string, name: string) {
    name != "" && conn !in s.conns && name in s.names && s.names[name] !in s.live
  }

  /** What a step makes of a running game. */
  ghost predicate Effect(cfg: Config, step: Step, s: State, id: string, g': GameSummary)
    requires id in s.games
  {
    var g := s.games[id];
    match step
    case Submit(conn, id', a, now, storeOk, w) =>
      if id == id' && Accepts(cfg, s, conn, id, a, storeOk) then MoveEffect(g, g', a, now, s.live) else g' == g
    case Quit(conn, id', w) =>
      if id == id' && conn in s.conns && g.Plays(s.conns[conn]) then
        LostBy(g, g', Side(g, s.conns[conn]), "resignation")
      else g' == g
    case Enter(conn, name, freshId, now) =>
      if Returns(s, conn, name) && g.Plays(s.names[name]) then ReturnEffect(g, g', s.names[name], now) else g' == g
    case Drop(conn, now, ws) =>
      if conn in s.conns && g.Plays(s.conns[conn]) then
        && (g' == g || LeaveEffect(g, g', s.conns[conn], now))
        && (DropJournalled(cfg, s.games, s.conns[conn], ws) ==> LeaveEffect(g, g', s.conns[conn], now))
      else g' == g
    case Tick(now, ws) =>
      if s.ticking then
        && (g' == g || TickEffect(g, g', now))
        && (TickJournalled(cfg, s.games, now, ws) ==> TickEffect(g, g', now))
      else g' == g
    case Create(_, _, _, _, _, _, _) => g' == g
    case KickOff(id', now, w) => if id == id' then TurnEffect(g, g', now, s.live) else g' == g
  }

  /** Every step has that effect on every running game, and none on others. */
  lemma {:induction false} StepEffect(cfg: Config, step: Step, s: State, id: string)
    requires Listed(s) && id in s.games && (!s.games[id].finished ==> s.games[id].board.result == Undetermined)
    ensures var g, t := s.games[id], After(cfg, step, s);
      id in t.games && if g.finished then t.games[id] == g else Effect(cfg, step, s, id, t.games[id])
  {
    hide After, LegalAction, Shaped, ApplyPy, Listed, Moved, Effect, Grown;
    AfterMakesProgress(cfg, step, s);
    AfterMeans(cfg, step, s, id);
    if !s.games[id].finished {
      EffectOfMove(cfg, step, s, id, After(cfg, step, s).games[id]);
    } else {
      FinishedStays(s.games[id], After(cfg, step, s).games[id]);
    }
  }

  lemma FinishedStays(g: GameSummary, g': GameSummary)
    requires Grown(g, g') && g.finished
    ensures g' == g
  {
  }

  lemma {:induction false} EffectOfMove(cfg: Config, step: Step, s: State, id: string, g': GameSummary)
    requires Listed(s) && id in s.games && !s.games[id].finished && s.games[id].board.result == Undetermined
    requires Moved(cfg, step, s, id, g')
    ensures Effect(cfg, step, s, id, g')
  {
    hide LegalAction, Shaped, ApplyPy, Listed, Reached, TickUndisturbed, TickJournalled, DropJournalled, Clocked, Swept;
    hide LeaveEffect, TickEffect, ReturnEffect, MoveEffect, TurnEffect, Advanced, Played, TurnSent, LostBy, Closed;
    var g := s.games[id];
    match step
    case Submit(conn, id', a, now, storeOk, w) =>
      if id == id' && MoveRefusal(s, conn, id', a) == None {
        MoveHasEffect(g, a, now, s.live);
      }
    case Quit(conn, id', w) =>
      if id == id' && ResignRefusal(s, conn, id') == None {
        ClosedIsLost(g, g.SeatOf(s.conns[conn]), "resignation");
      }
    case Enter(conn, name, freshId, now) =>
      if name in s.names { ReturnHasEffect(g, s.names[name], now); }
    case Drop(conn, now, ws) =>
      if conn in s.conns {
        LeaveHasEffect(g, s.conns[conn], now);
        if DropJournalled(cfg, s.games, s.conns[conn], ws) {
          DropReachesAll(cfg, s, id, s.conns[conn], now, ws);
        }
      }
    case Tick(now, ws) =>
      TickHasEffect(g, now);
      if TickJournalled(cfg, s.games, now, ws) {
        TickReachesAll(cfg, s.games, now, ws);
      }
    case Create(_, _, _, _, _, _, _) =>
    case KickOff(id', now, w) => TurnHasEffect(g, now, s.live);
  }

  lemma ClosedIsLost(g: GameSummary, seat: Seat, reason: string)
    requires g.board.result == Undetermined
    ensures LostBy(g, Closed(g, WinnerForLoser(seat), reason), seat, reason)
  {
  }

  lemma MoveHasEffect(g: GameSummary, a: int, now: int, live: map<string, string>)
    requires g.Legal(a) && !g.finished
    ensures MoveEffect(g, Advanced(Played(g, a), live, now), a, now, live)
  {
    hide ApplyPy, LegalAction, Shaped;
  }

  lemma ReturnHasEffect(g: GameSummary, player: string, now: int)
    requires !g.finished
    ensures if g.Plays(player) then ReturnEffect(g, Swept(g, Return(player, now)), player, now)
            else Swept(g, Return(player, now)) == g
  {
  }

  lemma LeaveHasEffect(g: GameSummary, player: string, now: int)
    requires !g.finished && g.board.result == Undetermined
    ensures if g.Plays(player) then LeaveEffect(g, Swept(g, Leave(player, now)), player, now)
            else Swept(g, Leave(player, now)) == g
  {
  }

  lemma TickHasEffect(g: GameSummary, now: int)
    requires !g.finished && g.board.result == Undetermined
    ensures TickEffect(g, Clocked(g, now), now)
    ensures Clocked(g, now).finished <==> Late(g, now) || Gone(g, now)
  {
  }

  lemma TurnHasEffect(g: GameSummary, now: int, live: map<string, string>)
    requires !g.finished && g.board.result == Undetermined
    ensures TurnEffect(g, TurnSent(g, live, now), now, live)
  {
  }

  lemma {:induction false} DropReachesAll(cfg: Config, s: State, id: string, player: string, now: int,
                                          ws: map<string, Writes>)
    requires Listed(s) && id in s.games && DropJournalled(cfg, s.games, player, ws)
    ensures Reached(cfg, s.games, s.order, id, Leave(player, now), ws)
  {
    forall k | 0 <= k < |s.order| ensures !RaisesAt(cfg, s.games, s.order[k], Leave(player, now), ws) {
      assert s.order[k] in s.order;
    }
    hide RaisesAt;
    UndisturbedReaches(cfg, s.games, s.order, id, Leave(player, now), ws);
  }

  lemma {:induction false} TickReachesAll(cfg: Config, games: map<string, GameSummary>, now: int,
                                          ws: map<string, Writes>)
    requires TickJournalled(cfg, games, now, ws)
    ensures TickUndisturbed(cfg, games, now, ws)
  {
    forall id | id in games && !games[id].finished && Clocked(games[id], now).finished
      ensures !Fails(cfg, WritesFor(ws, id))
    {
      assert Late(games[id], now) || Gone(games[id], now);
    }
  }

  // ----- Who loses ----------------------------------------------------------

  lemma ReasonsDiffer()
    ensures "timeout" != "disconnect" && "resignation" != "timeout" && "resignation" != "disconnect"
    ensures "draw" !in {"timeout", "resignation"} && "five_in_a_row" !in {"timeout", "resignation"}
  {
    assert "resignation"[0] == 'r' && "timeout"[0] == 't' && "draw"[0] == 'd' && "disconnect"[0] == 'd';
    assert "five_in_a_row"[0] == 'f' && "draw"[1] == 'r';
  }

  /** At a tick whose results the journal takes a late player loses, and exactly
      the games of late players end by timeout. */
  lemma {:induction false} LateMoverLoses(cfg: Config, s: State, now: int, ws: map<string, Writes>, id: string)
    requires Listed(s) && id in s.games && !s.games[id].finished && s.games[id].board.result == Undetermined
    requires s.ticking && TickJournalled(cfg, s.games, now, ws)
    ensures var g, t := s.games[id], After(cfg, Tick(now, ws), s); id in t.games && var g' := t.games[id];
      && (g'.finished && g'.reason == "timeout" <==> Late(g, now))
      && (Late(g, now) ==>
            && g'.board.result == (if g.board.seat == A then PlayerBWin else PlayerAWin)
            && LoserOf(g') == if g.board.seat == A then g.playerA else g.playerB)
      && (g'.finished && g'.reason == "disconnect" <==> !Late(g, now) && Gone(g, now))
      && (!Late(g, now) && Gone(g, now) ==>
            && g'.board.result == (if g.loser == Some(B) then PlayerAWin else PlayerBWin)
            && LoserOf(g') == if g.loser == Some(B) then g.playerB else g.playerA)
  {
    hide After, Listed, TickJournalled;
    ReasonsDiffer();
    StepEffect(cfg, Tick(now, ws), s, id);
  }

  /** A participant who resigns loses the game, whatever becomes of the writes. */
  lemma {:induction false} ResigningPlayerLoses(cfg: Config, s: State, conn: string, id: string, w: Writes)
    requires Listed(s) && id in s.games && !s.games[id].finished && s.games[id].board.result == Undetermined
    requires conn in s.conns && (s.conns[conn] == s.games[id].playerA || s.conns[conn] == s.games[id].playerB)
    ensures var g, t := s.games[id], After(cfg, Quit(conn, id, w), s);
      && id in t.games && t.games[id].finished && t.games[id].reason == "resignation"
      && LoserOf(t.games[id]) == s.conns[conn]
      && t.games[id].board.result == if s.conns[conn] == g.playerA then PlayerBWin else PlayerAWin
  {
    hide After, Listed;
    StepEffect(cfg, Quit(conn, id, w), s, id);
  }

  /** In every run: at every step, every game that is there takes the effect of
      the step; in particular the verdicts of ticks and resignations. */
  lemma {:induction false} EffectsInRuns(cfg: Config, s: State, steps: seq<Step>, i: nat, id: string)
    requires Orderly(s) && FreshIds(cfg, s, steps) && i < |steps| && id in RunAll(cfg, s, steps[..i]).games
    ensures var u, t := RunAll(cfg, s, steps[..i]), RunAll(cfg, s, steps[..i + 1]); var g := u.games[id];
      id in t.games && if g.finished then t.games[id] == g else Effect(cfg, steps[i], u, id, t.games[id])
  {
    hide After, Orderly, NewIdFresh, RunAll, Effect;
    RunKeepsOrderly(cfg, s, steps, i);
    RunNext(cfg, s, steps, i);
    RunningIsOpen(RunAll(cfg, s, steps[..i]), id);
    StepEffect(cfg, steps[i], RunAll(cfg, s, steps[..i]), id);
  }

  lemma RunningIsOpen(s: State, id: string)
    requires Orderly(s) && id in s.games
    ensures Listed(s) && (!s.games[id].finished ==> s.games[id].board.result == Undetermined)
  {
  }

  /** At every tick of every run, as long as the clock runs. */
  lemma {:induction false} LateMoverLosesInRuns(cfg: Config, s: State, steps: seq<Step>, i: nat, id: string)
    requires Orderly(s) && FreshIds(cfg, s, steps) && i < |steps| && id in RunAll(cfg, s, steps[..i]).games
    requires steps[i].Tick? && RunAll(cfg, s, steps[..i]).ticking
    requires TickJournalled(cfg, RunAll(cfg, s, steps[..i]).games, steps[i].now, steps[i].ws)
    requires !RunAll(cfg, s, steps[..i]).games[id].finished
    ensures var g, t := RunAll(cfg, s, steps[..i]).games[id], RunAll(cfg, s, steps[..i + 1]);
      && id in t.games && (Late(g, steps[i].now) <==> t.games[id].finished && t.games[id].reason == "timeout")
      && (Late(g, steps[i].now) ==>
            LoserOf(t.games[id]) == Mover(g) &&
            t.games[id].board.result == if g.board.seat == A then PlayerBWin else PlayerAWin)
  {
    hide After, Orderly, NewIdFresh, RunAll, TickJournalled;
    RunKeepsOrderly(cfg, s, steps, i);
    RunNext(cfg, s, steps, i);
    RunningIsOpen(RunAll(cfg, s, steps[..i]), id);
    LateMoverLoses(cfg, RunAll(cfg, s, steps[..i]), steps[i].now, steps[i].ws, id);
  }

  /** A new game is between the two named players, on an empty board, with nothing
      running yet. */
  lemma {:induction false} OpeningMeans(cfg: Config, step: Step, s: State)
    requires Listed(s) && step.Create? && step.id !in s.games
    ensures var t := After(cfg, step, s);
      && (step.id in t.games <==> step.nameA in s.names && step.nameB in s.names && step.size >= 5)
      && (step.id in t.games ==>
            var g := t.games[step.id];
            && g.nameA == step.nameA && g.nameB == step.nameB
            && g.playerA == s.names[step.nameA] && g.playerB == s.names[step.nameB]
            && g.size == step.size && g.deadlineMs == step.deadlineMs && g.graceMs == step.graceMs
            && g.history == [] && g.board == Initial(step.size) && !g.finished
            && g.deadlineAt == None && g.forfeitAt == None && g.loser == None
            && t.order == s.order + [step.id])
  {
    hide Initial;
  }

  // ----- What is told about it -------------------------------------------------

  /** A step that does not concern a game. */
  ghost predicate Quiet(s: State, t: State, id: string) {
    && id in s.games && id in t.games && t.games[id] == s.games[id] && s.events <= t.events && s.db <= t.db
    && (forall e :: e in t.events[|s.events|..] && (e.GameFinished? || e.YourTurn?) ==> e.gameId != id)
    && (forall d :: d in t.db[|s.db|..] && d.Rate? ==> d.m.gameId != id)
    && (id in t.finals <==> id in s.finals) && (id in s.finals ==> t.finals[id] == s.finals[id])
  }

  /** The end of a game is journalled if the journal takes it. If it does, or if
      there is none, the end is announced and rated, each with the names, the
      result and the reason of the game, and nothing else is announced or rated.
      A running game whose turn is due has its player to move told. */
  ghost predicate Told(cfg: Config, s: State, t: State, id: string, w: Writes, due: bool) {
    && id in s.games && id in t.games && s.events <= t.events && s.db <= t.db
    && var g, g' := s.games[id], t.games[id];
       var ended, lost := !g.finished && g'.finished, cfg.hasStore && !w.finishOk;
       && (forall r: Result, why: string :: GameFinished(id, r, why) in t.events[|s.events|..] <==>
             ended && !lost && r == g'.board.result && why == g'.reason)
       && (forall m: Match, n: nat :: m.gameId == id ==>
             (Rate(m, n) in t.db[|s.db|..] <==>
              ended && !lost && cfg.hasElo && m == Match(id, g.nameA, g.nameB, g'.board.result) && n == w.ratingSteps))
       && (forall seat: Seat :: YourTurn(id, seat) in t.events[|s.events|..] <==>
             due && !g'.finished && seat == g'.board.seat)
       && (if ended && cfg.hasStore && w.finishOk then
             id in t.finals && t.finals[id] == (g'.board.result, g'.reason)
           else (id in t.finals <==> id in s.finals) && (id in s.finals ==> t.finals[id] == s.finals[id]))
  }

  lemma QuietIsTold(cfg: Config, s: State, t: State, id: string, w: Writes)
    requires Quiet(s, t, id)
    ensures Told(cfg, s, t, id, w, false)
  {
  }

  lemma QuietReflexive(s: State, id: string)
    requires id in s.games
    ensures Quiet(s, s, id)
  {
  }

  lemma {:induction false} QuietTwice(s: State, u: State, t: State, id: string)
    requires Quiet(s, u, id) && Quiet(u, t, id)
    ensures Quiet(s, t, id)
  {
    assert t.events[|s.events|..] == u.events[|s.events|..] + t.events[|u.events|..];
    assert t.db[|s.db|..] == u.db[|s.db|..] + t.db[|u.db|..];
  }

  lemma {:induction false} QuietThenTold(cfg: Config, s: State, u: State, t: State, id: string, w: Writes, due: bool)
    requires Quiet(s, u, id) && Told(cfg, u, t, id, w, due)
    ensures Told(cfg, s, t, id, w, due)
  {
    assert t.events[|s.events|..] == u.events[|s.events|..] + t.events[|u.events|..];
    assert t.db[|s.db|..] == u.db[|s.db|..] + t.db[|u.db|..];
  }

  lemma {:induction false} ToldThenQuiet(cfg: Config, s: State, u: State, t: State, id: string, w: Writes, due: bool)
    requires Told(cfg, s, u, id, w, due) && Quiet(u, t, id)
    ensures Told(cfg, s, t, id, w, due)
  {
    assert t.events[|s.events|..] == u.events[|s.events|..] + t.events[|u.events|..];
    assert t.db[|s.db|..] == u.db[|s.db|..] + t.db[|u.db|..];
  }

  lemma {:induction false} UpdateTells(cfg: Config, s: State, id: string, x: GameSummary, w: Writes, turn: bool)
    requires id in s.games && !s.games[id].finished && x.nameA == s.games[id].nameA && x.nameB == s.games[id].nameB
    ensures Told(cfg, s, Updated(cfg, s, id, x, w, turn), id, w, turn)
  {
    var t := Updated(cfg, s, id, x, w, turn);
    assert t.events[|s.events|..] ==
      if x.finished then FinishEvents(cfg, id, x, w) else if turn then [YourTurn(id, x.board.seat)] else [];
    assert t.db[|s.db|..] == if x.finished then FinishWrites(cfg, id, x, w) else [];
  }

  lemma {:induction false} UpdateIsQuiet(cfg: Config, s: State, id: string, x: GameSummary, w: Writes, turn: bool,
                                         other: string)
    requires other in s.games && other != id
    ensures Quiet(s, Updated(cfg, s, id, x, w, turn), other)
  {
    var t := Updated(cfg, s, id, x, w, turn);
    assert t.events[|s.events|..] ==
      if x.finished then FinishEvents(cfg, id, x, w) else if turn then [YourTurn(id, x.board.seat)] else [];
    assert t.db[|s.db|..] == if x.finished then FinishWrites(cfg, id, x, w) else [];
  }

  lemma {:induction false} VisitTells(cfg: Config, s: State, id: string, sweep: Sweep, w: Writes, other: string)
    requires id in s.games && other in s.games
    ensures var t := Visited(cfg, s, id, sweep, w);
      && (other != id ==> Quiet(s, t, other))
      && (other == id && !Concerned(s.games[id], sweep) ==> Quiet(s, t, id))
      && (other == id && Concerned(s.games[id], sweep) ==> Told(cfg, s, t, id, w, SendsTurn(s.games[id], sweep)))
  {
    hide Quiet, Told, Updated, Swept, Concerned, SendsTurn;
    QuietReflexive(s, other);
    if Concerned(s.games[id], sweep) {
      SweptKeepsNames(s.games[id], sweep);
      if other == id {
        UpdateTells(cfg, s, id, Swept(s.games[id], sweep), w, SendsTurn(s.games[id], sweep));
      } else {
        UpdateIsQuiet(cfg, s, id, Swept(s.games[id], sweep), w, SendsTurn(s.games[id], sweep), other);
      }
    }
  }

  lemma SweptKeepsNames(g: GameSummary, sweep: Sweep)
    ensures Swept(g, sweep).nameA == g.nameA && Swept(g, sweep).nameB == g.nameB
    ensures Concerned(g, sweep) ==> !g.finished
  {
  }

  /** A sweep tells what there is to tell about each game, once. */
  lemma {:induction false} SweepTells(cfg: Config, s: State, ids: seq<string>, sweep: Sweep, ws: map<string, Writes>,
                                      id: string)
    requires NoDup(ids) && id in s.games
    ensures var t := SweepFrom(cfg, s, ids, sweep, ws).0;
      if Reached(cfg, s.games, ids, id, sweep, ws) && Concerned(s.games[id], sweep) then
        Told(cfg, s, t, id, WritesFor(ws, id), SendsTurn(s.games[id], sweep))
      else Quiet(s, t, id)
    decreases |ids|
  {
    hide Visited, RaisesAt, Reached, NoDup, Quiet, Told, Concerned, SendsTurn;
    QuietReflexive(s, id);
    if ids == [] {
      NoneReached(cfg, s.games, sweep, ws);
    } else if ids[0] !in s.games {
      NothingVisited(cfg, s, ids[0], sweep, WritesFor(ws, ids[0]));
      SweepTellsRest(cfg, s, ids, sweep, ws, id);
    } else {
      VisitTells(cfg, s, ids[0], sweep, WritesFor(ws, ids[0]), id);
      SweepTellsRest(cfg, s, ids, sweep, ws, id);
    }
  }

  lemma NothingVisited(cfg: Config, s: State, id: string, sweep: Sweep, w: Writes)
    requires id !in s.games
    ensures Visited(cfg, s, id, sweep, w) == s
  {
  }

  lemma {:induction false} SweepTellsRest(cfg: Config, s: State, ids: seq<string>, sweep: Sweep,
                                          ws: map<string, Writes>, id: string)
    requires ids != [] && NoDup(ids) && id in s.games
    requires var u := Visited(cfg, s, ids[0], sweep, WritesFor(ws, ids[0]));
      if ids[0] == id && Concerned(s.games[id], sweep) then
        Told(cfg, s, u, id, WritesFor(ws, id), SendsTurn(s.games[id], sweep))
      else Quiet(s, u, id)
    ensures var t := SweepFrom(cfg, s, ids, sweep, ws).0;
      if Reached(cfg, s.games, ids, id, sweep, ws) && Concerned(s.games[id], sweep) then
        Told(cfg, s, t, id, WritesFor(ws, id), SendsTurn(s.games[id], sweep))
      else Quiet(s, t, id)
    decreases |ids|, 0
  {
    hide Visited, RaisesAt, Reached, NoDup, Quiet, Told, Concerned, SendsTurn;
    var u := Visited(cfg, s, ids[0], sweep, WritesFor(ws, ids[0]));
    VisitsOne(cfg, s, ids[0], sweep, WritesFor(ws, ids[0]));
    NoDupRest(ids);
    SplitSweep(cfg, s.games, u.games, ids, sweep, ws);
    if !RaisesAt(cfg, s.games, ids[0], sweep, ws) {
      var t := SweepFrom(cfg, u, ids[1..], sweep, ws).0;
      SweepTells(cfg, u, ids[1..], sweep, ws, id);
      if ids[0] == id {
        if Concerned(s.games[id], sweep) {
          ToldThenQuiet(cfg, s, u, t, id, WritesFor(ws, id), SendsTurn(s.games[id], sweep));
        } else {
          QuietTwice(s, u, t, id);
        }
      } else if Reached(cfg, u.games, ids[1..], id, sweep, ws) && Concerned(u.games[id], sweep) {
        QuietThenTold(cfg, s, u, t, id, WritesFor(ws, id), SendsTurn(s.games[id], sweep));
      } else {
        QuietTwice(s, u, t, id);
      }
    }
  }

  /** Whether a running game has a turn to be sent in a step: after a move, when a
      player to move comes back, and at the start. */
  predicate TurnDue(cfg: Config, step: Step, s: State, id: string)
    requires id in s.games
  {
    && !s.games[id].finished
    && match step
       case Submit(conn, id', a, now, storeOk, w) => id == id' && Accepts(cfg, s, conn, id, a, storeOk)
       case Enter(conn, name, freshId, now) => Returns(s, conn, name) && Mover(s.games[id]) == s.names[name]
       case KickOff(id', now, w) => id == id'
       case _ => false
  }

  /** The fate of a step's writes for one game. */
  function FateOf(step: Step, id: string): Writes {
    match step
    case Submit(_, _, _, _, _, w) => w
    case Quit(_, _, w) => w
    case Drop(_, _, ws) => if id in ws then ws[id] else Writes(false, 0)
    case Tick(_, ws) => if id in ws then ws[id] else Writes(false, 0)
    case KickOff(_, _, w) => w
    case _ => Writes(false, 0)
  }

  /** Every step tells exactly that about every game. */
  lemma {:induction false} StepTells(cfg: Config, step: Step, s: State, id: string)
    requires Listed(s) && id in s.games
    ensures Told(cfg, s, After(cfg, step, s), id, FateOf(step, id), TurnDue(cfg, step, s, id))
  {
    hide Told, Quiet, Submitted, Resigned, Entered, Dropped, Ticked, Created, KickedOff, Accepts, Returns, Listed;
    match step
    case Submit(_, _, _, _, _, _) => SubmitTells(cfg, step, s, id);
    case Quit(_, _, _) => QuitTells(cfg, step, s, id);
    case Enter(_, _, _, _) => EnterTells(cfg, step, s, id);
    case Drop(_, _, _) => DropTells(cfg, step, s, id);
    case Tick(_, _) => TickTells(cfg, step, s, id);
    case Create(_, _, _, _, _, _, _) => CreateTells(cfg, step, s, id);
    case KickOff(_, _, _) => KickOffTells(cfg, step, s, id);
  }

  lemma {:induction false} AcceptedExactly(cfg: Config, s: State, conn: string, id: string, a: int, storeOk: bool)
    ensures Accepts(cfg, s, conn, id, a, storeOk) <==>
      MoveRefusal(s, conn, id, a) == None && !(cfg.hasStore && !storeOk)
  {
    hide LegalAction, Shaped;
  }

  /** What a refusal says: the first of the conditions that fails. */
  lemma {:induction false} RefusalSays(s: State, conn: string, id: string, a: int)
    ensures var said := MoveRefusal(s, conn, id, a);
      && (said == Some(UnknownPlayer) <==> conn !in s.conns)
      && (said == Some(UnknownGame) <==> conn in s.conns && id !in s.games)
      && (conn in s.conns && id in s.games ==>
            && (said == Some(TerminalPosition) <==> s.games[id].finished)
            && (said == Some(NotYourTurn) <==> !s.games[id].finished && s.conns[conn] != Mover(s.games[id]))
            && (said == Some(IllegalAction) <==>
                  !s.games[id].finished && s.conns[conn] == Mover(s.games[id]) && !s.games[id].Legal(a)))
    ensures var said := ResignRefusal(s, conn, id);
      && (said == Some(UnknownPlayer) <==> conn !in s.conns)
      && (said == Some(UnknownGame) <==> conn in s.conns && id !in s.games)
      && (conn in s.conns && id in s.games ==>
            && (said == Some(TerminalPosition) <==> s.games[id].finished)
            && (said == Some(NotYourTurn) <==>
                  !s.games[id].finished
                  && s.conns[conn] != s.games[id].playerA && s.conns[conn] != s.games[id].playerB))
  {
    hide LegalAction, Shaped;
  }

  lemma {:induction false} SubmitTells(cfg: Config, step: Step, s: State, id: string)
    requires step.Submit? && id in s.games
    ensures Told(cfg, s, After(cfg, step, s), id, FateOf(step, id), TurnDue(cfg, step, s, id))
  {
    hide Told, Quiet, MoveRefusal, Accepts, Advanced, Played, Updated;
    var Submit(conn, id', a, now, storeOk, w) := step;
    AcceptedExactly(cfg, s, conn, id', a, storeOk);
    var t := After(cfg, step, s);
    if !Accepts(cfg, s, conn, id', a, storeOk) {
      RefusalIsQuiet(cfg, s, t, id);
      QuietIsTold(cfg, s, t, id, w);
    } else {
      AcceptedRuns(cfg, s, conn, id', a, storeOk);
      var u := s.(events := s.events + [StateChanged(id', a)], db := s.db + JournalWrite(cfg, true));
      MoveNewsIsQuiet(cfg, s, u, id, id', a);
      var x := Advanced(Played(s.games[id'], a), s.live, now);
      if id == id' {
        UpdateTells(cfg, u, id, x, w, true);
        QuietThenTold(cfg, s, u, t, id, w, true);
      } else {
        UpdateIsQuiet(cfg, u, id', x, w, true, id);
        QuietTwice(s, u, t, id);
        QuietIsTold(cfg, s, t, id, w);
      }
    }
  }

  lemma AcceptedRuns(cfg: Config, s: State, conn: string, id: string, a: int, storeOk: bool)
    requires Accepts(cfg, s, conn, id, a, storeOk)
    ensures id in s.games && !s.games[id].finished && s.games[id].Legal(a)
    ensures forall now :: var x := Advanced(Played(s.games[id], a), s.live, now);
      x.nameA == s.games[id].nameA && x.nameB == s.games[id].nameB
  {
    hide ApplyPy, LegalAction, Shaped;
  }

  lemma RefusalIsQuiet(cfg: Config, s: State, t: State, id: string)
    requires id in s.games && (t == s || t == s.(db := s.db + JournalWrite(cfg, false)))
    ensures Quiet(s, t, id)
  {
  }

  lemma MoveNewsIsQuiet(cfg: Config, s: State, u: State, id: string, id': string, a: int)
    requires id in s.games
    requires u == s.(events := s.events + [StateChanged(id', a)], db := s.db + JournalWrite(cfg, true))
    ensures Quiet(s, u, id)
  {
  }

  lemma {:induction false} QuitTells(cfg: Config, step: Step, s: State, id: string)
    requires step.Quit? && id in s.games
    ensures Told(cfg, s, After(cfg, step, s), id, FateOf(step, id), TurnDue(cfg, step, s, id))
  {
    hide Told, Quiet, Updated;
    var Quit(conn, id', w) := step;
    var t := After(cfg, step, s);
    QuietReflexive(s, id);
    if ResignRefusal(s, conn, id') == None {
      var g := s.games[id'];
      var x := Closed(g, WinnerForLoser(g.SeatOf(s.conns[conn])), "resignation");
      if id == id' {
        UpdateTells(cfg, s, id, x, w, false);
      } else {
        UpdateIsQuiet(cfg, s, id', x, w, false, id);
        QuietIsTold(cfg, s, t, id, w);
      }
    } else {
      QuietIsTold(cfg, s, t, id, w);
    }
  }

  lemma {:induction false} EnterTells(cfg: Config, step: Step, s: State, id: string)
    requires step.Enter? && Listed(s) && id in s.games
    ensures Told(cfg, s, After(cfg, step, s), id, FateOf(step, id), TurnDue(cfg, step, s, id))
  {
    hide Told, Quiet, SweepFrom, Reached, Undisturbed;
    var Enter(conn, name, freshId, now) := step;
    var t := After(cfg, step, s);
    QuietReflexive(s, id);
    if MayEnter(s, conn, name) {
      var player := if name in s.names then s.names[name] else freshId;
      var u := s.(conns := s.conns[conn := player], live := s.live[player := conn], names := s.names[name := player]);
      LobbyIsQuiet(s, u, id);
      if name in s.names {
        ReturnUndisturbed(cfg, s.games, s.order, player, now);
        UndisturbedReaches(cfg, s.games, s.order, id, Return(player, now), map[]);
        SweepTells(cfg, u, s.order, Return(player, now), map[], id);
        if Concerned(s.games[id], Return(player, now)) {
          QuietThenTold(cfg, s, u, t, id, Writes(false, 0), SendsTurn(s.games[id], Return(player, now)));
        } else {
          QuietTwice(s, u, t, id);
          QuietIsTold(cfg, s, t, id, Writes(false, 0));
        }
      } else {
        QuietIsTold(cfg, s, t, id, Writes(false, 0));
      }
    } else {
      QuietIsTold(cfg, s, t, id, Writes(false, 0));
    }
  }

  lemma LobbyIsQuiet(s: State, u: State, id: string)
    requires id in s.games && u == s.(conns := u.conns, live := u.live, names := u.names, ticking := u.ticking)
    ensures Quiet(s, u, id)
  {
  }

  lemma {:induction false} DropTells(cfg: Config, step: Step, s: State, id: string)
    requires step.Drop? && Listed(s) && id in s.games
    ensures Told(cfg, s, After(cfg, step, s), id, FateOf(step, id), TurnDue(cfg, step, s, id))
  {
    hide Told, Quiet, SweepFrom, Reached, Concerned;
    var Drop(conn, now, ws) := step;
    var t, w := After(cfg, step, s), WritesFor(ws, id);
    QuietReflexive(s, id);
    if conn in s.conns {
      var u, sweep := Forgotten(s, conn), Leave(s.conns[conn], now);
      LobbyIsQuiet(s, u, id);
      SweepTells(cfg, u, s.order, sweep, ws, id);
      if Reached(cfg, s.games, s.order, id, sweep, ws) && Concerned(s.games[id], sweep) {
        QuietThenTold(cfg, s, u, t, id, w, false);
      } else {
        QuietTwice(s, u, t, id);
        QuietIsTold(cfg, s, t, id, w);
      }
    } else {
      QuietIsTold(cfg, s, t, id, w);
    }
  }

  lemma {:induction false} TickTells(cfg: Config, step: Step, s: State, id: string)
    requires step.Tick? && Listed(s) && id in s.games
    ensures Told(cfg, s, After(cfg, step, s), id, FateOf(step, id), TurnDue(cfg, step, s, id))
  {
    hide Told, Quiet, SweepFrom, Reached, Concerned, Undisturbed;
    var Tick(now, ws) := step;
    var t, w := After(cfg, step, s), WritesFor(ws, id);
    QuietReflexive(s, id);
    if !s.ticking {
      QuietIsTold(cfg, s, t, id, w);
    } else {
      var (u, raised) := SweepFrom(cfg, s, s.order, TimeUp(now), ws);
      SweepTells(cfg, s, s.order, TimeUp(now), ws, id);
      SweepMeans(cfg, s, s.order, TimeUp(now), ws);
      if raised {
        LobbyIsQuiet(u, t, id);
        AfterFirstPass(cfg, s, u, t, id, w, Reached(cfg, s.games, s.order, id, TimeUp(now), ws) &&
                                            Concerned(s.games[id], TimeUp(now)));
      } else {
        var v := SweepFrom(cfg, u, s.order, GraceUp(now), ws).0;
        SweepTells(cfg, u, s.order, GraceUp(now), ws, id);
        SweepMeans(cfg, u, s.order, GraceUp(now), ws);
        LobbyIsQuiet(v, t, id);
        BothPassesTell(cfg, s, u, v, t, id, now, ws);
      }
    }
  }

  lemma {:induction false} AfterFirstPass(cfg: Config, s: State, u: State, t: State, id: string, w: Writes, told: bool)
    requires (if told then Told(cfg, s, u, id, w, false) else Quiet(s, u, id)) && Quiet(u, t, id)
    ensures Told(cfg, s, t, id, w, false)
  {
    hide Told, Quiet;
    if told {
      ToldThenQuiet(cfg, s, u, t, id, w, false);
    } else {
      QuietTwice(s, u, t, id);
      QuietIsTold(cfg, s, t, id, w);
    }
  }

  lemma {:induction false} BothPassesTell(cfg: Config, s: State, u: State, v: State, t: State, id: string, now: int,
                                          ws: map<string, Writes>)
    requires id in s.games && id in u.games && Quiet(v, t, id)
    requires var first := Reached(cfg, s.games, s.order, id, TimeUp(now), ws) && Concerned(s.games[id], TimeUp(now));
      && u.games[id] == (if Reached(cfg, s.games, s.order, id, TimeUp(now), ws) then Swept(s.games[id], TimeUp(now))
                         else s.games[id])
      && if first then Told(cfg, s, u, id, WritesFor(ws, id), false) else Quiet(s, u, id)
    requires
      if Reached(cfg, u.games, s.order, id, GraceUp(now), ws) && Concerned(u.games[id], GraceUp(now)) then
        Told(cfg, u, v, id, WritesFor(ws, id), false)
      else Quiet(u, v, id)
    ensures Told(cfg, s, t, id, WritesFor(ws, id), false)
  {
    hide Told, Quiet, Reached;
    var w := WritesFor(ws, id);
    if Concerned(u.games[id], GraceUp(now)) && Reached(cfg, u.games, s.order, id, GraceUp(now), ws) {
      StillRunning(s.games[id], TimeUp(now));
      QuietThenTold(cfg, s, u, v, id, w, false);
      ToldThenQuiet(cfg, s, v, t, id, w, false);
    } else {
      QuietTwice(u, v, t, id);
      AfterFirstPass(cfg, s, u, t, id, w, Reached(cfg, s.games, s.order, id, TimeUp(now), ws) &&
                                          Concerned(s.games[id], TimeUp(now)));
    }
  }

  lemma {:induction false} CreateTells(cfg: Config, step: Step, s: State, id: string)
    requires step.Create? && id in s.games
    ensures Told(cfg, s, After(cfg, step, s), id, FateOf(step, id), TurnDue(cfg, step, s, id))
  {
    hide Told, NewGame;
    var t := After(cfg, step, s);
    CreationIsQuiet(cfg, step, s, t, id);
    QuietIsTold(cfg, s, t, id, FateOf(step, id));
  }

  lemma CreationIsQuiet(cfg: Config, step: Step, s: State, t: State, id: string)
    requires step.Create? && id in s.games && t == After(cfg, step, s)
    ensures Quiet(s, t, id)
  {
    hide NewGame;
    if t != s {
      assert t.events[|s.events|..] == if cfg.hasStore && !step.startOk then [] else [GameStarted(step.id)];
      assert t.db[|s.db|..] == JournalWrite(cfg, step.startOk);
    }
  }

  lemma {:induction false} KickOffTells(cfg: Config, step: Step, s: State, id: string)
    requires step.KickOff? && id in s.games
    ensures Told(cfg, s, After(cfg, step, s), id, FateOf(step, id), TurnDue(cfg, step, s, id))
  {
    hide Told, Quiet, Updated;
    var KickOff(id', now, w) := step;
    var t := After(cfg, step, s);
    QuietReflexive(s, id);
    if id' in s.games && !s.games[id'].finished {
      var x := TurnSent(s.games[id'], s.live, now);
      if id == id' {
        UpdateTells(cfg, s, id, x, w, true);
      } else {
        UpdateIsQuiet(cfg, s, id', x, w, true, id);
        QuietIsTold(cfg, s, t, id, w);
      }
    } else {
      QuietIsTold(cfg, s, t, id, w);
    }
  }

  /** With both a journal and ratings, the journal write of a move comes first and
      commits, or rolls back, what earlier rating updates left pending. */
  lemma {:induction false} MoveSettles(cfg: Config, s: State, conn: string, id: string, a: int, now: int,
                                       storeOk: bool, w: Writes)
    requires cfg.hasStore && cfg.hasElo && Accepts(cfg, s, conn, id, a, true)
    ensures var t := After(cfg, Submit(conn, id, a, now, storeOk, w), s);
      && s.db < t.db && t.db[|s.db|] == (if storeOk then JournalCommit else JournalRollback)
      && (!storeOk ==> t == s.(db := s.db + [JournalRollback]))
  {
    hide LegalAction, Shaped, ApplyPy, Advanced, Played;
    AcceptedExactly(cfg, s, conn, id, a, true);
  }

  /** So does the journal write of a result, before the game is rated. */
  lemma {:induction false} EndSettles(cfg: Config, s: State, conn: string, id: string, w: Writes)
    requires cfg.hasStore && cfg.hasElo && id in s.games && !s.games[id].finished && conn in s.conns
    requires s.games[id].board.result == Undetermined && s.games[id].Plays(s.conns[conn])
    ensures var g, t := s.games[id], After(cfg, Quit(conn, id, w), s);
      t.db == s.db +
        if w.finishOk then
          [JournalCommit,
           Rate(Match(id, g.nameA, g.nameB, if Side(g, s.conns[conn]) == A then PlayerBWin else PlayerAWin),
                w.ratingSteps)]
        else [JournalRollback]
  {
  }

  /** So at every step of every run. */
  lemma {:induction false} ToldInRuns(cfg: Config, s: State, steps: seq<Step>, i: nat, id: string)
    requires Listed(s) && i < |steps| && id in RunAll(cfg, s, steps[..i]).games
    ensures var u, t := RunAll(cfg, s, steps[..i]), RunAll(cfg, s, steps[..i + 1]);
      Told(cfg, u, t, id, FateOf(steps[i], id), TurnDue(cfg, steps[i], u, id))
  {
    hide After, RunAll, Told, TurnDue, Listed;
    RunMakesProgress(cfg, s, steps, 0, i);
    RunNext(cfg, s, steps, i);
    StepTells(cfg, steps[i], RunAll(cfg, s, steps[..i]), id);
  }
}
