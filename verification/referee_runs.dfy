/** What every run of the match referee keeps, who can lose and when: progress,
    the disconnect grace, and the clock. */
module RefereeRuns {
  import opened Swap2
  import opened RefereeRules
  import opened RefereeSteps
  import opened Elo

  /** The order of creation lists the games, each once. */
  ghost predicate Listed(s: State) {
    NoDup(s.order) && forall id :: id in s.order <==> id in s.games
  }

  // ----- One step, game by game --------------------------------------------

  /** A game at a tick that is not cut short. */
  function Clocked(g: GameSummary, now: int): GameSummary {
    Swept(Swept(g, TimeUp(now)), GraceUp(now))
  }

  /** The journal takes the result of every game that a tick ends. */
  ghost predicate TickUndisturbed(cfg: Config, games: map<string, GameSummary>, now: int, ws: map<string, Writes>) {
    forall id :: id in games && !games[id].finished && Clocked(games[id], now).finished ==>
      !Fails(cfg, WritesFor(ws, id))
  }

  /** What a step makes of one game that was there before. */
  ghost predicate Moved(cfg: Config, step: Step, s: State, id: string, g': GameSummary)
    requires id in s.games
  {
    var g := s.games[id];
    match step
    case Submit(conn, id', a, now, storeOk, w) =>
      g' == if id == id' && MoveRefusal(s, conn, id', a) == None && (cfg.hasStore ==> storeOk)
            then Advanced(Played(g, a), s.live, now) else g
    case Quit(conn, id', w) =>
      g' == if id == id' && ResignRefusal(s, conn, id') == None
            then Closed(g, WinnerForLoser(g.SeatOf(s.conns[conn])), "resignation") else g
    case Enter(conn, name, freshId, now) =>
      g' == if MayEnter(s, conn, name) && name in s.names then Swept(g, Return(s.names[name], now)) else g
    case Drop(conn, now, ws) =>
      g' == if conn in s.conns && Reached(cfg, s.games, s.order, id, Leave(s.conns[conn], now), ws)
            then Swept(g, Leave(s.conns[conn], now)) else g
    case Tick(now, ws) =>
      && (g' == g || (s.ticking && g' == Clocked(g, now)))
      && (s.ticking && TickUndisturbed(cfg, s.games, now, ws) ==> g' == Clocked(g, now))
    case Create(id', nameA, nameB, size, deadlineMs, graceMs, startOk) => g' == g
    case KickOff(id', now, w) => g' == if id == id' then TurnSent(g, s.live, now) else g
  }

  /** What a step makes of the connections, the names and the clock. */
  ghost predicate LobbyMoved(cfg: Config, step: Step, s: State, t: State) {
    match step
    case Enter(conn, name, freshId, now) =>
      var player := if name in s.names then s.names[name] else freshId;
      && t.ticking == s.ticking
      && (t.conns, t.live, t.names) ==
         if MayEnter(s, conn, name) then (s.conns[conn := player], s.live[player := conn], s.names[name := player])
         else (s.conns, s.live, s.names)
    case Drop(conn, now, ws) =>
      && t.names == s.names && t.ticking == s.ticking
      && (t.conns, t.live) ==
         if conn in s.conns then (s.conns - {conn}, s.live - {s.conns[conn]}) else (s.conns, s.live)
    case Tick(now, ws) =>
      && t.conns == s.conns && t.live == s.live && t.names == s.names
      && (t.ticking <==> s.ticking && TickUndisturbed(cfg, s.games, now, ws))
    case _ => t.conns == s.conns && t.live == s.live && t.names == s.names && t.ticking == s.ticking
  }

  /** The game that a step opens. */
  ghost predicate Opens(step: Step, s: State) {
    step.Create? && step.id !in s.games && step.nameA in s.names && step.nameB in s.names && step.size >= 5
  }

  function Opened(step: Step, s: State): GameSummary
    requires step.Create? && step.nameA in s.names && step.nameB in s.names && step.size >= 5
  {
    NewGame(step.nameA, step.nameB, s.names[step.nameA], s.names[step.nameB], step.size, step.deadlineMs, step.graceMs)
  }

  lemma ReturnUndisturbed(cfg: Config, games: map<string, GameSummary>, ids: seq<string>, player: string, now: int)
    ensures Undisturbed(cfg, games, ids, Return(player, now), map[])
  {
  }

  lemma UndisturbedReaches(cfg: Config, games: map<string, GameSummary>, ids: seq<string>, id: string, sweep: Sweep,
                           ws: map<string, Writes>)
    requires Undisturbed(cfg, games, ids, sweep, ws) && id in ids
    ensures Reached(cfg, games, ids, id, sweep, ws)
  {
    hide RaisesAt;
  }

  lemma {:induction false} SweepingMeans(cfg: Config, step: Step, s: State, id: string)
    requires Listed(s) && id in s.games && (step.Enter? || step.Drop?)
    ensures var t := After(cfg, step, s); id in t.games && Moved(cfg, step, s, id, t.games[id])
  {
    hide SweepFrom, Swept, Reached, Undisturbed, NoDup, MayEnter;
    match step
    case Enter(conn, name, freshId, now) =>
      var player := if name in s.names then s.names[name] else freshId;
      var s' := s.(conns := s.conns[conn := player], live := s.live[player := conn], names := s.names[name := player]);
      SweepMeans(cfg, s', s.order, Return(player, now), map[]);
      ReturnUndisturbed(cfg, s.games, s.order, player, now);
      UndisturbedReaches(cfg, s.games, s.order, id, Return(player, now), map[]);
    case Drop(conn, now, ws) =>
      if conn in s.conns {
        SweepMeans(cfg, Forgotten(s, conn), s.order, Leave(s.conns[conn], now), ws);
      }
  }

  /** The two passes of a tick come to one verdict for each game. */
  lemma {:induction false} TickMeans(cfg: Config, s: State, now: int, ws: map<string, Writes>, id: string)
    requires Listed(s) && id in s.games
    ensures var t := Ticked(cfg, s, now, ws); id in t.games && Moved(cfg, Tick(now, ws), s, id, t.games[id])
  {
    hide SweepFrom, Swept, Reached, Undisturbed, NoDup, Clocked, TickUndisturbed;
    if s.ticking {
      SweepMeans(cfg, s, s.order, TimeUp(now), ws);
      OneVerdict(s.games[id], now);
      if SweepFrom(cfg, s, s.order, TimeUp(now), ws).1 {
        FirstPassDisturbs(cfg, s, now, ws);
      } else {
        BothPasses(cfg, s, now, ws, id);
      }
    }
  }

  lemma {:induction false} BothPasses(cfg: Config, s: State, now: int, ws: map<string, Writes>, id: string)
    requires Listed(s) && id in s.games && !SweepFrom(cfg, s, s.order, TimeUp(now), ws).1
    ensures var (t, raised) := SweepFrom(cfg, SweepFrom(cfg, s, s.order, TimeUp(now), ws).0, s.order, GraceUp(now), ws);
      && id in t.games && (raised <==> !TickUndisturbed(cfg, s.games, now, ws))
      && (t.games[id] == Clocked(s.games[id], now) || (raised && t.games[id] == s.games[id]))
  {
    hide SweepFrom, Swept, Reached, Undisturbed, NoDup, Clocked, TickUndisturbed;
    var s1 := SweepFrom(cfg, s, s.order, TimeUp(now), ws).0;
    SweepMeans(cfg, s, s.order, TimeUp(now), ws);
    SweepMeans(cfg, s1, s.order, GraceUp(now), ws);
    forall id' | id' in s.games ensures s1.games[id'] == Swept(s.games[id'], TimeUp(now)) {
      UndisturbedReaches(cfg, s.games, s.order, id', TimeUp(now), ws);
    }
    SecondPassDecides(cfg, s, s1, now, ws);
    OneVerdict(s.games[id], now);
    if Undisturbed(cfg, s1.games, s.order, GraceUp(now), ws) {
      UndisturbedReaches(cfg, s1.games, s.order, id, GraceUp(now), ws);
    }
  }

  lemma OneVerdict(g: GameSummary, now: int)
    ensures Swept(g, TimeUp(now)) == g || Swept(g, TimeUp(now)) == Clocked(g, now)
    ensures Clocked(g, now) == g || Clocked(g, now) == Swept(g, TimeUp(now)) || Swept(g, TimeUp(now)) == g
    ensures Clocked(g, now) == Swept(Swept(g, TimeUp(now)), GraceUp(now))
  {
  }

  lemma FirstPassDisturbs(cfg: Config, s: State, now: int, ws: map<string, Writes>)
    requires Listed(s) && !Undisturbed(cfg, s.games, s.order, TimeUp(now), ws)
    ensures !TickUndisturbed(cfg, s.games, now, ws)
  {
    hide Swept;
    var k :| 0 <= k < |s.order| && RaisesAt(cfg, s.games, s.order[k], TimeUp(now), ws);
    OneVerdict(s.games[s.order[k]], now);
    StillRunning(s.games[s.order[k]], TimeUp(now));
  }

  lemma StillRunning(g: GameSummary, sweep: Sweep)
    ensures Concerned(g, sweep) ==> !g.finished
    ensures g.finished ==> Swept(g, sweep) == g
    ensures Swept(g, sweep).finished && !g.finished ==> Concerned(g, sweep)
    ensures sweep.TimeUp? || sweep.GraceUp? ==> (Swept(g, sweep).finished <==> g.finished || Concerned(g, sweep))
  {
  }

  lemma {:induction false} SecondPassDecides(cfg: Config, s: State, s1: State, now: int, ws: map<string, Writes>)
    requires Listed(s) && s1.games.Keys == s.games.Keys && Undisturbed(cfg, s.games, s.order, TimeUp(now), ws)
    requires forall id :: id in s.games ==> s1.games[id] == Swept(s.games[id], TimeUp(now))
    ensures Undisturbed(cfg, s1.games, s.order, GraceUp(now), ws) <==> TickUndisturbed(cfg, s.games, now, ws)
  {
    hide Swept, Concerned;
    forall id | id in s.games
      ensures (RaisesAt(cfg, s.games, id, TimeUp(now), ws) || RaisesAt(cfg, s1.games, id, GraceUp(now), ws)) <==>
        !s.games[id].finished && Clocked(s.games[id], now).finished && Fails(cfg, WritesFor(ws, id))
    {
      StillRunning(s.games[id], TimeUp(now));
      StillRunning(s1.games[id], GraceUp(now));
    }
    if !TickUndisturbed(cfg, s.games, now, ws) {
      var id :|
        id in s.games && !s.games[id].finished && Clocked(s.games[id], now).finished && Fails(cfg, WritesFor(ws, id));
      var k :| 0 <= k < |s.order| && s.order[k] == id;
      assert !RaisesAt(cfg, s.games, s.order[k], TimeUp(now), ws);
      assert RaisesAt(cfg, s1.games, s.order[k], GraceUp(now), ws);
    }
  }

  /** Every step, told game by game. */
  lemma {:induction false} AfterMeans(cfg: Config, step: Step, s: State, id: string)
    requires Listed(s) && id in s.games
    ensures var t := After(cfg, step, s); id in t.games && Moved(cfg, step, s, id, t.games[id])
  {
    hide SweepFrom, Swept, Reached, Ticked, MoveRefusal, ResignRefusal, Updated, Advanced, Closed, TurnSent, Played;
    hide MayEnter, NoDup, Clocked, TickUndisturbed, NewGame;
    match step
    case Submit(conn, id', a, now, storeOk, w) =>
      if MoveRefusal(s, conn, id', a) == None {
        RefusalMeans(s, conn, id', a);
        var s' := s.(events := s.events + [StateChanged(id', a)], db := s.db + JournalWrite(cfg, true));
        UpdatesOne(cfg, s', id', Advanced(Played(s.games[id'], a), s.live, now), w, true);
      }
    case Quit(conn, id', w) =>
      if ResignRefusal(s, conn, id') == None {
        ResignRefusalMeans(s, conn, id');
        var g := s.games[id'];
        UpdatesOne(cfg, s, id', Closed(g, WinnerForLoser(g.SeatOf(s.conns[conn])), "resignation"), w, false);
      }
    case Enter(_, _, _, _) => SweepingMeans(cfg, step, s, id);
    case Drop(_, _, _) => SweepingMeans(cfg, step, s, id);
    case Tick(now, ws) => TickMeans(cfg, s, now, ws, id);
    case Create(_, _, _, _, _, _, _) =>
    case KickOff(id', now, w) =>
      if id' in s.games {
        UpdatesOne(cfg, s, id', TurnSent(s.games[id'], s.live, now), w, true);
        FinishedGetsNoTurn(s.games[id'], s.live, now);
      }
  }

  lemma {:induction false} TickLobby(cfg: Config, s: State, now: int, ws: map<string, Writes>)
    requires Listed(s)
    ensures var t := Ticked(cfg, s, now, ws);
      t.order == s.order && t.games.Keys == s.games.Keys && LobbyMoved(cfg, Tick(now, ws), s, t)
  {
    hide SweepFrom, Swept, Reached, Undisturbed, NoDup, TickUndisturbed;
    if s.ticking {
      var (s1, raised) := SweepFrom(cfg, s, s.order, TimeUp(now), ws);
      SweepMeans(cfg, s, s.order, TimeUp(now), ws);
      if raised {
        FirstPassDisturbs(cfg, s, now, ws);
      } else {
        SweepMeans(cfg, s1, s.order, GraceUp(now), ws);
        forall id | id in s.games ensures s1.games[id] == Swept(s.games[id], TimeUp(now)) {
          UndisturbedReaches(cfg, s.games, s.order, id, TimeUp(now), ws);
        }
        SecondPassDecides(cfg, s, s1, now, ws);
      }
    }
  }

  ghost predicate LobbyAsSpecified(cfg: Config, step: Step, s: State, t: State) {
    && Listed(t) && LobbyMoved(cfg, step, s, t) && t.order == (if Opens(step, s) then s.order + [step.id] else s.order)
    && t.games.Keys == (if Opens(step, s) then s.games.Keys + {step.id} else s.games.Keys)
    && (Opens(step, s) ==> t.games[step.id] == Opened(step, s))
  }

  lemma {:induction false} LobbyOfOne(cfg: Config, step: Step, s: State)
    requires Listed(s) && (step.Submit? || step.Quit? || step.KickOff?)
    ensures LobbyAsSpecified(cfg, step, s, After(cfg, step, s))
  {
    hide MoveRefusal, ResignRefusal, Updated, Advanced, Closed, TurnSent, Played, NoDup;
    match step
    case Submit(conn, id, a, now, storeOk, w) =>
      if MoveRefusal(s, conn, id, a) == None {
        RefusalMeans(s, conn, id, a);
        var s' := s.(events := s.events + [StateChanged(id, a)], db := s.db + JournalWrite(cfg, true));
        UpdatesOne(cfg, s', id, Advanced(Played(s.games[id], a), s.live, now), w, true);
      }
    case Quit(conn, id, w) =>
      if ResignRefusal(s, conn, id) == None {
        ResignRefusalMeans(s, conn, id);
        var g := s.games[id];
        UpdatesOne(cfg, s, id, Closed(g, WinnerForLoser(g.SeatOf(s.conns[conn])), "resignation"), w, false);
      }
    case KickOff(id, now, w) =>
      if id in s.games {
        UpdatesOne(cfg, s, id, TurnSent(s.games[id], s.live, now), w, true);
      }
  }

  lemma {:induction false} LobbyOfSweep(cfg: Config, step: Step, s: State)
    requires Listed(s) && (step.Enter? || step.Drop?)
    ensures LobbyAsSpecified(cfg, step, s, After(cfg, step, s))
  {
    hide SweepFrom, Swept, Reached, MayEnter, NoDup, Undisturbed;
    match step
    case Enter(conn, name, freshId, now) =>
      var player := if name in s.names then s.names[name] else freshId;
      var s' := s.(conns := s.conns[conn := player], live := s.live[player := conn], names := s.names[name := player]);
      SweepMeans(cfg, s', s.order, Return(player, now), map[]);
    case Drop(conn, now, ws) =>
      if conn in s.conns {
        SweepMeans(cfg, Forgotten(s, conn), s.order, Leave(s.conns[conn], now), ws);
      }
  }

  lemma LobbyOfCreation(cfg: Config, step: Step, s: State)
    requires Listed(s) && step.Create?
    ensures LobbyAsSpecified(cfg, step, s, After(cfg, step, s))
  {
    hide NewGame, NoDup;
    if Opens(step, s) {
      ListedAppend(s.order, step.id);
    }
  }

  /** What a step makes of the rest. */
  lemma {:induction false} AfterLobby(cfg: Config, step: Step, s: State)
    requires Listed(s)
    ensures LobbyAsSpecified(cfg, step, s, After(cfg, step, s))
  {
    hide NoDup, Ticked, Submitted, Resigned, Entered, Dropped, Created, KickedOff, TickUndisturbed;
    match step
    case Submit(_, _, _, _, _, _) => LobbyOfOne(cfg, step, s);
    case Quit(_, _, _) => LobbyOfOne(cfg, step, s);
    case KickOff(_, _, _) => LobbyOfOne(cfg, step, s);
    case Enter(_, _, _, _) => LobbyOfSweep(cfg, step, s);
    case Drop(_, _, _) => LobbyOfSweep(cfg, step, s);
    case Create(_, _, _, _, _, _, _) => LobbyOfCreation(cfg, step, s);
    case Tick(now, ws) => TickLobby(cfg, s, now, ws);
  }

  lemma ListedAppend(order: seq<string>, id: string)
    requires NoDup(order) && id !in order
    ensures NoDup(order + [id]) && forall id' :: id' in order + [id] <==> id' in order || id' == id
  {
  }

  lemma RefusalMeans(s: State, conn: string, id: string, a: int)
    requires MoveRefusal(s, conn, id, a) == None
    ensures id in s.games && s.games[id].Legal(a) && !s.games[id].finished
  {
    hide Shaped, LegalAction;
  }

  lemma ResignRefusalMeans(s: State, conn: string, id: string)
    requires ResignRefusal(s, conn, id) == None
    ensures id in s.games && conn in s.conns && !s.games[id].finished && s.games[id].Plays(s.conns[conn])
  {
  }

  lemma FinishedGetsNoTurn(g: GameSummary, live: map<string, string>, now: int)
    ensures g.finished ==> TurnSent(g, live, now) == g
  {
  }

  // ----- What no step takes back ------------------------------------------

  ghost predicate Grown(s: GameSummary, t: GameSummary) {
    && s.history <= t.history && (s.finished ==> t == s)
    && s.nameA == t.nameA && s.nameB == t.nameB && s.playerA == t.playerA && s.playerB == t.playerB
    && s.size == t.size && s.deadlineMs == t.deadlineMs && s.graceMs == t.graceMs
  }

  /** Games are never removed, histories only grow, finished games stay as they are. */
  ghost predicate Progress(before: map<string, GameSummary>, after: map<string, GameSummary>) {
    forall id :: id in before ==> id in after && Grown(before[id], after[id])
  }

  lemma ClosingGrows(g: GameSummary, result: Result, reason: string)
    requires !g.finished
    ensures Grown(g, Closed(g, result, reason))
  {
  }

  lemma SendingGrows(g: GameSummary, live: map<string, string>, now: int)
    ensures Grown(g, TurnSent(g, live, now))
  {
  }

  lemma SweepingGrows(g: GameSummary, sweep: Sweep)
    ensures Grown(g, Swept(g, sweep))
  {
  }

  lemma PlayingGrows(g: GameSummary, a: int, live: map<string, string>, now: int)
    requires !g.finished && g.Legal(a)
    ensures Grown(g, Advanced(Played(g, a), live, now))
  {
    hide ApplyPy;
  }

  lemma {:induction false} MovingGrows(cfg: Config, step: Step, s: State, id: string, g': GameSummary)
    requires id in s.games && Moved(cfg, step, s, id, g')
    ensures Grown(s.games[id], g')
  {
    hide Swept, Advanced, Played, Closed, TurnSent, Reached, Grown, TickUndisturbed, LegalAction, Shaped;
    var g := s.games[id];
    GrownReflexive(g);
    match step
    case Submit(conn, id', a, now, storeOk, w) =>
      if MoveRefusal(s, conn, id', a) == None && id == id' { PlayingGrows(g, a, s.live, now); }
    case Quit(conn, id', w) =>
      if ResignRefusal(s, conn, id') == None && id == id' {
        ClosingGrows(g, WinnerForLoser(g.SeatOf(s.conns[conn])), "resignation");
      }
    case Enter(conn, name, freshId, now) =>
      if name in s.names { SweepingGrows(g, Return(s.names[name], now)); }
    case Drop(conn, now, ws) =>
      if conn in s.conns { SweepingGrows(g, Leave(s.conns[conn], now)); }
    case Tick(now, ws) =>
      SweepingGrows(g, TimeUp(now));
      SweepingGrows(Swept(g, TimeUp(now)), GraceUp(now));
      GrownTransitive(g, Swept(g, TimeUp(now)), Clocked(g, now));
    case Create(_, _, _, _, _, _, _) =>
    case KickOff(id', now, w) => SendingGrows(g, s.live, now);
  }

  lemma GrownReflexive(g: GameSummary)
    ensures Grown(g, g)
  {
  }

  lemma GrownTransitive(g: GameSummary, g': GameSummary, g'': GameSummary)
    requires Grown(g, g') && Grown(g', g'')
    ensures Grown(g, g'')
  {
  }

  lemma {:induction false} AfterMakesProgress(cfg: Config, step: Step, s: State)
    requires Listed(s)
    ensures Progress(s.games, After(cfg, step, s).games) && Listed(After(cfg, step, s))
  {
    hide After, Moved, Grown, Listed;
    forall id | id in s.games
      ensures id in After(cfg, step, s).games && Grown(s.games[id], After(cfg, step, s).games[id])
    {
      AfterMeans(cfg, step, s, id);
      MovingGrows(cfg, step, s, id, After(cfg, step, s).games[id]);
    }
    AfterLobby(cfg, step, s);
  }

  /** Nor does any run, from any moment of it to any later one. */
  lemma {:induction false} RunMakesProgress(cfg: Config, s: State, steps: seq<Step>, i: nat, j: nat)
    requires Listed(s) && i <= j <= |steps|
    ensures Progress(RunAll(cfg, s, steps[..i]).games, RunAll(cfg, s, steps[..j]).games)
    ensures Listed(RunAll(cfg, s, steps[..j]))
    decreases j
  {
    hide After, Listed, Grown, RunAll;
    if j == 0 {
      RunNothing(cfg, s, steps);
      ProgressReflexive(s.games);
    } else if i == j {
      RunMakesProgress(cfg, s, steps, j - 1, j - 1);
      RunNext(cfg, s, steps, j - 1);
      AfterMakesProgress(cfg, steps[j - 1], RunAll(cfg, s, steps[..j - 1]));
      ProgressReflexive(RunAll(cfg, s, steps[..j]).games);
    } else {
      RunMakesProgress(cfg, s, steps, i, j - 1);
      RunNext(cfg, s, steps, j - 1);
      AfterMakesProgress(cfg, steps[j - 1], RunAll(cfg, s, steps[..j - 1]));
      ProgressTransitive(RunAll(cfg, s, steps[..i]).games, RunAll(cfg, s, steps[..j - 1]).games,
                         RunAll(cfg, s, steps[..j]).games);
    }
  }

  lemma RunNothing(cfg: Config, s: State, steps: seq<Step>)
    ensures RunAll(cfg, s, steps[..0]) == s
  {
    hide After;
  }

  lemma ProgressReflexive(games: map<string, GameSummary>)
    ensures Progress(games, games)
  {
  }

  lemma ProgressTransitive(a: map<string, GameSummary>, b: map<string, GameSummary>, c: map<string, GameSummary>)
    requires Progress(a, b) && Progress(b, c)
    ensures Progress(a, c)
  {
    hide Grown;
    forall id | id in a ensures id in c && Grown(a[id], c[id]) {
      GrownTransitive(a[id], b[id], c[id]);
    }
  }

  // ----- Who can lose by disconnection ------------------------------------

  function PlayerAt(g: GameSummary, seat: Seat): string {
    if seat == A then g.playerA else g.playerB
  }

  /** A running game has no result, and a pending forfeit is that of an absent player. */
  ghost predicate FairlyPending(g: GameSummary, live: map<string, string>) {
    !g.finished ==>
      && g.board.result == Undetermined
      && (g.forfeitAt.Some? ==> g.loser.Some? && PlayerAt(g, g.loser.value) !in live)
  }

  ghost predicate Paired(conns: map<string, string>, live: map<string, string>) {
    && (forall p :: p in live ==> live[p] in conns && conns[live[p]] == p)
    && (forall c :: c in conns ==> conns[c] in live && live[conns[c]] == c)
  }

  /** Besides, connections and live players correspond one to one. */
  ghost predicate Orderly(s: State) {
    && Listed(s)
    && Paired(s.conns, s.live)
    && (forall id :: id in s.games ==> FairlyPending(s.games[id], s.live))
  }

  /** A new player gets an id that nobody has. */
  ghost predicate NewIdFresh(step: Step, s: State) {
    step.Enter? && step.name !in s.names ==>
      step.freshId !in s.live && forall id :: id in s.games ==> !s.games[id].Plays(step.freshId)
  }

  ghost predicate FreshIds(cfg: Config, s: State, steps: seq<Step>) {
    forall i :: 0 <= i < |steps| ==> NewIdFresh(steps[i], RunAll(cfg, s, steps[..i]))
  }

  lemma LeavingKeepsFair(g: GameSummary, player: string, now: int, live: map<string, string>)
    requires FairlyPending(g, live)
    ensures FairlyPending(Swept(g, Leave(player, now)), live - {player}) && FairlyPending(g, live - {player})
  {
  }

  lemma ReturningKeepsFair(g: GameSummary, player: string, conn: string, now: int, live: map<string, string>)
    requires FairlyPending(g, live)
    ensures FairlyPending(Swept(g, Return(player, now)), live[player := conn])
    ensures !g.Plays(player) ==> FairlyPending(g, live[player := conn])
  {
  }

  lemma TickingKeepsFair(g: GameSummary, now: int, live: map<string, string>)
    requires FairlyPending(g, live)
    ensures FairlyPending(Clocked(g, now), live)
  {
  }

  lemma PlayKeepsFair(g: GameSummary, a: int, live: map<string, string>, now: int)
    requires FairlyPending(g, live) && !g.finished && g.Legal(a)
    ensures FairlyPending(Advanced(Played(g, a), live, now), live)
  {
    hide ApplyPy, WinnerForLoser;
  }

  lemma ClosedIsFair(g: GameSummary, result: Result, reason: string, live: map<string, string>)
    ensures FairlyPending(Closed(g, result, reason), live)
  {
  }

  lemma NewGameIsFair(nameA: string, nameB: string, playerA: string, playerB: string, size: nat, deadlineMs: int,
                      graceMs: int, live: map<string, string>)
    requires size >= 5
    ensures FairlyPending(NewGame(nameA, nameB, playerA, playerB, size, deadlineMs, graceMs), live)
  {
  }

  lemma SendingKeepsFair(g: GameSummary, live: map<string, string>, now: int)
    requires FairlyPending(g, live)
    ensures FairlyPending(TurnSent(g, live, now), live)
  {
  }

  lemma {:induction false} MovingKeepsFair(cfg: Config, step: Step, s: State, id: string, g': GameSummary,
                                           live: map<string, string>)
    requires Orderly(s) && NewIdFresh(step, s) && id in s.games && Moved(cfg, step, s, id, g')
    requires match step
      case Enter(conn, name, freshId, now) =>
        live == if MayEnter(s, conn, name) then s.live[(if name in s.names then s.names[name] else freshId) := conn]
                else s.live
      case Drop(conn, now, ws) => live == if conn in s.conns then s.live - {s.conns[conn]} else s.live
      case _ => live == s.live
    ensures FairlyPending(g', live)
  {
    hide Swept, Advanced, Played, Closed, TurnSent, Reached, FairlyPending, TickUndisturbed, LegalAction, Shaped;
    hide Clocked;
    hide Listed, MayEnter, WinnerForLoser;
    var g := s.games[id];
    match step
    case Submit(conn, id', a, now, storeOk, w) =>
      if MoveRefusal(s, conn, id', a) == None && id == id' { PlayKeepsFair(g, a, s.live, now); }
    case Quit(conn, id', w) =>
      if ResignRefusal(s, conn, id') == None && id == id' {
        ClosedIsFair(g, WinnerForLoser(g.SeatOf(s.conns[conn])), "resignation", s.live);
      }
    case Enter(conn, name, freshId, now) =>
      ReturningKeepsFair(g, if name in s.names then s.names[name] else freshId, conn, now, s.live);
    case Drop(conn, now, ws) =>
      if conn in s.conns { LeavingKeepsFair(g, s.conns[conn], now, s.live); }
    case Tick(now, ws) => TickingKeepsFair(g, now, s.live);
    case Create(_, _, _, _, _, _, _) =>
    case KickOff(id', now, w) => SendingKeepsFair(g, s.live, now);
  }

  lemma PairsAfterEnter(conns: map<string, string>, live: map<string, string>, conn: string, player: string)
    requires Paired(conns, live) && conn !in conns && player !in live
    ensures Paired(conns[conn := player], live[player := conn])
  {
  }

  lemma PairsAfterDrop(conns: map<string, string>, live: map<string, string>, conn: string)
    requires Paired(conns, live) && conn in conns
    ensures Paired(conns - {conn}, live - {conns[conn]})
  {
  }

  lemma {:induction false} AfterKeepsOrderly(cfg: Config, step: Step, s: State)
    requires Orderly(s) && NewIdFresh(step, s)
    ensures Orderly(After(cfg, step, s))
  {
    hide After, Moved, FairlyPending, Listed, TickUndisturbed, Paired;
    var t := After(cfg, step, s);
    AfterLobby(cfg, step, s);
    if step.Enter? && MayEnter(s, step.conn, step.name) {
      PairsAfterEnter(s.conns, s.live, step.conn, if step.name in s.names then s.names[step.name] else step.freshId);
    } else if step.Drop? && step.conn in s.conns {
      PairsAfterDrop(s.conns, s.live, step.conn);
    }
    forall id | id in t.games ensures FairlyPending(t.games[id], t.live) {
      if id in s.games {
        AfterMeans(cfg, step, s, id);
        MovingKeepsFair(cfg, step, s, id, t.games[id], t.live);
      } else {
        NewGameIsFair(step.nameA, step.nameB, s.names[step.nameA], s.names[step.nameB], step.size, step.deadlineMs,
                      step.graceMs, t.live);
      }
    }
  }

  lemma {:induction false} RunKeepsOrderly(cfg: Config, s: State, steps: seq<Step>, i: nat)
    requires Orderly(s) && FreshIds(cfg, s, steps) && i <= |steps|
    ensures Orderly(RunAll(cfg, s, steps[..i]))
    decreases i
  {
    hide After, Orderly, NewIdFresh, RunAll;
    if i == 0 {
      RunNothing(cfg, s, steps);
    } else {
      RunKeepsOrderly(cfg, s, steps, i - 1);
      RunNext(cfg, s, steps, i - 1);
      AfterKeepsOrderly(cfg, steps[i - 1], RunAll(cfg, s, steps[..i - 1]));
    }
  }

  /** The player that the result on the board is against. */
  function LoserOf(g: GameSummary): string {
    if g.board.result == PlayerBWin then g.playerA else g.playerB
  }

  predicate LostByDisconnect(g: GameSummary) {
    g.finished && g.reason == "disconnect"
  }

  ghost predicate LostFairly(g: GameSummary, g': GameSummary, live: map<string, string>) {
    !g.finished && LostByDisconnect(g') ==> g'.board.result in {PlayerAWin, PlayerBWin} && LoserOf(g') !in live
  }

  lemma SweptLosesFairly(g: GameSummary, player: string, now: int, live: map<string, string>)
    requires FairlyPending(g, live)
    ensures LostFairly(g, Swept(g, Leave(player, now)), live - {player})
    ensures LostFairly(g, Clocked(g, now), live)
    ensures Swept(g, Return(player, now)).finished ==> g.finished
  {
  }

  lemma TurnLosesFairly(g: GameSummary, live: map<string, string>, now: int)
    requires FairlyPending(g, live)
    ensures LostFairly(g, TurnSent(g, live, now), live)
  {
  }

  lemma PlayLosesFairly(g: GameSummary, a: int, live: map<string, string>, now: int)
    requires FairlyPending(g, live) && g.Legal(a)
    ensures LostFairly(g, Advanced(Played(g, a), live, now), live)
  {
    hide ApplyPy;
  }

  /** No step makes a connected player lose by disconnection. */
  lemma {:induction false} OnlyAbsentPlayersLose(cfg: Config, step: Step, s: State, id: string)
    requires Orderly(s) && id in s.games
    ensures var t := After(cfg, step, s); id in t.games && LostFairly(s.games[id], t.games[id], t.live)
  {
    hide After, Advanced, Played, Closed, Swept, Clocked, FairlyPending, LegalAction, Shaped, TurnSent, Reached, Listed;
    hide TickUndisturbed, WinnerForLoser, MayEnter;
    var g, t := s.games[id], After(cfg, step, s);
    AfterMeans(cfg, step, s, id);
    AfterLobby(cfg, step, s);
    match step
    case Submit(conn, id', a, now, storeOk, w) =>
      if MoveRefusal(s, conn, id', a) == None && id == id' { PlayLosesFairly(g, a, s.live, now); }
    case Quit(conn, id', w) =>
      if ResignRefusal(s, conn, id') == None && id == id' {
        ResigningIsNoDisconnect(g, WinnerForLoser(g.SeatOf(s.conns[conn])));
      }
    case Enter(conn, name, freshId, now) =>
      if name in s.names { SweptLosesFairly(g, s.names[name], now, s.live); }
    case Drop(conn, now, ws) =>
      if conn in s.conns { SweptLosesFairly(g, s.conns[conn], now, s.live); }
    case Tick(now, ws) => SweptLosesFairly(g, "", now, s.live);
    case Create(_, _, _, _, _, _, _) =>
    case KickOff(id', now, w) => TurnLosesFairly(g, s.live, now);
  }

  lemma ResigningIsNoDisconnect(g: GameSummary, result: Result)
    ensures Closed(g, result, "resignation").reason != "disconnect"
  {
    assert "resignation"[0] != "disconnect"[0];
  }

  /** So it is at every step of every run whose new players get fresh ids. */
  lemma {:induction false} NoConnectedPlayerIsForfeited(cfg: Config, s: State, steps: seq<Step>, i: nat, id: string)
    requires Orderly(s) && FreshIds(cfg, s, steps) && i < |steps| && id in RunAll(cfg, s, steps[..i]).games
    ensures var u, t := RunAll(cfg, s, steps[..i]), RunAll(cfg, s, steps[..i + 1]);
      id in t.games && LostFairly(u.games[id], t.games[id], t.live)
  {
    hide After, Orderly, LostFairly, NewIdFresh, RunAll;
    RunKeepsOrderly(cfg, s, steps, i);
    RunNext(cfg, s, steps, i);
    OnlyAbsentPlayersLose(cfg, steps[i], RunAll(cfg, s, steps[..i]), id);
  }

  // ----- The disconnect grace -------------------------------------------------

  /** What cuts a grace period short: the turn comes to a player without a
      connection, after a move or at the start. */
  ghost predicate CutsGrace(cfg: Config, step: Step, s: State, id: string)
    requires id in s.games
  {
    match step
    case Submit(conn, id', a, now, storeOk, w) =>
      && id == id' && MoveRefusal(s, conn, id', a) == None && (cfg.hasStore ==> storeOk)
      && s.games[id].Legal(a)
      && var x := Played(s.games[id], a); x.board.result == Undetermined && x.OnClock() !in s.live
    case KickOff(id', now, w) => id == id' && s.games[id].OnClock() !in s.live
    case _ => false
  }

  /** Before its end a pending forfeit comes true exactly if the step cuts it. */
  lemma {:induction false} GraceIsCutExactly(cfg: Config, step: Step, s: State, id: string)
    requires Orderly(s) && id in s.games && !s.games[id].finished && s.games[id].forfeitAt.Some?
    requires s.games[id].graceMs > 0 && (step.Tick? ==> step.now < s.games[id].forfeitAt.value)
    ensures var t := After(cfg, step, s);
      id in t.games && (LostByDisconnect(t.games[id]) <==> CutsGrace(cfg, step, s, id))
  {
    hide After, LegalAction, Shaped, Reached, Listed, Paired, TickUndisturbed, MayEnter, ApplyPy;
    AfterMeans(cfg, step, s, id);
    OtherReasons();
    if step.Submit? && MoveRefusal(s, step.conn, step.id, step.action) == None {
      RefusalMeans(s, step.conn, step.id, step.action);
    }
  }

  lemma OtherReasons()
    ensures "resignation" != "disconnect" && "timeout" != "disconnect"
    ensures "draw" != "disconnect" && "five_in_a_row" != "disconnect"
  {
    assert "resignation"[0] == 'r' && "timeout"[0] == 't' && "draw"[1] == 'r' && "five_in_a_row"[0] == 'f';
    assert "disconnect"[0] == 'd' && "disconnect"[1] == 'i';
  }

  /** So at every step of every run. */
  lemma {:induction false} GraceInRuns(cfg: Config, s: State, steps: seq<Step>, i: nat, id: string)
    requires Orderly(s) && FreshIds(cfg, s, steps) && i < |steps| && id in RunAll(cfg, s, steps[..i]).games
    requires var g := RunAll(cfg, s, steps[..i]).games[id];
      !g.finished && g.forfeitAt.Some? && g.graceMs > 0 && (steps[i].Tick? ==> steps[i].now < g.forfeitAt.value)
    ensures var u, t := RunAll(cfg, s, steps[..i]), RunAll(cfg, s, steps[..i + 1]);
      id in t.games && (LostByDisconnect(t.games[id]) <==> CutsGrace(cfg, steps[i], u, id))
  {
    hide After, Orderly, CutsGrace, NewIdFresh, RunAll;
    RunKeepsOrderly(cfg, s, steps, i);
    RunNext(cfg, s, steps, i);
    GraceIsCutExactly(cfg, steps[i], RunAll(cfg, s, steps[..i]), id);
  }

  // ----- Absent players with no forfeit pending -----------------------------

  /** While a player of a running game with a grace period is absent, a forfeit
      is pending. */
  ghost predicate Watched(g: GameSummary, live: map<string, string>) {
    !g.finished && g.graceMs > 0 && (g.playerA !in live || g.playerB !in live) ==> g.forfeitAt.Some?
  }

  function Opponent(g: GameSummary, player: string): string {
    if player == g.playerA then g.playerB else g.playerA
  }

  /** What leaves a game unwatched: it is opened with an absent player; a player
      comes back while the opponent is away, which lifts the opponent's forfeit;
      or a player goes and the sweep stops before the game. */
  ghost predicate Unwatches(cfg: Config, step: Step, s: State, id: string) {
    match step
    case Create(id', nameA, nameB, size, deadlineMs, graceMs, startOk) =>
      id == id' && Opens(step, s) && graceMs > 0 && (s.names[nameA] !in s.live || s.names[nameB] !in s.live)
    case Enter(conn, name, freshId, now) =>
      && MayEnter(s, conn, name) && name in s.names && id in s.games
      && var g, player := s.games[id], s.names[name];
         && !g.finished && g.graceMs > 0 && g.Plays(player)
         && Opponent(g, player) != player && Opponent(g, player) !in s.live
    case Drop(conn, now, ws) =>
      && conn in s.conns && id in s.games
      && var g, player := s.games[id], s.conns[conn];
         && !g.finished && g.graceMs > 0 && g.Plays(player) && g.forfeitAt == None
         && !Reached(cfg, s.games, s.order, id, Leave(player, now), ws)
    case _ => false
  }

  lemma ReturnAndWatch(g: GameSummary, player: string, conn: string, now: int, live: map<string, string>)
    requires Watched(g, live) && player !in live
    ensures Watched(Swept(g, Return(player, now)), live[player := conn]) <==>
      !(!g.finished && g.graceMs > 0 && g.Plays(player)
        && Opponent(g, player) != player && Opponent(g, player) !in live)
  {
  }

  lemma LeaveAndWatch(g: GameSummary, player: string, now: int, live: map<string, string>)
    requires Watched(g, live) && player in live
    ensures Watched(Swept(g, Leave(player, now)), live - {player})
    ensures Watched(g, live - {player}) <==> !(!g.finished && g.graceMs > 0 && g.Plays(player) && g.forfeitAt == None)
  {
  }

  lemma EntryAndWatch(g: GameSummary, player: string, conn: string, live: map<string, string>)
    requires Watched(g, live)
    ensures Watched(g, live[player := conn])
  {
  }

  lemma ClosedIsWatched(g: GameSummary, result: Result, reason: string, live: map<string, string>)
    ensures Watched(Closed(g, result, reason), live)
  {
  }

  lemma TurnAndWatch(g: GameSummary, live: map<string, string>, now: int)
    requires Watched(g, live)
    ensures Watched(TurnSent(g, live, now), live) && Watched(Clocked(g, now), live)
  {
  }

  lemma PlayAndWatch(g: GameSummary, a: int, live: map<string, string>, now: int)
    requires Watched(g, live) && !g.finished && g.Legal(a)
    ensures Watched(Advanced(Played(g, a), live, now), live)
  {
    hide ApplyPy;
  }

  lemma NewGameAndWatch(nameA: string, nameB: string, playerA: string, playerB: string, size: nat, deadlineMs: int,
                        graceMs: int, live: map<string, string>)
    requires size >= 5
    ensures Watched(NewGame(nameA, nameB, playerA, playerB, size, deadlineMs, graceMs), live) <==>
      !(graceMs > 0 && (playerA !in live || playerB !in live))
  {
  }

  /** A watched game stays watched, and a new one is, exactly unless the step
      unwatches it. */
  lemma {:induction false} WatchIsLostExactly(cfg: Config, step: Step, s: State, id: string)
    requires Orderly(s) && id in After(cfg, step, s).games && (id in s.games ==> Watched(s.games[id], s.live))
    ensures var t := After(cfg, step, s); !Watched(t.games[id], t.live) <==> Unwatches(cfg, step, s, id)
  {
    hide After, Advanced, Played, Closed, Swept, Clocked, Watched, LegalAction, Shaped, TurnSent, Reached, Listed;
    hide TickUndisturbed, WinnerForLoser, FairlyPending, NewGame;
    AfterLobby(cfg, step, s);
    if id !in s.games {
      NewGameAndWatch(step.nameA, step.nameB, s.names[step.nameA], s.names[step.nameB], step.size, step.deadlineMs,
                      step.graceMs, s.live);
    } else {
      AfterMeans(cfg, step, s, id);
      WatchAfterMove(cfg, step, s, id, After(cfg, step, s));
    }
  }

  lemma {:induction false} WatchAfterMove(cfg: Config, step: Step, s: State, id: string, t: State)
    requires id in s.games && id in t.games && Paired(s.conns, s.live) && Watched(s.games[id], s.live)
    requires Moved(cfg, step, s, id, t.games[id]) && LobbyMoved(cfg, step, s, t)
    ensures !Watched(t.games[id], t.live) <==> Unwatches(cfg, step, s, id)
  {
    hide Advanced, Played, Closed, Swept, Clocked, Watched, LegalAction, Shaped, TurnSent, Reached, TickUndisturbed;
    hide WinnerForLoser;
    var g := s.games[id];
    match step
    case Submit(conn, id', a, now, storeOk, w) =>
      if MoveRefusal(s, conn, id', a) == None && id == id' { PlayAndWatch(g, a, s.live, now); }
    case Quit(conn, id', w) =>
      if ResignRefusal(s, conn, id') == None && id == id' {
        ClosedIsWatched(g, WinnerForLoser(g.SeatOf(s.conns[conn])), "resignation", s.live);
      }
    case Enter(conn, name, freshId, now) =>
      if MayEnter(s, conn, name) {
        if name in s.names {
          ReturnAndWatch(g, s.names[name], conn, now, s.live);
        } else {
          EntryAndWatch(g, freshId, conn, s.live);
        }
      }
    case Drop(conn, now, ws) =>
      if conn in s.conns { LeaveAndWatch(g, s.conns[conn], now, s.live); }
    case Tick(now, ws) => TurnAndWatch(g, s.live, now);
    case Create(_, _, _, _, _, _, _) =>
    case KickOff(id', now, w) => TurnAndWatch(g, s.live, now);
  }

  ghost predicate AllWatched(s: State) {
    forall id :: id in s.games ==> Watched(s.games[id], s.live)
  }

  ghost predicate NothingUnwatched(cfg: Config, step: Step, s: State) {
    forall id :: !Unwatches(cfg, step, s, id)
  }

  lemma UnwatchedIsThere(cfg: Config, step: Step, s: State, id: string)
    requires Listed(s) && Unwatches(cfg, step, s, id)
    ensures id in After(cfg, step, s).games
  {
    hide After, Listed, TickUndisturbed, Reached;
    AfterLobby(cfg, step, s);
  }

  /** Throughout a run every absent player has a forfeit pending if and only if
      no step of it unwatches a game. */
  lemma {:induction false} WatchInRuns(cfg: Config, s: State, steps: seq<Step>)
    requires Orderly(s) && FreshIds(cfg, s, steps) && AllWatched(s)
    ensures (forall i :: 0 <= i <= |steps| ==> AllWatched(RunAll(cfg, s, steps[..i]))) <==>
      (forall i :: 0 <= i < |steps| ==> NothingUnwatched(cfg, steps[i], RunAll(cfg, s, steps[..i])))
  {
    hide After, Orderly, NewIdFresh, RunAll, AllWatched, NothingUnwatched;
    RunNothing(cfg, s, steps);
    forall i | 0 <= i < |steps| && AllWatched(RunAll(cfg, s, steps[..i]))
      ensures
        AllWatched(RunAll(cfg, s, steps[..i + 1])) <==> NothingUnwatched(cfg, steps[i], RunAll(cfg, s, steps[..i]))
    {
      RunKeepsOrderly(cfg, s, steps, i);
      RunNext(cfg, s, steps, i);
      WatchStep(cfg, steps[i], RunAll(cfg, s, steps[..i]));
    }
    if forall i :: 0 <= i < |steps| ==> NothingUnwatched(cfg, steps[i], RunAll(cfg, s, steps[..i])) {
      WatchHolds(cfg, s, steps, |steps|);
    }
    if forall i :: 0 <= i <= |steps| ==> AllWatched(RunAll(cfg, s, steps[..i])) {
      forall i | 0 <= i < |steps| ensures NothingUnwatched(cfg, steps[i], RunAll(cfg, s, steps[..i])) {
        assert AllWatched(RunAll(cfg, s, steps[..i + 1]));
      }
    }
  }

  lemma {:induction false} WatchHolds(cfg: Config, s: State, steps: seq<Step>, n: nat)
    requires n <= |steps| && AllWatched(RunAll(cfg, s, steps[..0]))
    requires forall i :: 0 <= i < |steps| && AllWatched(RunAll(cfg, s, steps[..i])) ==>
      AllWatched(RunAll(cfg, s, steps[..i + 1]))
    ensures forall i :: 0 <= i <= n ==> AllWatched(RunAll(cfg, s, steps[..i]))
  {
    hide RunAll, AllWatched;
    if n > 0 {
      WatchHolds(cfg, s, steps, n - 1);
      assert AllWatched(RunAll(cfg, s, steps[..n - 1]));
    }
  }

  lemma {:induction false} WatchStep(cfg: Config, step: Step, s: State)
    requires Orderly(s) && AllWatched(s)
    ensures AllWatched(After(cfg, step, s)) <==> NothingUnwatched(cfg, step, s)
  {
    hide After, Orderly, Watched, Unwatches;
    assert Listed(s) by { OrderlyIsListed(s); }
    var t := After(cfg, step, s);
    forall id | id in t.games ensures !Watched(t.games[id], t.live) <==> Unwatches(cfg, step, s, id) {
      WatchIsLostExactly(cfg, step, s, id);
    }
    forall id | Unwatches(cfg, step, s, id) ensures id in t.games {
      UnwatchedIsThere(cfg, step, s, id);
    }
  }

  lemma OrderlyIsListed(s: State)
    requires Orderly(s)
    ensures Listed(s)
  {
  }

  // ----- The clock -----------------------------------------------------------

  /** Once an exception has ended the clock thread, no game ends by timeout any
      more. */
  lemma {:induction false} NoTimeoutWithoutClock(cfg: Config, s: State, steps: seq<Step>, i: nat, j: nat, id: string)
    requires Listed(s) && i <= j <= |steps| && !RunAll(cfg, s, steps[..i]).ticking
    requires id in RunAll(cfg, s, steps[..i]).games && !RunAll(cfg, s, steps[..i]).games[id].finished
    ensures var t := RunAll(cfg, s, steps[..j]);
      !t.ticking && id in t.games && (t.games[id].finished ==> t.games[id].reason != "timeout")
    decreases j
  {
    hide After, Listed, RunAll;
    if i < j {
      NoTimeoutWithoutClock(cfg, s, steps, i, j - 1, id);
      RunMakesProgress(cfg, s, steps, i, j - 1);
      RunNext(cfg, s, steps, j - 1);
      StoppedClockStep(cfg, steps[j - 1], RunAll(cfg, s, steps[..j - 1]), id);
    }
  }

  lemma {:induction false} StoppedClockStep(cfg: Config, step: Step, s: State, id: string)
    requires Listed(s) && !s.ticking && id in s.games && (s.games[id].finished ==> s.games[id].reason != "timeout")
    ensures var t := After(cfg, step, s);
      !t.ticking && id in t.games && (t.games[id].finished ==> t.games[id].reason != "timeout")
  {
    hide After, LegalAction, Shaped, Reached, Listed, TickUndisturbed, MayEnter, ApplyPy, Clocked;
    AfterMeans(cfg, step, s, id);
    AfterLobby(cfg, step, s);
    assert "resignation"[0] == 'r' && "timeout"[0] == 't' && "disconnect"[0] == 'd';
    assert "draw"[0] == 'd' && "five_in_a_row"[0] == 'f';
  }
}
