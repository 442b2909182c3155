/** The match referee as a machine: what each lock-to-lock section of the server
    does to everything that can be seen of it, the games, the connections, the
    messages and the database, with the fate of its writes as a parameter. */
module RefereeSteps {
  import opened Swap2
  import opened RefereeRules
  import opened Elo

  /** What the server sends out, in order. */
  datatype Event =
    | GameStarted(gameId: string)
    | YourTurn(gameId: string, seat: Seat)
    | StateChanged(gameId: string, action: int)
    | GameFinished(gameId: string, result: Result, reason: string)

  datatype GameSummary = GameSummary(
    nameA: string, nameB: string, playerA: string, playerB: string, size: nat, deadlineMs: int, graceMs: int,
    history: seq<int>, board: Board, finished: bool, reason: string,
    deadlineAt: Option<int>, forfeitAt: Option<int>, loser: Option<Seat>)
  {
    function OnClock(): string {
      if board.seat == A then playerA else playerB
    }

    /** The seat that a player loses with; seat A if the player holds both. */
    function SeatOf(player: string): Seat {
      if player == playerA then A else B
    }

    predicate Plays(player: string) {
      player == playerA || player == playerB
    }

    predicate Overdue(now: int) {
      !finished && deadlineAt.Some? && now >= deadlineAt.value
    }

    predicate GraceOver(now: int) {
      !finished && forfeitAt.Some? && now >= forfeitAt.value
    }

    predicate Legal(a: int) {
      Shaped(size, board) && LegalAction(size, board, a)
    }
  }

  /** Whether results are journalled and rated. */
  datatype Config = Config(hasStore: bool, hasElo: bool)

  /** Games by id and in order of creation, registered connections, live players
      and known names, whether the clock thread runs, the journalled results, the
      messages sent, and the writes to the ratings. */
  datatype State = State(
    games: map<string, GameSummary>, order: seq<string>,
    conns: map<string, string>, live: map<string, string>, names: map<string, string>, ticking: bool,
    finals: map<string, (Result, string)>, events: seq<Event>, db: seq<DbStep>)

  /** How far the writes that close a game get: whether the journal takes the
      result, and how many steps of the rating update succeed. */
  datatype Writes = Writes(finishOk: bool, ratingSteps: nat)

  function WritesFor(ws: map<string, Writes>, id: string): Writes {
    if id in ws then ws[id] else Writes(false, 0)
  }

  datatype Response = Ok(terminal: bool) | Err(code: ErrorCode)

  datatype ErrorCode =
    UnknownPlayer | UnknownGame | TerminalPosition | NotYourTurn | IllegalAction | BadRequest | EngineError

  /** One atomic step under the server's lock, with the fate of its writes. */
  datatype Step =
    | Submit(conn: string, id: string, action: int, now: int, storeOk: bool, w: Writes)
    | Quit(conn: string, id: string, w: Writes)
    | Enter(conn: string, name: string, freshId: string, now: int)
    | Drop(conn: string, now: int, ws: map<string, Writes>)
    | Tick(now: int, ws: map<string, Writes>)
    | Create(id: string, nameA: string, nameB: string, size: nat, deadlineMs: int, graceMs: int, startOk: bool)
    | KickOff(id: string, now: int, w: Writes)

  // ----- One game -----------------------------------------------------

  function WinnerForLoser(loser: Seat): (r: Result)
    ensures r != Undetermined
  {
    if loser == A then PlayerBWin else PlayerAWin
  }

  /** A result already on the board stands. */
  function Closed(s: GameSummary, result: Result, reason: string): GameSummary {
    s.(finished := true, reason := reason, deadlineAt := None,
       board := s.board.(result := if s.board.result == Undetermined then result else s.board.result))
  }

  /** The player to move is put on the clock, or loses without a connection. */
  function TurnSent(s: GameSummary, live: map<string, string>, now: int): GameSummary {
    if s.finished then s
    else if s.OnClock() !in live then Closed(s, WinnerForLoser(s.SeatOf(s.OnClock())), "disconnect")
    else if s.deadlineAt == None then s.(deadlineAt := Some(now + s.deadlineMs))
    else s
  }

  /** After a move: a decided game is closed, otherwise the turn passes on with
      a fresh deadline. */
  function Advanced(s: GameSummary, live: map<string, string>, now: int): GameSummary {
    if s.board.result != Undetermined then
      Closed(s, s.board.result, if s.board.result == Draw then "draw" else "five_in_a_row")
    else TurnSent(s.(deadlineAt := Some(now + s.deadlineMs)), live, now)
  }

  ghost function Played(s: GameSummary, a: int): GameSummary
    requires s.Legal(a)
  {
    s.(history := s.history + [a], board := ApplyPy(s.size, s.board, a))
  }

  function NewGame(nameA: string, nameB: string, playerA: string, playerB: string, size: nat, deadlineMs: int,
                   graceMs: int): GameSummary
    requires size >= 5
  {
    GameSummary(nameA, nameB, playerA, playerB, size, deadlineMs, graceMs,
                [], Initial(size), false, "", None, None, None)
  }

  // ----- What goes out with it ------------------------------------------

  /** The journal fails to take a result. */
  predicate Fails(cfg: Config, w: Writes) {
    cfg.hasStore && !w.finishOk
  }

  /** A journal write settles what is pending on the connection of the ratings. */
  function JournalWrite(cfg: Config, ok: bool): seq<DbStep> {
    if cfg.hasStore && cfg.hasElo then [if ok then JournalCommit else JournalRollback] else []
  }

  /** A finished game is journalled, then rated, unless the journal fails. */
  function FinishWrites(cfg: Config, id: string, x: GameSummary, w: Writes): seq<DbStep> {
    JournalWrite(cfg, w.finishOk) +
    if Fails(cfg, w) || !cfg.hasElo then []
    else [Rate(Match(id, x.nameA, x.nameB, x.board.result), w.ratingSteps)]
  }

  function FinishEvents(cfg: Config, id: string, x: GameSummary, w: Writes): seq<Event> {
    if Fails(cfg, w) then [] else [GameFinished(id, x.board.result, x.reason)]
  }

  /** A running game becomes x: if that ends it, it is journalled, rated and
      announced, and otherwise the next turn is sent where that is called for. */
  function Updated(cfg: Config, s: State, id: string, x: GameSummary, w: Writes, turn: bool): State {
    if x.finished then
      s.(games := s.games[id := x],
         finals := if cfg.hasStore && w.finishOk then s.finals[id := (x.board.result, x.reason)] else s.finals,
         events := s.events + FinishEvents(cfg, id, x, w), db := s.db + FinishWrites(cfg, id, x, w))
    else
      s.(games := s.games[id := x], events := s.events + if turn then [YourTurn(id, x.board.seat)] else [])
  }

  // ----- All games at once -----------------------------------------------

  /** A player's connection is lost or back, or one of the two passes of a tick. */
  datatype Sweep =
    | Leave(player: string, now: int)
    | Return(player: string, now: int)
    | TimeUp(now: int)
    | GraceUp(now: int)

  /** The games that a sweep acts on. */
  predicate Concerned(g: GameSummary, sweep: Sweep) {
    match sweep
    case Leave(player, now) => !g.finished && g.Plays(player)
    case Return(player, now) => !g.finished && g.Plays(player)
    case TimeUp(now) => g.Overdue(now)
    case GraceUp(now) => g.GraceOver(now)
  }

  function GraceLoser(s: GameSummary): Seat {
    if s.loser == Some(B) then B else A
  }

  function Swept(s: GameSummary, sweep: Sweep): GameSummary {
    if !Concerned(s, sweep) then s
    else
      match sweep
      case Leave(player, now) =>
        if s.graceMs > 0 then s.(forfeitAt := Some(now + s.graceMs), loser := Some(s.SeatOf(player)))
        else Closed(s, WinnerForLoser(s.SeatOf(player)), "disconnect")
      case Return(player, now) =>
        var s' := s.(forfeitAt := None, loser := None);
        if s.OnClock() == player then s'.(deadlineAt := Some(now + s.deadlineMs)) else s'
      case TimeUp(now) => Closed(s, WinnerForLoser(s.board.seat), "timeout")
      case GraceUp(now) => Closed(s, WinnerForLoser(GraceLoser(s)), "disconnect")
  }

  /** A player who is back is sent the turn again. */
  predicate SendsTurn(g: GameSummary, sweep: Sweep) {
    sweep.Return? && g.OnClock() == sweep.player
  }

  function Visited(cfg: Config, s: State, id: string, sweep: Sweep, w: Writes): State {
    if id in s.games && Concerned(s.games[id], sweep) then
      Updated(cfg, s, id, Swept(s.games[id], sweep), w, SendsTurn(s.games[id], sweep))
    else s
  }

  /** The sweep ends the game and the journal does not take it: an exception. */
  predicate Raises(cfg: Config, g: GameSummary, sweep: Sweep, w: Writes) {
    Concerned(g, sweep) && Swept(g, sweep).finished && Fails(cfg, w)
  }

  predicate RaisesAt(cfg: Config, games: map<string, GameSummary>, id: string, sweep: Sweep, ws: map<string, Writes>) {
    id in games && Raises(cfg, games[id], sweep, WritesFor(ws, id))
  }

  /** Sweeps the games one after the other, up to the first exception. */
  function SweepFrom(cfg: Config, s: State, ids: seq<string>, sweep: Sweep, ws: map<string, Writes>): (State, bool)
    decreases |ids|
  {
    if ids == [] then (s, false)
    else
      var s' := Visited(cfg, s, ids[0], sweep, WritesFor(ws, ids[0]));
      if RaisesAt(cfg, s.games, ids[0], sweep, ws) then (s', true)
      else SweepFrom(cfg, s', ids[1..], sweep, ws)
  }

  // ----- The steps ----------------------------------------------------------

  /** Why a move is refused, in the order of the checks. */
  function MoveRefusal(s: State, conn: string, id: string, a: int): Option<ErrorCode> {
    if conn !in s.conns then Some(UnknownPlayer)
    else if id !in s.games then Some(UnknownGame)
    else if s.games[id].finished then Some(TerminalPosition)
    else if s.conns[conn] != s.games[id].OnClock() then Some(NotYourTurn)
    else if !s.games[id].Legal(a) then Some(IllegalAction)
    else None
  }

  function ResignRefusal(s: State, conn: string, id: string): Option<ErrorCode> {
    if conn !in s.conns then Some(UnknownPlayer)
    else if id !in s.games then Some(UnknownGame)
    else if s.games[id].finished then Some(TerminalPosition)
    else if !s.games[id].Plays(s.conns[conn]) then Some(NotYourTurn)
    else None
  }

  predicate MayEnter(s: State, conn: string, name: string) {
    name != "" && conn !in s.conns && !(name in s.names && s.names[name] in s.live)
  }

  ghost function Submitted(cfg: Config, s: State, conn: string, id: string, a: int, now: int, storeOk: bool,
                           w: Writes): State
  {
    if MoveRefusal(s, conn, id, a) != None then s
    else if cfg.hasStore && !storeOk then s.(db := s.db + JournalWrite(cfg, false))
    else
      var s' := s.(events := s.events + [StateChanged(id, a)], db := s.db + JournalWrite(cfg, true));
      Updated(cfg, s', id, Advanced(Played(s.games[id], a), s.live, now), w, true)
  }

  function Resigned(cfg: Config, s: State, conn: string, id: string, w: Writes): State {
    if ResignRefusal(s, conn, id) != None then s
    else
      var g := s.games[id];
      Updated(cfg, s, id, Closed(g, WinnerForLoser(g.SeatOf(s.conns[conn])), "resignation"), w, false)
  }

  /** A new name enters alone; with a known one its player's games go on. */
  function Entered(cfg: Config, s: State, conn: string, name: string, freshId: string, now: int): State {
    if !MayEnter(s, conn, name) then s
    else
      var player := if name in s.names then s.names[name] else freshId;
      var s' := s.(conns := s.conns[conn := player], live := s.live[player := conn], names := s.names[name := player]);
      if name in s.names then SweepFrom(cfg, s', s'.order, Return(player, now), map[]).0 else s'
  }

  function Forgotten(s: State, conn: string): State
    requires conn in s.conns
  {
    s.(conns := s.conns - {conn}, live := s.live - {s.conns[conn]})
  }

  function Dropped(cfg: Config, s: State, conn: string, now: int, ws: map<string, Writes>): State {
    if conn !in s.conns then s
    else SweepFrom(cfg, Forgotten(s, conn), s.order, Leave(s.conns[conn], now), ws).0
  }

  /** First the games past their deadline, then those past their grace; an
      exception ends the clock thread. */
  function Ticked(cfg: Config, s: State, now: int, ws: map<string, Writes>): State {
    if !s.ticking then s
    else
      var (s1, raised) := SweepFrom(cfg, s, s.order, TimeUp(now), ws);
      if raised then s1.(ticking := false)
      else
        var (s2, raised2) := SweepFrom(cfg, s1, s.order, GraceUp(now), ws);
        s2.(ticking := !raised2)
  }

  /** A creation under a used id does not happen. */
  function Created(cfg: Config, s: State, id: string, nameA: string, nameB: string, size: nat, deadlineMs: int,
                   graceMs: int, startOk: bool): State
  {
    if id in s.games || nameA !in s.names || nameB !in s.names || size < 5 then s
    else
      s.(games := s.games[id := NewGame(nameA, nameB, s.names[nameA], s.names[nameB], size, deadlineMs, graceMs)],
         order := s.order + [id], db := s.db + JournalWrite(cfg, startOk),
         events := s.events + if cfg.hasStore && !startOk then [] else [GameStarted(id)])
  }

  function KickedOff(cfg: Config, s: State, id: string, now: int, w: Writes): State {
    if id !in s.games || s.games[id].finished then s
    else Updated(cfg, s, id, TurnSent(s.games[id], s.live, now), w, true)
  }

  /** The effect of a step on the whole state. */
  ghost function After(cfg: Config, step: Step, s: State): State {
    match step
    case Submit(conn, id, a, now, storeOk, w) => Submitted(cfg, s, conn, id, a, now, storeOk, w)
    case Quit(conn, id, w) => Resigned(cfg, s, conn, id, w)
    case Enter(conn, name, freshId, now) => Entered(cfg, s, conn, name, freshId, now)
    case Drop(conn, now, ws) => Dropped(cfg, s, conn, now, ws)
    case Tick(now, ws) => Ticked(cfg, s, now, ws)
    case Create(id, nameA, nameB, size, deadlineMs, graceMs, startOk) =>
      Created(cfg, s, id, nameA, nameB, size, deadlineMs, graceMs, startOk)
    case KickOff(id, now, w) => KickedOff(cfg, s, id, now, w)
  }

  ghost function RunAll(cfg: Config, s: State, steps: seq<Step>): State {
    if steps == [] then s else After(cfg, steps[|steps| - 1], RunAll(cfg, s, steps[..|steps| - 1]))
  }

  lemma RunNext(cfg: Config, s: State, steps: seq<Step>, i: nat)
    requires i < |steps|
    ensures RunAll(cfg, s, steps[..i + 1]) == After(cfg, steps[i], RunAll(cfg, s, steps[..i]))
  {
    hide After;
    assert steps[..i + 1][..i] == steps[..i];
  }

  /** Setting a game before it is updated makes no difference. */
  lemma UpdatedTwice(cfg: Config, s: State, id: string, y: GameSummary, x: GameSummary, w: Writes, turn: bool)
    ensures Updated(cfg, s.(games := s.games[id := y]), id, x, w, turn) == Updated(cfg, s, id, x, w, turn)
  {
    hide FinishEvents, FinishWrites;
    assert s.games[id := y][id := x] == s.games[id := x];
  }

  /** The ids of a list that are to be looked at. */
  function Kept(ids: seq<string>, keep: set<string>): seq<string> {
    if ids == [] then []
    else if ids[0] in keep then [ids[0]] + Kept(ids[1..], keep)
    else Kept(ids[1..], keep)
  }

  lemma {:induction false} KeptAppend(ids: seq<string>, id: string, keep: set<string>)
    ensures Kept(ids + [id], keep) == Kept(ids, keep) + if id in keep then [id] else []
    decreases |ids|
  {
    if ids == [] {
      assert ([] + [id])[1..] == [];
    } else {
      assert (ids + [id])[1..] == ids[1..] + [id];
      KeptAppend(ids[1..], id, keep);
    }
  }

  // ----- What a sweep comes to ----------------------------------------------

  ghost predicate NoDup(ids: seq<string>) {
    forall i, j :: 0 <= i < j < |ids| ==> ids[i] != ids[j]
  }

  /** No exception comes before the game's turn. */
  ghost predicate Reached(cfg: Config, games: map<string, GameSummary>, ids: seq<string>, id: string, sweep: Sweep,
                          ws: map<string, Writes>)
  {
    exists k :: 0 <= k < |ids| && ids[k] == id && forall j :: 0 <= j < k ==> !RaisesAt(cfg, games, ids[j], sweep, ws)
  }

  ghost predicate Undisturbed(cfg: Config, games: map<string, GameSummary>, ids: seq<string>, sweep: Sweep,
                              ws: map<string, Writes>)
  {
    forall k :: 0 <= k < |ids| ==> !RaisesAt(cfg, games, ids[k], sweep, ws)
  }

  ghost predicate SameLobby(s: State, t: State) {
    && t.order == s.order && t.conns == s.conns && t.live == s.live && t.names == s.names && t.ticking == s.ticking
    && t.games.Keys == s.games.Keys
  }

  lemma UpdatesOne(cfg: Config, s: State, id: string, x: GameSummary, w: Writes, turn: bool)
    ensures var t := Updated(cfg, s, id, x, w, turn); (id in s.games ==> SameLobby(s, t)) && t.games == s.games[id := x]
  {
    hide FinishEvents, FinishWrites;
  }

  lemma VisitsOne(cfg: Config, s: State, id: string, sweep: Sweep, w: Writes)
    ensures var t := Visited(cfg, s, id, sweep, w);
      && SameLobby(s, t)
      && forall id' :: id' in s.games ==> t.games[id'] == if id' == id then Swept(s.games[id], sweep) else s.games[id']
  {
    hide Swept, Updated, Concerned;
    if id in s.games {
      UpdatesOne(cfg, s, id, Swept(s.games[id], sweep), w, SendsTurn(s.games[id], sweep));
      if !Concerned(s.games[id], sweep) {
        Unconcerned(s.games[id], sweep);
      }
    }
  }

  lemma Unconcerned(g: GameSummary, sweep: Sweep)
    requires !Concerned(g, sweep)
    ensures Swept(g, sweep) == g
  {
  }

  /** A sweep changes exactly the games it reaches, each on its own, and raises
      exactly if the journal fails for one that it ends. */
  lemma {:induction false} SweepMeans(cfg: Config, s: State, ids: seq<string>, sweep: Sweep, ws: map<string, Writes>)
    requires NoDup(ids)
    ensures var (t, raised) := SweepFrom(cfg, s, ids, sweep, ws);
      && SameLobby(s, t)
      && (raised <==> !Undisturbed(cfg, s.games, ids, sweep, ws))
      && forall id :: id in s.games ==>
           t.games[id] == if Reached(cfg, s.games, ids, id, sweep, ws) then Swept(s.games[id], sweep) else s.games[id]
    decreases |ids|
  {
    hide Visited, Swept, RaisesAt, Reached, Undisturbed, NoDup;
    if ids == [] {
      NoneReached(cfg, s.games, sweep, ws);
    } else {
      var s' := Visited(cfg, s, ids[0], sweep, WritesFor(ws, ids[0]));
      VisitsOne(cfg, s, ids[0], sweep, WritesFor(ws, ids[0]));
      NoDupRest(ids);
      SweepMeans(cfg, s', ids[1..], sweep, ws);
      SplitSweep(cfg, s.games, s'.games, ids, sweep, ws);
    }
  }

  lemma NoDupRest(ids: seq<string>)
    requires ids != [] && NoDup(ids)
    ensures NoDup(ids[1..]) && ids[0] !in ids[1..]
  {
  }

  lemma NoneReached(cfg: Config, games: map<string, GameSummary>, sweep: Sweep, ws: map<string, Writes>)
    ensures Undisturbed(cfg, games, [], sweep, ws) && forall id :: !Reached(cfg, games, [], id, sweep, ws)
  {
  }

  /** The first game and the rest. */
  lemma {:induction false} SplitSweep(cfg: Config, games: map<string, GameSummary>, games': map<string, GameSummary>,
                                      ids: seq<string>, sweep: Sweep, ws: map<string, Writes>)
    requires ids != [] && NoDup(ids) && games'.Keys == games.Keys
    requires forall id :: id in games && id != ids[0] ==> games'[id] == games[id]
    ensures Undisturbed(cfg, games, ids, sweep, ws) <==>
      !RaisesAt(cfg, games, ids[0], sweep, ws) && Undisturbed(cfg, games', ids[1..], sweep, ws)
    ensures Reached(cfg, games, ids, ids[0], sweep, ws) && !Reached(cfg, games', ids[1..], ids[0], sweep, ws)
    ensures forall id :: id != ids[0] ==>
      (Reached(cfg, games, ids, id, sweep, ws) <==>
       !RaisesAt(cfg, games, ids[0], sweep, ws) && Reached(cfg, games', ids[1..], id, sweep, ws))
  {
    hide Raises, Reached;
    NoDupRest(ids);
    forall k | 0 <= k < |ids[1..]|
      ensures RaisesAt(cfg, games', ids[1..][k], sweep, ws) <==> RaisesAt(cfg, games, ids[k + 1], sweep, ws)
    {
      assert ids[1..][k] in ids[1..];
    }
    hide RaisesAt;
    forall k | 1 <= k < |ids|
      ensures RaisesAt(cfg, games, ids[k], sweep, ws) <==> RaisesAt(cfg, games', ids[1..][k - 1], sweep, ws)
    {
    }
    ReachedFirst(cfg, games, ids, sweep, ws);
    NotReachedTwice(cfg, games', ids, sweep, ws);
    forall id | id != ids[0]
      ensures Reached(cfg, games, ids, id, sweep, ws) <==>
        !RaisesAt(cfg, games, ids[0], sweep, ws) && Reached(cfg, games', ids[1..], id, sweep, ws)
    {
      ReachedLater(cfg, games, games', ids, id, sweep, ws);
    }
  }

  lemma NotReachedTwice(cfg: Config, games: map<string, GameSummary>, ids: seq<string>, sweep: Sweep,
                        ws: map<string, Writes>)
    requires ids != [] && ids[0] !in ids[1..]
    ensures !Reached(cfg, games, ids[1..], ids[0], sweep, ws)
  {
    hide RaisesAt;
  }

  lemma ReachedFirst(cfg: Config, games: map<string, GameSummary>, ids: seq<string>, sweep: Sweep,
                     ws: map<string, Writes>)
    requires ids != []
    ensures Reached(cfg, games, ids, ids[0], sweep, ws)
  {
    hide RaisesAt;
  }

  lemma ReachedLater(cfg: Config, games: map<string, GameSummary>, games': map<string, GameSummary>, ids: seq<string>,
                     id: string, sweep: Sweep, ws: map<string, Writes>)
    requires ids != [] && id != ids[0]
    requires forall k :: 0 <= k < |ids[1..]| ==>
      (RaisesAt(cfg, games', ids[1..][k], sweep, ws) <==> RaisesAt(cfg, games, ids[k + 1], sweep, ws))
    ensures Reached(cfg, games, ids, id, sweep, ws) <==>
      !RaisesAt(cfg, games, ids[0], sweep, ws) && Reached(cfg, games', ids[1..], id, sweep, ws)
  {
    hide RaisesAt;
    if Reached(cfg, games, ids, id, sweep, ws) {
      var k :| 0 <= k < |ids| && ids[k] == id && forall j :: 0 <= j < k ==> !RaisesAt(cfg, games, ids[j], sweep, ws);
      assert ids[1..][k - 1] == id;
      forall j | 0 <= j < k - 1 ensures !RaisesAt(cfg, games', ids[1..][j], sweep, ws) {
        assert !RaisesAt(cfg, games, ids[j + 1], sweep, ws);
      }
    }
    if !RaisesAt(cfg, games, ids[0], sweep, ws) && Reached(cfg, games', ids[1..], id, sweep, ws) {
      var k :| 0 <= k < |ids[1..]| && ids[1..][k] == id &&
        forall j :: 0 <= j < k ==> !RaisesAt(cfg, games', ids[1..][j], sweep, ws);
      forall j | 0 <= j < k + 1 ensures !RaisesAt(cfg, games, ids[j], sweep, ws) {
        if j > 0 {
          assert !RaisesAt(cfg, games', ids[1..][j - 1], sweep, ws);
        }
      }
      assert ids[k + 1] == id;
    }
  }

  /** Games that the sweep does not act on may be left out of the list. */
  lemma {:induction false} SweepKept(cfg: Config, s: State, ids: seq<string>, keep: set<string>, sweep: Sweep,
                                     ws: map<string, Writes>)
    requires NoDup(ids) && forall id :: id in ids && id in s.games && Concerned(s.games[id], sweep) ==> id in keep
    ensures SweepFrom(cfg, s, Kept(ids, keep), sweep, ws) == SweepFrom(cfg, s, ids, sweep, ws)
    decreases |ids|
  {
    hide Updated, Swept, Concerned, NoDup;
    if ids != [] {
      NoDupRest(ids);
      var s' := Visited(cfg, s, ids[0], sweep, WritesFor(ws, ids[0]));
      VisitsOne(cfg, s, ids[0], sweep, WritesFor(ws, ids[0]));
      forall id | id in ids[1..] && id in s'.games && Concerned(s'.games[id], sweep) ensures id in keep {
        assert id in ids && s'.games[id] == s.games[id];
      }
      SweepKept(cfg, s', ids[1..], keep, sweep, ws);
      if ids[0] in keep {
        assert ([ids[0]] + Kept(ids[1..], keep))[1..] == Kept(ids[1..], keep);
      }
    }
  }
}
