/** The match referee: the atomic steps of the server under its one lock, with
    a journal whose writes may fail. Every step does what RefereeSteps says, and
    keeps board, move history, journal, announcements and ratings in agreement. */
module MatchReferee {
  import opened Swap2
  import opened RefereeRules
  import opened RefereeSteps
  import opened Elo

  /** The moves announced for a game. */
  function MovesSeen(events: seq<Event>, id: string): seq<int> {
    if events == [] then []
    else
      var last, rest := events[|events| - 1], MovesSeen(events[..|events| - 1], id);
      if last.StateChanged? && last.gameId == id then rest + [last.action] else rest
  }

  /** How often a game was announced as finished. */
  function Finishes(events: seq<Event>, id: string): nat {
    if events == [] then 0
    else
      var last := events[|events| - 1];
      Finishes(events[..|events| - 1], id) + if last.GameFinished? && last.gameId == id then 1 else 0
  }

  lemma SeenAfter(events: seq<Event>, e: Event)
    ensures forall id :: MovesSeen(events + [e], id) ==
              MovesSeen(events, id) + if e.StateChanged? && e.gameId == id then [e.action] else []
    ensures forall id :: Finishes(events + [e], id) ==
              Finishes(events, id) + if e.GameFinished? && e.gameId == id then 1 else 0
  {
    assert (events + [e])[..|events|] == events;
  }

  lemma NoNews(events: seq<Event>, e: Event)
    requires e.YourTurn? || e.GameStarted?
    ensures forall id :: MovesSeen(events + [e], id) == MovesSeen(events, id)
    ensures forall id :: Finishes(events + [e], id) == Finishes(events, id)
  {
    hide MovesSeen, Finishes;
    SeenAfter(events, e);
  }

  /** The journal of a game holds exactly plies 1..n of its history. */
  ghost predicate JournalMatches(journal: map<(string, int), int>, id: string, history: seq<int>) {
    && (forall ply: int :: (id, ply) in journal <==> 1 <= ply <= |history|)
    && (forall ply: int :: 1 <= ply <= |history| ==> journal[(id, ply)] == history[ply - 1])
  }

  lemma {:induction false} JournalAppends(journal: map<(string, int), int>, id: string, history: seq<int>, a: int)
    requires JournalMatches(journal, id, history)
    ensures (id, |history| + 1) !in journal
    ensures JournalMatches(journal[(id, |history| + 1) := a], id, history + [a])
    ensures forall id', h' :: id' != id && JournalMatches(journal, id', h') ==>
              JournalMatches(journal[(id, |history| + 1) := a], id', h')
  {
  }

  lemma OnlyLiveBoardsMove(n: nat, b: Board, a: int)
    requires |b.cells| == n * n && LegalAction(n, b, a)
    ensures b.result == Undetermined
  {
  }

  /** Replaying the history on a fresh board gives this very board, except that
      the result may have been set by a forfeit. */
  ghost predicate InLockstep(size: nat, snap: (Board, seq<int>)) {
    && size >= 5 && Shaped(size, snap.0)
    && var r := ReplayPy(size, Initial(size), snap.1);
    && r.Accepted?
    && snap.0 == r.board.(result := snap.0.result)
    && (r.board.result != Undetermined ==> snap.0.result == r.board.result)
  }

  class Game {
    const gameId: string
    const board: RefereeBoard
    const playerA: string
    const playerB: string
    const nameA: string
    const nameB: string
    const deadlineMs: int
    const graceMs: int
    var deadlineAt: Option<int>
    var finished: bool
    var resultReason: string
    var disconnectForfeitAt: Option<int>
    var disconnectLoser: Option<Seat>

    constructor (gameId: string, board: RefereeBoard, playerA: string, playerB: string,
                 nameA: string, nameB: string, deadlineMs: int, graceMs: int)
      ensures this.gameId == gameId && this.board == board && this.playerA == playerA && this.playerB == playerB
      ensures this.nameA == nameA && this.nameB == nameB && this.deadlineMs == deadlineMs && this.graceMs == graceMs
      ensures !finished && resultReason == ""
      ensures disconnectForfeitAt == None && disconnectLoser == None && deadlineAt == None
    {
      this.gameId, this.board, this.playerA, this.playerB := gameId, board, playerA, playerB;
      this.nameA, this.nameB, this.deadlineMs, this.graceMs := nameA, nameB, deadlineMs, graceMs;
      deadlineAt, finished, resultReason := None, false, "";
      disconnectForfeitAt, disconnectLoser := None, None;
    }

    function Summary(): GameSummary
      reads this, board
    {
      GameSummary(nameA, nameB, playerA, playerB, board.size, deadlineMs, graceMs, board.moveHistory, board.View(),
                  finished, resultReason, deadlineAt, disconnectForfeitAt, disconnectLoser)
    }

    ghost predicate Lockstep()
      reads board
    {
      InLockstep(board.size, board.Snapshot())
    }

    ghost predicate Settled()
      reads this, board
    {
      finished <==> board.result != Undetermined
    }

    /** Plays a move on the board; a move on a board with a result is illegal. */
    method TryMove(a: int) returns (ok: bool)
      requires Lockstep()
      modifies board
      ensures Lockstep()
      ensures ok <==> old(Summary().Legal(a))
      ensures ok ==> Summary() == old(Played(Summary(), a)) && old(board.result) == Undetermined
      ensures !ok ==> board.Snapshot() == old(board.Snapshot())
    {
      hide ReplayPy, Initial, ApplyPy, LegalAction;
      ghost var b, h := board.View(), board.moveHistory;
      var applied := board.Apply(a);
      if applied {
        OnlyLiveBoardsMove(board.size, b, a);
        ReplayAppends(board.size, Initial(board.size), h, a);
      }
      return applied;
    }

    /** Sets the result if the board has none yet, and closes the game. */
    method Close(result: Result, reason: string)
      requires Lockstep() && result != Undetermined
      modifies `finished, `resultReason, `deadlineAt, board`result
      ensures Lockstep() && finished && Summary() == Closed(old(Summary()), result, reason)
    {
      hide ReplayPy, Initial;
      if board.result == Undetermined {
        board.result := result;
      }
      finished := true;
      resultReason := reason;
      deadlineAt := None;
    }

    function OnClock(): string
      reads board`currentPlayer
    {
      if board.currentPlayer == A then playerA else playerB
    }
  }

  class MatchServer {
    const hasStore: bool
    const elo: EloEngine?
    var games: map<string, Game>
    var gameIds: seq<string>                // in order of creation
    var connPlayer: map<string, string>     // registered connection -> player id
    var playersById: map<string, string>    // player id -> live connection
    var playersByName: map<string, string>  // name -> player id
    var clockRuns: bool
    var journal: map<(string, int), int>    // (game, ply) -> action, insert-or-ignore
    var finishedRows: map<string, (Result, string)>
    var events: seq<Event>
    ghost var owner: map<RefereeBoard, string>  // which game a board belongs to
    ghost const foreign: set<string>            // games rated before this server started

    ghost function Boards(): set<object>
      reads `games
    {
      set g | g in games.Values :: g.board
    }

    ghost function EloRepr(): set<object> {
      if elo == null then {} else {elo}
    }

    ghost function Footprint(): set<object>
      reads `games
    {
      games.Values + Boards() + EloRepr()
    }

    ghost predicate Separate()
      reads `games, `gameIds, `owner
    {
      && NoDup(gameIds) && (forall id :: id in gameIds <==> id in games)
      && forall id :: id in games ==>
           games[id].gameId == id && games[id].board in owner && owner[games[id].board] == id
    }

    /** Nothing was sent, journalled or rated for a game that does not exist. */
    ghost predicate Tidy()
      reads `games, `journal, `events, EloRepr()
    {
      && (forall id :: id !in games ==> MovesSeen(events, id) == [] && Finishes(events, id) == 0)
      && (forall k :: k in journal.Keys ==> k.0 in games)
      && (elo != null ==> forall id :: elo.RatedAnywhere(id) ==> id in games || id in foreign)
    }

    /** Everything about one game except that finished and result agree. */
    ghost predicate Coherent(g: Game)
      reads `journal, `events, g, g.board, EloRepr()
    {
      && g.Lockstep()
      && (hasStore ==> JournalMatches(journal, g.gameId, g.board.moveHistory))
      && MovesSeen(events, g.gameId) == g.board.moveHistory
      && Finishes(events, g.gameId) <= (if g.finished then 1 else 0)
      && (elo != null && elo.RatedAnywhere(g.gameId) ==> g.finished)
    }

    ghost predicate AllCoherent()
      reads `games, `gameIds, `owner, `journal, `events, Footprint()
    {
      && Separate() && Tidy()
      && (elo != null ==> elo.Valid())
      && forall id :: id in games ==> Coherent(games[id])
    }

    ghost predicate Inv()
      reads `games, `gameIds, `owner, `journal, `events, Footprint()
    {
      AllCoherent() && forall id :: id in games ==> games[id].Settled()
    }

    /** Every game but g is coherent and settled. */
    ghost predicate OthersFine(g: Game)
      reads `games, `gameIds, `owner, `journal, `events, Footprint()
    {
      && Separate() && Tidy() && (elo != null ==> elo.Valid())
      && forall id :: id in games && games[id] != g ==> Coherent(games[id]) && games[id].Settled()
    }

    /** The games as clients see them. */
    ghost function Summary(): (m: map<string, GameSummary>)
      reads `games, games.Values, Boards()
    {
      map id | id in games :: games[id].Summary()
    }

    ghost function Cfg(): Config {
      Config(hasStore, elo != null)
    }

    /** The writes to the ratings so far. */
    ghost function Log(): seq<DbStep>
      reads EloRepr()
    {
      if elo == null then [] else elo.log
    }

    /** All that can be seen of the server. */
    ghost function View(): State
      reads `games, `gameIds, games.Values, Boards(), `connPlayer, `playersById, `playersByName
      reads `clockRuns, `finishedRows, `events, EloRepr()
    {
      State(Summary(), gameIds, connPlayer, playersById, playersByName, clockRuns, finishedRows, events, Log())
    }

    // ----- Ratings ----------------------------------------------------

    /** A journal write also settles what rating updates left pending on the
        connection that both use. */
    method SettleRatings(ok: bool, ghost g: Game)
      requires OthersFine(g) && g in games.Values
      modifies EloRepr()
      ensures OthersFine(g) && Log() == old(Log()) + JournalWrite(Cfg(), ok)
      ensures old(AllCoherent()) ==> AllCoherent()
      ensures old(Inv()) ==> Inv()
    {
      hide MovesSeen, Finishes, JournalMatches, EloEngine.RatedAnywhere, EloEngine.Valid, Game.Lockstep;
      if hasStore && elo != null {
        if ok {
          elo.Commit();
        } else {
          elo.Rollback();
        }
      }
    }

    // ----- The end of a game --------------------------------------------

    /** Marks a game finished, records it, rates it and announces it. The store
        write may fail, in which case the later steps do not happen. */
    method FinishGame(g: Game, result: Result, reason: string, w: Writes) returns (raised: bool)
      requires AllCoherent() && g in games.Values && result != Undetermined
      requires OthersFine(g)
      requires g.finished ==> g.Settled()
      modifies `events, `finishedRows, g`finished, g`resultReason, g`deadlineAt, g.board`result, EloRepr()
      ensures Inv() && g.finished && (raised <==> !old(g.finished) && Fails(Cfg(), w))
      ensures View() ==
        if old(g.finished) then old(View())
        else Updated(Cfg(), old(View()), g.gameId, Closed(old(g.Summary()), result, reason), w, false)
    {
      hide Inv, AllCoherent, OthersFine, Separate, Tidy, MovesSeen, Summary, Log, Closed, Updated, JournalWrite;
      BoardsApart(g);
      ghost var s := View();
      if g.finished {
        InvFromParts(g);
        return false;
      }
      MarkFinished(g, result, reason);
      ClosedIsFinished(old(g.Summary()), result, reason);
      raised := RecordFinish(g, reason, w.finishOk);
      if !raised {
        RateGame(g, w.ratingSteps);
        AnnounceFinish(g, reason);
      }
      OneGameChanged(g);
      FinishedIs(Cfg(), s, g.gameId, g.Summary(), w, View());
    }

    lemma FinishedIs(cfg: Config, s: State, id: string, x: GameSummary, w: Writes, t: State)
      requires x.finished
      requires t == s.(games := s.games[id := x], finals := t.finals, events := t.events, db := t.db)
      requires t.finals == if cfg.hasStore && w.finishOk then s.finals[id := (x.board.result, x.reason)] else s.finals
      requires t.events == if Fails(cfg, w) then s.events else s.events + [GameFinished(id, x.board.result, x.reason)]
      requires t.db == if Fails(cfg, w) || !cfg.hasElo then s.db + JournalWrite(cfg, w.finishOk)
        else s.db + JournalWrite(cfg, w.finishOk) + [Rate(Match(id, x.nameA, x.nameB, x.board.result), w.ratingSteps)]
      ensures t == Updated(cfg, s, id, x, w, false)
    {
      hide JournalWrite;
    }

    lemma ClosedIsFinished(s: GameSummary, result: Result, reason: string)
      ensures var x := Closed(s, result, reason);
        x.finished && x.reason == reason && x.nameA == s.nameA && x.nameB == s.nameB
    {
    }

    /** If only g and its board changed, the summary changed only at g. */
    twostate lemma OneGameChanged(g: Game)
      requires old(AllCoherent()) && games == old(games) && g in games.Values
      requires forall id :: id in games && games[id] != g ==> unchanged(games[id]) && unchanged(games[id].board)
      ensures Summary() == old(Summary())[g.gameId := g.Summary()]
    {
      hide Coherent, EloEngine.Valid, Tidy, NoDup;
    }

    /** If besides only messages were sent, the view changed at g and there. */
    twostate lemma OnlyOneViewed(g: Game)
      requires old(AllCoherent()) && games == old(games) && g in games.Values
      requires forall id :: id in games && games[id] != g ==> unchanged(games[id]) && unchanged(games[id].board)
      requires unchanged(`gameIds) && unchanged(`connPlayer) && unchanged(`playersById) && unchanged(`playersByName)
      requires unchanged(`clockRuns) && unchanged(`finishedRows) && (elo != null ==> unchanged(elo))
      ensures View() == old(View()).(games := old(View()).games[g.gameId := g.Summary()], events := events)
    {
      hide AllCoherent, Summary, Game.Summary;
      OneGameChanged(g);
    }

    lemma BoardsApart(g: Game)
      requires AllCoherent() && g in games.Values
      ensures forall id :: id in games && games[id] != g ==> games[id].board != g.board
      ensures g.gameId in games && games[g.gameId] == g
    {
      hide Coherent, EloEngine.Valid, Tidy, NoDup;
    }

    lemma InvFromParts(g: Game)
      requires AllCoherent() && OthersFine(g) && g in games.Values && g.Settled()
      ensures Inv()
    {
      hide Coherent, EloEngine.Valid, Tidy, NoDup;
    }

    lemma InvParts(g: Game)
      requires Inv() && g in games.Values
      ensures AllCoherent() && OthersFine(g) && g.Settled()
    {
      hide Coherent, EloEngine.Valid, Tidy, NoDup;
    }

    lemma SummaryEntry(g: Game)
      requires Inv() && g in games.Values
      ensures g.gameId in Summary() && Summary()[g.gameId] == g.Summary() && g in Footprint() && g.board in Footprint()
      ensures Summary().Keys == games.Keys && g.Settled()
      ensures forall id :: id in games ==> games[id].gameId == id
    {
      hide Coherent, EloEngine.Valid, Tidy, NoDup;
    }

    method RecordFinish(g: Game, reason: string, finishOk: bool) returns (raised: bool)
      requires Inv() && g in games.Values
      modifies `finishedRows, EloRepr()
      ensures Inv() && raised == (hasStore && !finishOk)
      ensures Log() == old(Log()) + JournalWrite(Cfg(), finishOk)
      ensures finishedRows ==
        if hasStore && finishOk then old(finishedRows)[g.gameId := (g.board.result, reason)] else old(finishedRows)
    {
      hide Inv, AllCoherent, Separate, Tidy, Coherent, OthersFine, Log, EloEngine.Valid;
      InvParts(g);
      NotOwn();
      SettleRatings(finishOk, g);
      raised := hasStore && !finishOk;
      if hasStore && finishOk {
        finishedRows := finishedRows[g.gameId := (g.board.result, reason)];
      }
    }

    method MarkFinished(g: Game, result: Result, reason: string)
      requires AllCoherent() && g in games.Values && result != Undetermined && !g.finished
      requires OthersFine(g)
      modifies g`finished, g`resultReason, g`deadlineAt, g.board`result
      ensures Inv() && g.finished && Finishes(events, g.gameId) == 0
      ensures g.Summary() == Closed(old(g.Summary()), result, reason)
    {
      hide MovesSeen, Finishes, JournalMatches, EloEngine.RatedAnywhere, EloEngine.Valid, Game.Lockstep;
      hide NoDup;
      assert Coherent(g);
      g.Close(result, reason);
      forall id | id in games && games[id] != g ensures Coherent(games[id]) && games[id].Settled() {
        assert old(Coherent(games[id])) && games[id].board != g.board;
      }
    }

    method RateGame(g: Game, steps: nat)
      requires Inv() && g in games.Values && g.finished
      modifies EloRepr()
      ensures Inv()
      ensures Log() == old(Log()) +
        if elo == null then [] else [Rate(Match(g.gameId, g.nameA, g.nameB, g.board.result), steps)]
    {
      hide ReplayPy, MovesSeen, Finishes, JournalMatches, EloEngine.RatedAnywhere, RateMatch, EloEngine.Valid, Initial;
      hide Game.Lockstep, Next, NextFlags, NoDup;
      if elo != null {
        var u := elo.UpdateAfterMatch(Match(g.gameId, g.nameA, g.nameB, g.board.result), steps);
      }
    }

    method AnnounceFinish(g: Game, reason: string)
      requires Inv() && g in games.Values && g.finished && Finishes(events, g.gameId) == 0
      modifies `events
      ensures Inv() && events == old(events) + [GameFinished(g.gameId, g.board.result, reason)]
    {
      hide MovesSeen, Finishes, JournalMatches, EloEngine.RatedAnywhere, EloEngine.Valid, Game.Lockstep;
      hide NoDup;
      SeenAfter(events, GameFinished(g.gameId, g.board.result, reason));
      events := events + [GameFinished(g.gameId, g.board.result, reason)];
    }

    // ----- Moves --------------------------------------------------------

    /** Applies a move, journals it and announces it. A refused move or a failed
        journal write leaves everything as it was, except that pending ratings
        are rolled back. */
    method PlayMove(g: Game, a: int, storeOk: bool) returns (r: Response)
      requires Inv() && g in games.Values && !g.finished
      modifies `journal, `events, g.board, EloRepr()
      ensures AllCoherent() && OthersFine(g)
      ensures Summary() == old(Summary())[g.gameId := g.Summary()]
      ensures r.Ok? <==> old(g.Summary().Legal(a)) && (hasStore ==> storeOk)
      ensures r.Err? ==> r.code == if old(g.Summary().Legal(a)) then EngineError else IllegalAction
      ensures r.Err? ==>
        Inv() && journal == old(journal) && events == old(events) && g.Summary() == old(g.Summary())
      ensures r.Ok? ==>
        && g.Summary() == Played(old(g.Summary()), a)
        && events == old(events) + [StateChanged(g.gameId, a)]
        && (hasStore ==> journal == old(journal)[(g.gameId, |g.board.moveHistory|) := a])
      ensures Log() == old(Log()) + if old(g.Summary().Legal(a)) then JournalWrite(Cfg(), storeOk) else []
    {
      hide Inv, AllCoherent, Separate, Tidy, Coherent, OthersFine, MovesSeen, Finishes, JournalMatches, EloEngine.Valid;
      hide InLockstep, LegalAction, ApplyPy, Shaped, Summary, Log;
      CoherentMeans(g);
      ghost var before := g.board.moveHistory;
      var snap := g.board.Snapshot();
      var legal := g.TryMove(a);
      OthersStillFine(g);
      if !legal {
        BackAgain(g);
        r := Err(IllegalAction);
      } else if hasStore && !storeOk {
        g.board.Restore(snap);
        OthersStillFine(g);
        BackAgain(g);
        SettleRatings(false, g);
        r := Err(EngineError);
      } else {
        CommitMove(g, a, before);
        SettleRatings(storeOk, g);
        r := Ok(false);
      }
      OneGameChanged(g);
    }

    lemma CoherentMeans(g: Game)
      requires Inv() && g in games.Values
      ensures Separate() && AllCoherent() && OthersFine(g) && g.Lockstep() && g.Settled()
      ensures hasStore ==> JournalMatches(journal, g.gameId, g.board.moveHistory)
      ensures MovesSeen(events, g.gameId) == g.board.moveHistory
      ensures !g.finished ==> Finishes(events, g.gameId) == 0
      ensures !g.finished && elo != null ==> !elo.RatedAnywhere(g.gameId)
      ensures forall id :: id in games && games[id] != g ==> games[id].board != g.board
    {
      hide MovesSeen, Finishes, JournalMatches, EloEngine.RatedAnywhere, EloEngine.Valid, Game.Lockstep;
      hide NoDup, Tidy;
      assert Coherent(g);
    }

    /** What happens on the board of g does not touch the other games. */
    twostate lemma OthersStillFine(g: Game)
      requires old(OthersFine(g)) && unchanged(`games) && unchanged(`gameIds) && unchanged(`owner)
      requires unchanged(`journal) && unchanged(`events)
      requires elo != null ==> unchanged(elo)
      requires forall id :: id in games && games[id] != g ==> unchanged(games[id]) && unchanged(games[id].board)
      ensures OthersFine(g)
    {
      hide MovesSeen, Finishes, JournalMatches, EloEngine.RatedAnywhere, EloEngine.Valid, Game.Lockstep;
      hide NoDup;
    }

    /** A board that is back where it was. */
    twostate lemma BackAgain(g: Game)
      requires old(Inv()) && OthersFine(g) && g in games.Values
      requires unchanged(`games) && unchanged(`owner) && unchanged(`journal) && unchanged(`events) && unchanged(g)
      requires elo != null ==> unchanged(elo)
      requires g.board.Snapshot() == old(g.board.Snapshot())
      ensures Inv() && AllCoherent()
    {
      hide MovesSeen, Finishes, JournalMatches, EloEngine.RatedAnywhere, EloEngine.Valid, InLockstep, NoDup, Tidy;
      assert old(Coherent(g));
    }

    /** Journals and announces a move that is already on the board of g. */
    method CommitMove(g: Game, a: int, ghost before: seq<int>)
      requires g in games.Values && !g.finished && OthersFine(g)
      requires g.Lockstep() && g.board.moveHistory == before + [a]
      requires hasStore ==> JournalMatches(journal, g.gameId, before)
      requires MovesSeen(events, g.gameId) == before && Finishes(events, g.gameId) == 0
      requires elo != null ==> !elo.RatedAnywhere(g.gameId)
      modifies `journal, `events
      ensures AllCoherent() && OthersFine(g)
      ensures events == old(events) + [StateChanged(g.gameId, a)]
      ensures journal == if hasStore then old(journal)[(g.gameId, |g.board.moveHistory|) := a] else old(journal)
    {
      hide MovesSeen, Finishes, JournalMatches, EloEngine.RatedAnywhere, EloEngine.Valid, Game.Lockstep;
      hide NoDup, Separate, Game.Settled, Tidy;
      GameIds();
      if hasStore {
        JournalAppends(journal, g.gameId, before, a);
        var ply := |g.board.moveHistory|;
        if (g.gameId, ply) !in journal {
          journal := journal[(g.gameId, ply) := a];
        }
      }
      SeenAfter(events, StateChanged(g.gameId, a));
      events := events + [StateChanged(g.gameId, a)];
      StillNoStrayMoves(g);
    }

    lemma GameIds()
      requires Separate()
      ensures forall id :: id in games ==> games[id].gameId == id
    {
    }

    twostate lemma StillNoStrayMoves(g: Game)
      requires old(Tidy()) && unchanged(`games) && (elo != null ==> unchanged(elo)) && g.gameId in games
      requires forall k :: k in journal ==> k in old(journal) || k.0 == g.gameId
      requires forall id :: id != g.gameId ==> MovesSeen(events, id) == MovesSeen(old(events), id)
      requires forall id :: id != g.gameId ==> Finishes(events, id) == Finishes(old(events), id)
      ensures Tidy()
    {
      hide MovesSeen, Finishes, EloEngine.RatedAnywhere;
    }

    /** Puts the player to move on the clock; a player without a live
        connection forfeits at once. */
    method SendYourTurn(g: Game, now: int, w: Writes) returns (raised: bool)
      requires Inv() && g in games.Values
      modifies `events, `finishedRows, g`finished, g`resultReason, g`deadlineAt, g.board`result, EloRepr()
      ensures Inv() && (raised <==> !old(g.finished) && g.finished && Fails(Cfg(), w))
      ensures View() ==
        if old(g.finished) then old(View())
        else Updated(Cfg(), old(View()), g.gameId, TurnSent(old(g.Summary()), playersById, now), w, true)
      ensures g.Summary() == TurnSent(old(g.Summary()), playersById, now)
    {
      hide Inv, AllCoherent, OthersFine, Separate, Tidy, MovesSeen, Summary, View, Updated, Closed;
      SummaryEntry(g);
      InvParts(g);
      BoardsApart(g);
      Seen();
      ghost var s, before := View(), g.Summary();
      ghost var x := TurnSent(before, playersById, now);
      raised := false;
      if !g.finished {
        if g.OnClock() in playersById {
          StartClock(g, now);
          OnlyOneViewed(g);
          GameGoesOn(Cfg(), s, g.gameId, x, w, true);
        } else {
          raised := LoseAbsent(g, now, w);
        }
      }
    }

    /** The player to move has no live connection and loses. */
    method LoseAbsent(g: Game, now: int, w: Writes) returns (raised: bool)
      requires Inv() && g in games.Values && !g.finished && g.OnClock() !in playersById
      modifies `events, `finishedRows, g`finished, g`resultReason, g`deadlineAt, g.board`result, EloRepr()
      ensures Inv() && (raised <==> Fails(Cfg(), w)) && g.finished
      ensures View() ==
        Updated(Cfg(), old(View()), g.gameId, TurnSent(old(g.Summary()), playersById, now), w, true)
      ensures g.Summary() == TurnSent(old(g.Summary()), playersById, now)
    {
      hide Inv, AllCoherent, OthersFine, Separate, Tidy, MovesSeen, Summary, View, Updated, Closed;
      SummaryEntry(g);
      InvParts(g);
      BoardsApart(g);
      Seen();
      ghost var s, before := View(), g.Summary();
      ghost var x := TurnSent(before, playersById, now);
      var winner := if g.OnClock() == g.playerA then PlayerBWin else PlayerAWin;
      raised := FinishGame(g, winner, "disconnect", w);
      ClosedIsFinished(before, winner, "disconnect");
      TurnIsMoot(Cfg(), s, g.gameId, x, w);
      EntryAfter(g, s, x, w, false);
    }

    lemma GameGoesOn(cfg: Config, s: State, id: string, x: GameSummary, w: Writes, turn: bool)
      requires !x.finished
      ensures Updated(cfg, s, id, x, w, turn) ==
        s.(games := s.games[id := x], events := s.events + if turn then [YourTurn(id, x.board.seat)] else [])
    {
    }

    lemma EntryAfter(g: Game, s: State, x: GameSummary, w: Writes, turn: bool)
      requires Inv() && g in games.Values && View() == Updated(Cfg(), s, g.gameId, x, w, turn)
      ensures g.Summary() == x
    {
      hide Inv, Summary;
      SummaryEntry(g);
      UpdatesOne(Cfg(), s, g.gameId, x, w, turn);
    }

    method StartClock(g: Game, now: int)
      requires Inv() && g in games.Values
      modifies `events, g`deadlineAt
      ensures Inv() && events == old(events) + [YourTurn(g.gameId, g.board.currentPlayer)]
      ensures g.deadlineAt == if old(g.deadlineAt) == None then Some(now + g.deadlineMs) else old(g.deadlineAt)
    {
      hide Inv;
      if g.deadlineAt == None {
        ResetDeadline(g, now);
      }
      Tell(YourTurn(g.gameId, g.board.currentPlayer));
    }

    /** Sends a message that neither reports a move nor an end. */
    method Tell(e: Event)
      requires Inv() && (e.YourTurn? || e.GameStarted?)
      modifies `events
      ensures Inv() && events == old(events) + [e] && Summary() == old(Summary())
    {
      hide MovesSeen, Finishes, JournalMatches, EloEngine.RatedAnywhere, EloEngine.Valid, Game.Lockstep;
      hide NoDup, Separate, Game.Settled, Game.Summary, Summary, Tidy;
      InFootprint();
      NoNews(events, e);
      events := events + [e];
      StillNoStrays();
    }

    twostate lemma StillNoStrays()
      requires old(Tidy()) && unchanged(`games) && unchanged(`journal) && (elo != null ==> unchanged(elo))
      requires forall id :: MovesSeen(events, id) == MovesSeen(old(events), id)
      requires forall id :: Finishes(events, id) == Finishes(old(events), id)
      ensures Tidy()
    {
      hide MovesSeen, Finishes, EloEngine.RatedAnywhere;
    }

    /** Ends the game if the move decided it; otherwise gives the next player a
        fresh deadline. */
    method AfterMove(g: Game, now: int, w: Writes) returns (r: Response)
      requires AllCoherent() && OthersFine(g) && g in games.Values && !g.finished
      modifies `events, `finishedRows, g`finished, g`resultReason, g`deadlineAt, g.board`result, EloRepr()
      ensures Inv()
      ensures View() ==
        Updated(Cfg(), old(View()), g.gameId, Advanced(old(g.Summary()), playersById, now), w, true)
      ensures r ==
        if g.finished && Fails(Cfg(), w) then Err(EngineError) else Ok(old(g.board.result) != Undetermined)
    {
      hide Inv, AllCoherent, OthersFine, Separate, Tidy, MovesSeen, Summary, View, TurnSent, Updated, Closed;
      var raised: bool;
      var terminal := g.board.result != Undetermined;
      if terminal {
        ghost var s, x := View(), Advanced(g.Summary(), playersById, now);
        raised := FinishGame(g, g.board.result, if g.board.result == Draw then "draw" else "five_in_a_row", w);
        ClosedIsFinished(old(g.Summary()), old(g.board.result),
                         if old(g.board.result) == Draw then "draw" else "five_in_a_row");
        TurnIsMoot(Cfg(), s, g.gameId, x, w);
      } else {
        InvFromParts(g);
        raised := PassTurn(g, now, w);
      }
      return if raised then Err(EngineError) else Ok(terminal);
    }

    method PassTurn(g: Game, now: int, w: Writes) returns (raised: bool)
      requires Inv() && g in games.Values && !g.finished
      modifies `events, `finishedRows, g`finished, g`resultReason, g`deadlineAt, g.board`result, EloRepr()
      ensures Inv() && (raised <==> g.finished && Fails(Cfg(), w))
      ensures View() == Updated(Cfg(), old(View()), g.gameId,
        TurnSent(old(g.Summary()).(deadlineAt := Some(now + g.deadlineMs)), playersById, now), w, true)
    {
      hide Inv, AllCoherent, OthersFine, Separate, Tidy, MovesSeen, Summary, View, TurnSent, Updated;
      InvParts(g);
      BoardsApart(g);
      ghost var s := View();
      Seen();
      ResetDeadline(g, now);
      OnlyOneViewed(g);
      Seen();
      ghost var y := g.Summary();
      assert View() == s.(games := s.games[g.gameId := y]);
      raised := SendYourTurn(g, now, w);
      UpdatedTwice(Cfg(), s, g.gameId, y, TurnSent(y, playersById, now), w, true);
    }

    lemma TurnIsMoot(cfg: Config, s: State, id: string, x: GameSummary, w: Writes)
      requires x.finished
      ensures Updated(cfg, s, id, x, w, true) == Updated(cfg, s, id, x, w, false)
    {
    }

    method ResetDeadline(g: Game, now: int)
      requires Inv() && g in games.Values
      modifies g`deadlineAt
      ensures Inv() && g.deadlineAt == Some(now + g.deadlineMs)
    {
      hide MovesSeen, Finishes, JournalMatches, EloEngine.RatedAnywhere, EloEngine.Valid, Game.Lockstep;
      hide NoDup;
      g.deadlineAt := Some(now + g.deadlineMs);
    }

    // ----- Requests -------------------------------------------------------

    /** The checks before a move is tried. */
    method Admit(conn: string, id: string, ghost a: int) returns (code: Option<ErrorCode>)
      requires Inv()
      ensures code != None ==> code == MoveRefusal(View(), conn, id, a)
      ensures code == None ==>
        && conn in connPlayer && id in games && !games[id].finished
        && MoveRefusal(View(), conn, id, a) == if games[id].Summary().Legal(a) then None else Some(IllegalAction)
    {
      hide Inv, LegalAction, Shaped;
      if conn !in connPlayer {
        return Some(UnknownPlayer);
      }
      if id !in games {
        return Some(UnknownGame);
      }
      if games[id].finished {
        return Some(TerminalPosition);
      }
      if connPlayer[conn] != games[id].OnClock() {
        return Some(NotYourTurn);
      }
      return None;
    }

    /** A move is accepted exactly from the player on the clock of a running game
        if it is legal and the journal takes it; then history, journal and
        announcements all grow by it and the game advances. Otherwise nothing
        changes. */
    method SubmitMove(conn: string, id: string, a: int, now: int, storeOk: bool, w: Writes) returns (r: Response)
      requires Inv()
      modifies `journal, `events, `finishedRows, Footprint()
      ensures Inv() && View() == Submitted(Cfg(), old(View()), conn, id, a, now, storeOk, w)
      ensures old(MoveRefusal(View(), conn, id, a)) != None ==> r == Err(old(MoveRefusal(View(), conn, id, a)).value)
      ensures old(MoveRefusal(View(), conn, id, a)) == None ==>
        && id in games
        && (r.Err? <==> (hasStore && !storeOk) || (games[id].finished && Fails(Cfg(), w)))
        && (r.Err? ==> r.code == EngineError)
        && (hasStore && storeOk ==> journal == old(journal)[(id, |games[id].board.moveHistory|) := a])
      ensures old(MoveRefusal(View(), conn, id, a)) != None || (hasStore && !storeOk) ==> journal == old(journal)
    {
      hide Inv, Summary, MoveRefusal, LegalAction, ApplyPy, Advanced, Shaped, Updated, Log;
      var refused := Admit(conn, id, a);
      if refused.Some? {
        return Err(refused.value);
      }
      var g := games[id];
      SummaryEntry(g);
      r := PlayAndAdvance(g, a, now, storeOk, w);
    }

    method PlayAndAdvance(g: Game, a: int, now: int, storeOk: bool, w: Writes) returns (r: Response)
      requires Inv() && g in games.Values && !g.finished
      modifies `journal, `events, `finishedRows, g, g.board, EloRepr()
      ensures Inv()
      ensures !old(g.Summary().Legal(a)) ==> r == Err(IllegalAction) && View() == old(View()) && journal == old(journal)
      ensures old(g.Summary().Legal(a)) && hasStore && !storeOk ==>
        && r == Err(EngineError) && journal == old(journal)
        && View() == old(View()).(db := old(View()).db + JournalWrite(Cfg(), false))
      ensures old(g.Summary().Legal(a)) && (hasStore ==> storeOk) ==>
        && (r.Err? <==> g.finished && Fails(Cfg(), w)) && (r.Err? ==> r.code == EngineError)
        && (hasStore ==> journal == old(journal)[(g.gameId, |g.board.moveHistory|) := a])
        && var s := old(View());
        && View() == Updated(Cfg(), s.(events := s.events + [StateChanged(g.gameId, a)],
                                       db := s.db + JournalWrite(Cfg(), true)),
                             g.gameId, Advanced(Played(old(g.Summary()), a), playersById, now), w, true)
    {
      hide Inv, OthersFine, AllCoherent, MovesSeen, Summary, LegalAction, ApplyPy, Log, Shaped, Updated, Advanced;
      SummaryEntry(g);
      InvParts(g);
      BoardsApart(g);
      ghost var s, before := View(), g.Summary();
      r := PlayMove(g, a, storeOk);
      if r.Ok? {
        JournalWriteWithoutStore(storeOk);
        ghost var s' := s.(events := s.events + [StateChanged(g.gameId, a)], db := s.db + JournalWrite(Cfg(), true));
        ghost var y := g.Summary();
        assert View() == s'.(games := s'.games[g.gameId := y]);
        r := AfterMove(g, now, w);
        UpdatedTwice(Cfg(), s', g.gameId, y, Advanced(y, playersById, now), w, true);
      } else {
        assert s.games[g.gameId := before] == s.games;
      }
    }

    lemma JournalWriteWithoutStore(storeOk: bool)
      requires hasStore ==> storeOk
      ensures JournalWrite(Cfg(), storeOk) == JournalWrite(Cfg(), true)
    {
    }

    /** A player gives up a running game: the other one wins. */
    method Resign(conn: string, id: string, w: Writes) returns (r: Response)
      requires Inv()
      modifies `events, `finishedRows, Footprint()
      ensures Inv() && View() == Resigned(Cfg(), old(View()), conn, id, w)
      ensures r ==
        var refusal := old(ResignRefusal(View(), conn, id));
        if refusal != None then Err(refusal.value) else if Fails(Cfg(), w) then Err(EngineError) else Ok(true)
    {
      hide Inv, AllCoherent, OthersFine, Separate, Coherent, EloEngine.Valid, Summary, Log, Updated, Closed;
      hide Footprint, Boards, EloRepr;
      InFootprint();
      OwnIds();
      if conn !in connPlayer || id !in games || games[id].finished {
        return Err(
          if conn !in connPlayer then UnknownPlayer else if id !in games then UnknownGame else TerminalPosition);
      }
      var g, player := games[id], connPlayer[conn];
      if player != g.playerA && player != g.playerB {
        return Err(NotYourTurn);
      }
      SummaryEntry(g);
      InvParts(g);
      var raised := FinishGame(g, if player == g.playerA then PlayerBWin else PlayerAWin, "resignation", w);
      return if raised then Err(EngineError) else Ok(true);
    }

    // ----- Steps over many games ------------------------------------------

    lemma NotOwn()
      ensures (this as object) !in Footprint()
    {
    }

    lemma InFootprint()
      ensures forall id :: id in games ==> games[id] in Footprint() && games[id].board in Footprint()
      ensures EloRepr() <= Footprint() && (this as object) !in Footprint() && (this as object) !in Boards()
      ensures (this as object) !in EloRepr()
    {
    }

    /** The parts of the view that the steps look at. */
    lemma Seen()
      ensures View().games == Summary() && View().order == gameIds && View().events == events
      ensures View().ticking == clockRuns && View().conns == connPlayer
      ensures View().live == playersById && View().names == playersByName
    {
      hide Summary;
    }

    lemma OwnIds()
      requires Inv()
      ensures View().games == Summary() && View().order == gameIds
      ensures NoDup(gameIds) && (forall id :: id in gameIds <==> id in games)
      ensures forall id :: id in games ==> games[id].gameId == id
      ensures Summary().Keys == games.Keys
      ensures forall id :: id in games ==> Summary()[id] == games[id].Summary()
    {
      hide Coherent, EloEngine.Valid, Tidy;
    }

    lemma SweepNext(cfg: Config, s: State, ids: seq<string>, i: nat, sweep: Sweep, ws: map<string, Writes>)
      requires i < |ids| && ids[i] in s.games
      ensures var s' := Visited(cfg, s, ids[i], sweep, WritesFor(ws, ids[i]));
        SweepFrom(cfg, s, ids[i..], sweep, ws) ==
        if Raises(cfg, s.games[ids[i]], sweep, WritesFor(ws, ids[i])) then (s', true)
        else SweepFrom(cfg, s', ids[i + 1..], sweep, ws)
    {
      hide Visited, Raises;
      assert ids[i..][0] == ids[i] && ids[i..][1..] == ids[i + 1..];
    }

    lemma SweepDone(cfg: Config, s: State, sweep: Sweep, ws: map<string, Writes>)
      ensures SweepFrom(cfg, s, [], sweep, ws) == (s, false)
    {
    }

    /** What a lost connection does to one game. */
    method DropPlayer(id: string, player: string, now: int, w: Writes) returns (raised: bool)
      requires Inv() && id in games
      modifies `events, `finishedRows, games[id], games[id].board`result, EloRepr()
      ensures Inv() && View() == Visited(Cfg(), old(View()), id, Leave(player, now), w)
      ensures raised <==> Raises(Cfg(), old(View()).games[id], Leave(player, now), w)
    {
      hide Inv, AllCoherent, OthersFine, Separate, Tidy, Summary, View, Updated;
      var g := games[id];
      SummaryEntry(g);
      InvParts(g);
      BoardsApart(g);
      Seen();
      raised := false;
      if !g.finished && (player == g.playerA || player == g.playerB) {
        var loser := if player == g.playerA then A else B;
        if g.graceMs > 0 {
          SetForfeit(g, Some(now + g.graceMs), Some(loser));
          OnlyOneViewed(g);
          GameGoesOn(Cfg(), old(View()), id, g.Summary(), w, false);
        } else {
          raised := FinishGame(g, WinnerForLoser(loser), "disconnect", w);
        }
      }
    }

    method SetForfeit(g: Game, at: Option<int>, loser: Option<Seat>)
      requires Inv() && g in games.Values
      modifies g`disconnectForfeitAt, g`disconnectLoser
      ensures Inv() && g.disconnectForfeitAt == at && g.disconnectLoser == loser
    {
      hide MovesSeen, Finishes, JournalMatches, EloEngine.RatedAnywhere, EloEngine.Valid, Game.Lockstep;
      hide NoDup;
      g.disconnectForfeitAt, g.disconnectLoser := at, loser;
    }

    /** A player who is back: no forfeit is pending, and on the player's turn the
        clock starts anew. */
    method ResumeGame(id: string, player: string, now: int)
      requires Inv() && id in games
      modifies `events, games[id]
      ensures Inv() && View() == Visited(Cfg(), old(View()), id, Return(player, now), Writes(false, 0))
    {
      hide Inv, AllCoherent, OthersFine, Separate, Tidy, Summary, View, Updated, Swept;
      var g := games[id];
      SummaryEntry(g);
      Seen();
      if !g.finished && (player == g.playerA || player == g.playerB) {
        Resume(g, player, now);
      }
    }

    method Resume(g: Game, player: string, now: int)
      requires Inv() && g in games.Values && !g.finished && (player == g.playerA || player == g.playerB)
      modifies `events, g
      ensures Inv() && View() == Updated(Cfg(), old(View()), g.gameId, Swept(old(g.Summary()), Return(player, now)),
        Writes(false, 0), old(g.OnClock()) == player)
    {
      hide Inv, AllCoherent, OthersFine, Separate, Tidy, Summary, View, Updated;
      InvParts(g);
      BoardsApart(g);
      Seen();
      ghost var s, x := View(), Swept(g.Summary(), Return(player, now));
      GameGoesOn(Cfg(), s, g.gameId, x, Writes(false, 0), g.OnClock() == player);
      SetForfeit(g, None, None);
      if g.OnClock() == player {
        ResetDeadline(g, now);
        StartClock(g, now);
      }
      OnlyOneViewed(g);
    }

    method TimeOut(id: string, now: int, w: Writes) returns (raised: bool)
      requires Inv() && id in games
      modifies `events, `finishedRows, games[id], games[id].board`result, EloRepr()
      ensures Inv() && View() == Visited(Cfg(), old(View()), id, TimeUp(now), w)
      ensures raised <==> Raises(Cfg(), old(View()).games[id], TimeUp(now), w)
    {
      hide Inv, AllCoherent, OthersFine, Separate, Tidy, Summary, View, Updated;
      var g := games[id];
      SummaryEntry(g);
      InvParts(g);
      Seen();
      raised := false;
      if Overdue(g, now) {
        var winner := if g.board.currentPlayer == A then PlayerBWin else PlayerAWin;
        raised := FinishGame(g, winner, "timeout", w);
      }
    }

    method EndGrace(id: string, now: int, w: Writes) returns (raised: bool)
      requires Inv() && id in games
      modifies `events, `finishedRows, games[id], games[id].board`result, EloRepr()
      ensures Inv() && View() == Visited(Cfg(), old(View()), id, GraceUp(now), w)
      ensures raised <==> Raises(Cfg(), old(View()).games[id], GraceUp(now), w)
    {
      hide Inv, AllCoherent, OthersFine, Separate, Tidy, Summary, View, Updated;
      var g := games[id];
      SummaryEntry(g);
      InvParts(g);
      Seen();
      raised := false;
      if GraceOver(g, now) {
        var loser := if g.disconnectLoser == Some(B) then B else A;
        raised := FinishGame(g, WinnerForLoser(loser), "disconnect", w);
      }
    }

    predicate Overdue(g: Game, now: int)
      reads g
    {
      !g.finished && g.deadlineAt.Some? && now >= g.deadlineAt.value
    }

    predicate GraceOver(g: Game, now: int)
      reads g
    {
      !g.finished && g.disconnectForfeitAt.Some? && now >= g.disconnectForfeitAt.value
    }

    ghost function OverdueIds(now: int): set<string>
      reads `games, games.Values
    {
      set id | id in games && Overdue(games[id], now)
    }

    ghost function GraceOverIds(now: int): set<string>
      reads `games, games.Values
    {
      set id | id in games && GraceOver(games[id], now)
    }

    /** The games past their deadline and those past a grace period, in order. */
    method Expired(now: int) returns (late: seq<string>, gone: seq<string>)
      requires Inv()
      ensures Inv() && View() == old(View())
      ensures late == Kept(gameIds, OverdueIds(now)) && gone == Kept(gameIds, GraceOverIds(now))
    {
      hide Inv, Summary, NoDup, Overdue, GraceOver;
      OwnIds();
      late, gone := [], [];
      ghost var over, out := OverdueIds(now), GraceOverIds(now);
      for i := 0 to |gameIds|
        invariant Inv() && View() == old(View())
        invariant late == Kept(gameIds[..i], over) && gone == Kept(gameIds[..i], out)
      {
        var id := gameIds[i];
        assert gameIds[..i + 1] == gameIds[..i] + [id];
        KeptAppend(gameIds[..i], id, over);
        KeptAppend(gameIds[..i], id, out);
        if Overdue(games[id], now) {
          late := late + [id];
        }
        if GraceOver(games[id], now) {
          gone := gone + [id];
        }
      }
      assert gameIds[..|gameIds|] == gameIds;
    }

    method TimeOutAll(ids: seq<string>, now: int, ws: map<string, Writes>) returns (raised: bool)
      requires Inv() && forall id :: id in ids ==> id in games
      modifies `events, `finishedRows, Footprint()
      ensures Inv() && (View(), raised) == SweepFrom(Cfg(), old(View()), ids, TimeUp(now), ws)
    {
      hide Inv, Summary, View, Visited, Raises, SweepFrom, Footprint, Boards, EloRepr;
      InFootprint();
      OwnIds();
      for i := 0 to |ids|
        invariant Inv() && games == old(games)
        invariant SweepFrom(Cfg(), old(View()), ids, TimeUp(now), ws) ==
          SweepFrom(Cfg(), View(), ids[i..], TimeUp(now), ws)
      {
        OwnIds();
        SweepNext(Cfg(), View(), ids, i, TimeUp(now), ws);
        raised := TimeOut(ids[i], now, WritesFor(ws, ids[i]));
        if raised {
          return;
        }
      }
      assert ids[|ids|..] == [];
      SweepDone(Cfg(), View(), TimeUp(now), ws);
      return false;
    }

    method EndGraceAll(ids: seq<string>, now: int, ws: map<string, Writes>) returns (raised: bool)
      requires Inv() && forall id :: id in ids ==> id in games
      modifies `events, `finishedRows, Footprint()
      ensures Inv() && (View(), raised) == SweepFrom(Cfg(), old(View()), ids, GraceUp(now), ws)
    {
      hide Inv, Summary, View, Visited, Raises, SweepFrom, Footprint, Boards, EloRepr;
      InFootprint();
      OwnIds();
      for i := 0 to |ids|
        invariant Inv() && games == old(games)
        invariant SweepFrom(Cfg(), old(View()), ids, GraceUp(now), ws) ==
          SweepFrom(Cfg(), View(), ids[i..], GraceUp(now), ws)
      {
        OwnIds();
        SweepNext(Cfg(), View(), ids, i, GraceUp(now), ws);
        raised := EndGrace(ids[i], now, WritesFor(ws, ids[i]));
        if raised {
          return;
        }
      }
      assert ids[|ids|..] == [];
      SweepDone(Cfg(), View(), GraceUp(now), ws);
      return false;
    }

    /** One tick of the clock ends exactly the games that are past a deadline or
        a grace period; a store write that fails on the way ends the thread. */
    method ClockTick(now: int, ws: map<string, Writes>)
      requires Inv()
      modifies `clockRuns, `events, `finishedRows, Footprint()
      ensures Inv() && View() == Ticked(Cfg(), old(View()), now, ws)
    {
      hide Inv, Summary, View, Footprint, Boards, EloRepr, SweepFrom, Kept, NoDup, Concerned, OverdueIds, GraceOverIds;
      InFootprint();
      Seen();
      if !clockRuns {
        return;
      }
      OwnIds();
      ListsCover(now);
      ghost var s, over, out := View(), OverdueIds(now), GraceOverIds(now);
      KeptAmong(gameIds, over);
      KeptAmong(gameIds, out);
      SweepKept(Cfg(), s, gameIds, over, TimeUp(now), ws);
      var late, gone := Expired(now);
      var raised := TimeOutAll(late, now, ws);
      ghost var s1 := View();
      if !raised {
        StillCovered(Cfg(), s, s1, gameIds, out, now, ws);
        SweepKept(Cfg(), s1, gameIds, out, GraceUp(now), ws);
        OwnIds();
        raised := EndGraceAll(gone, now, ws);
      }
      StopClock(raised);
    }

    method StopClock(raised: bool)
      requires Inv()
      modifies `clockRuns
      ensures Inv() && View() == old(View()).(ticking := !raised)
    {
      hide Inv, Summary;
      InFootprint();
      clockRuns := !raised;
    }

    lemma KeptAmong(ids: seq<string>, keep: set<string>)
      ensures forall id :: id in Kept(ids, keep) ==> id in ids
    {
    }

    lemma ListsCover(now: int)
      requires Inv()
      ensures forall id :: id in Summary() && Concerned(Summary()[id], TimeUp(now)) ==> id in OverdueIds(now)
      ensures forall id :: id in Summary() && Concerned(Summary()[id], GraceUp(now)) ==> id in GraceOverIds(now)
    {
      hide Inv;
    }

    /** The first pass puts no game past its grace. */
    lemma StillCovered(cfg: Config, s: State, s1: State, ids: seq<string>, out: set<string>, now: int,
                       ws: map<string, Writes>)
      requires NoDup(ids) && s1 == SweepFrom(cfg, s, ids, TimeUp(now), ws).0
      requires forall id :: id in ids && id in s.games && Concerned(s.games[id], GraceUp(now)) ==> id in out
      ensures forall id :: id in ids && id in s1.games && Concerned(s1.games[id], GraceUp(now)) ==> id in out
    {
      hide SweepFrom, Reached, NoDup;
      SweepMeans(cfg, s, ids, TimeUp(now), ws);
    }

    /** A lost connection: every running game of the player is forfeited, at once
        or after the grace period, up to a failing store write. */
    method Disconnect(conn: string, now: int, ws: map<string, Writes>) returns (raised: bool)
      requires Inv()
      modifies `connPlayer, `playersById, `playersByName, `events, `finishedRows, Footprint()
      ensures Inv() && View() == Dropped(Cfg(), old(View()), conn, now, ws)
    {
      hide Inv, Summary, View, Footprint, Boards, EloRepr, SweepFrom;
      InFootprint();
      Seen();
      raised := false;
      if conn !in connPlayer {
        return;
      }
      var player := connPlayer[conn];
      SetLobby(connPlayer - {conn}, playersById - {player}, playersByName);
      OwnIds();
      raised := DropAll(gameIds, player, now, ws);
    }

    method SetLobby(conns: map<string, string>, live: map<string, string>, names: map<string, string>)
      requires Inv()
      modifies `connPlayer, `playersById, `playersByName
      ensures Inv() && View() == old(View()).(conns := conns, live := live, names := names)
    {
      hide Inv, Summary;
      InFootprint();
      connPlayer, playersById, playersByName := conns, live, names;
    }

    method DropAll(ids: seq<string>, player: string, now: int, ws: map<string, Writes>) returns (raised: bool)
      requires Inv() && forall id :: id in ids ==> id in games
      modifies `events, `finishedRows, Footprint()
      ensures Inv() && (View(), raised) == SweepFrom(Cfg(), old(View()), ids, Leave(player, now), ws)
    {
      hide Inv, Summary, View, Visited, Raises, SweepFrom, Footprint, Boards, EloRepr;
      InFootprint();
      OwnIds();
      for i := 0 to |ids|
        invariant Inv() && games == old(games)
        invariant SweepFrom(Cfg(), old(View()), ids, Leave(player, now), ws) ==
          SweepFrom(Cfg(), View(), ids[i..], Leave(player, now), ws)
      {
        OwnIds();
        SweepNext(Cfg(), View(), ids, i, Leave(player, now), ws);
        raised := DropPlayer(ids[i], player, now, WritesFor(ws, ids[i]));
        if raised {
          return;
        }
      }
      assert ids[|ids|..] == [];
      SweepDone(Cfg(), View(), Leave(player, now), ws);
      return false;
    }

    // ----- Registration and new games -------------------------------------

    /** Registers a connection under a name. A returning player keeps the old
        id; pending forfeits of that player's running games are lifted, and
        where the player is on the clock the turn is sent again with a fresh
        deadline. */
    method Register(conn: string, name: string, freshId: string, now: int) returns (r: Response)
      requires Inv()
      modifies `connPlayer, `playersById, `playersByName, `events, Footprint()
      ensures Inv() && View() == Entered(Cfg(), old(View()), conn, name, freshId, now)
      ensures r == if old(MayEnter(View(), conn, name)) then Ok(false) else Err(BadRequest)
    {
      hide Inv, Summary, View, Footprint, Boards, EloRepr, SweepFrom;
      InFootprint();
      Seen();
      if name == "" || conn in connPlayer || (name in playersByName && playersByName[name] in playersById) {
        return Err(BadRequest);
      }
      var returning := name in playersByName;
      var player := if returning then playersByName[name] else freshId;
      SetLobby(connPlayer[conn := player], playersById[player := conn], playersByName[name := player]);
      if returning {
        OwnIds();
        ResumeAll(gameIds, player, now);
      }
      return Ok(false);
    }

    method ResumeAll(ids: seq<string>, player: string, now: int)
      requires Inv() && forall id :: id in ids ==> id in games
      modifies `events, Footprint()
      ensures Inv() && View() == SweepFrom(Cfg(), old(View()), ids, Return(player, now), map[]).0
    {
      hide Inv, Summary, View, Visited, Raises, SweepFrom, Footprint, Boards, EloRepr;
      InFootprint();
      OwnIds();
      for i := 0 to |ids|
        invariant Inv() && games == old(games)
        invariant SweepFrom(Cfg(), old(View()), ids, Return(player, now), map[]) ==
          SweepFrom(Cfg(), View(), ids[i..], Return(player, now), map[])
      {
        OwnIds();
        SweepNext(Cfg(), View(), ids, i, Return(player, now), map[]);
        NobodyRaises(Cfg(), View().games[ids[i]], player, now);
        ResumeGame(ids[i], player, now);
      }
      assert ids[|ids|..] == [];
      SweepDone(Cfg(), View(), Return(player, now), map[]);
    }

    lemma NobodyRaises(cfg: Config, g: GameSummary, player: string, now: int)
      ensures forall w :: !Raises(cfg, g, Return(player, now), w)
    {
    }

    /** Opens a game between two registered players on an empty board. The
        players are told in the same step only if the store accepts the match;
        the game is there in any case. */
    method CreateMatch(id: string, nameA: string, nameB: string, size: nat, deadlineMs: int, graceMs: int,
                       startOk: bool)
      returns (r: Response)
      requires Inv() && id !in games && id !in foreign
      modifies `games, `gameIds, `events, `owner, EloRepr()
      ensures Inv() && fresh(Footprint() - old(Footprint()))
      ensures View() == Created(Cfg(), old(View()), id, nameA, nameB, size, deadlineMs, graceMs, startOk)
      ensures r == if nameA !in playersByName || nameB !in playersByName then Err(UnknownPlayer)
        else if size < 5 || (hasStore && !startOk) then Err(EngineError)
        else Ok(false)
    {
      hide Inv, Summary, NewGame, JournalWrite;
      InFootprint();
      OwnIds();
      if nameA !in playersByName || nameB !in playersByName {
        return Err(UnknownPlayer);
      }
      if size < 5 {
        return Err(EngineError);
      }
      OpenGame(id, nameA, nameB, playersByName[nameA], playersByName[nameB], size, deadlineMs, graceMs, startOk);
      if hasStore && !startOk {
        return Err(EngineError);
      }
      Tell(GameStarted(id));
      return Ok(false);
    }

    method OpenGame(id: string, nameA: string, nameB: string, playerA: string, playerB: string, size: nat,
                    deadlineMs: int, graceMs: int, startOk: bool)
      requires Inv() && id !in games && id !in foreign && size >= 5
      modifies `games, `gameIds, `owner, EloRepr()
      ensures Inv() && fresh(Footprint() - old(Footprint())) && id in games && gameIds == old(gameIds) + [id]
      ensures Log() == old(Log()) + JournalWrite(Cfg(), startOk)
      ensures Summary() == old(Summary())[id := NewGame(nameA, nameB, playerA, playerB, size, deadlineMs, graceMs)]
    {
      hide Inv, Summary, Initial, AllCoherent, Separate, Tidy, Coherent, OthersFine, EloEngine.Valid;
      hide RefereeBoard.View, NewGame, Game.Summary, RefereeBoard.Valid, Log;
      InFootprint();
      var g := MakeGame(id, nameA, nameB, playerA, playerB, size, deadlineMs, graceMs);
      NothingTouched();
      InstallGame(g);
      assert games[id] == g;
      InvParts(g);
      SettleRatings(startOk, g);
    }

    static method MakeGame(id: string, nameA: string, nameB: string, playerA: string, playerB: string, size: nat,
                           deadlineMs: int, graceMs: int)
      returns (g: Game)
      requires size >= 5
      ensures fresh(g) && fresh(g.board) && !g.finished && g.gameId == id
      ensures g.board.Valid() && g.board.moveHistory == [] && g.board.View() == Initial(g.board.size)
      ensures g.Summary() == NewGame(nameA, nameB, playerA, playerB, size, deadlineMs, graceMs)
    {
      hide Initial;
      var board := new RefereeBoard(size);
      g := new Game(id, board, playerA, playerB, nameA, nameB, deadlineMs, graceMs);
    }

    /** New objects change nothing about the server. */
    twostate lemma NothingTouched()
      requires old(Inv()) && unchanged(this) && (elo != null ==> unchanged(elo))
      requires forall id :: id in games ==> unchanged(games[id]) && unchanged(games[id].board)
      ensures Inv() && Summary() == old(Summary())
    {
      hide Coherent, EloEngine.Valid, Game.Summary, Separate, Tidy, Game.Settled;
      forall id | id in games
        ensures Coherent(games[id]) && games[id].Settled() && games[id].Summary() == old(games[id].Summary())
      {
        assert old(Coherent(games[id]) && games[id].Settled());
        StillCoherent(games[id]);
      }
      StillNoStrays();
    }

    method InstallGame(g: Game)
      requires Inv() && g.gameId !in games && g.gameId !in foreign
      requires g !in games.Values && g.board !in Boards() && !g.finished
      requires g.board.Valid() && g.board.moveHistory == [] && g.board.View() == Initial(g.board.size)
      modifies `games, `gameIds, `owner
      ensures Inv() && games == old(games)[g.gameId := g] && gameIds == old(gameIds) + [g.gameId]
      ensures Summary() == old(Summary())[g.gameId := g.Summary()]
    {
      hide Inv, AllCoherent, Separate, Tidy, Coherent, Summary, EloEngine.Valid, Initial, Game.Summary, Game.Settled;
      hide RefereeBoard.View, RefereeBoard.Valid;
      NewGameCoherent(g);
      games := games[g.gameId := g];
      gameIds := gameIds + [g.gameId];
      owner := owner[g.board := g.gameId];
      Installed(g);
    }

    twostate lemma Installed(g: Game)
      requires old(Inv()) && old(Coherent(g)) && old(g.Settled())
      requires g.gameId !in old(games) && g.board !in old(Boards())
      requires games == old(games)[g.gameId := g] && owner == old(owner)[g.board := g.gameId]
      requires gameIds == old(gameIds) + [g.gameId]
      requires unchanged(`journal) && unchanged(`events) && unchanged(g) && unchanged(g.board)
      requires forall id :: id in old(games) ==> unchanged(old(games)[id]) && unchanged(old(games[id].board))
      requires elo != null ==> unchanged(elo)
      ensures Inv() && Summary() == old(Summary())[g.gameId := g.Summary()]
    {
      hide Coherent, EloEngine.Valid, Game.Summary, Separate, Tidy, Game.Settled, Summary;
      StillCoherent(g);
      StillTidy(g);
      StillSeparate(g);
      OthersInstalled(g);
      SummaryInstalled(g);
    }

    twostate lemma OthersInstalled(g: Game)
      requires old(Inv()) && g.gameId !in old(games) && games == old(games)[g.gameId := g]
      requires unchanged(`journal) && unchanged(`events)
      requires forall id :: id in old(games) ==> unchanged(old(games)[id]) && unchanged(old(games[id].board))
      requires elo != null ==> unchanged(elo)
      ensures forall id :: id in games && id != g.gameId ==>
        Coherent(games[id]) && games[id].Settled() && games[id].Summary() == old(games[id].Summary())
    {
      hide Coherent, EloEngine.Valid, Game.Summary, Separate, Tidy;
      forall id | id in games && id != g.gameId
        ensures Coherent(games[id]) && games[id].Settled() && games[id].Summary() == old(games[id].Summary())
      {
        assert old(id in games && Coherent(games[id]) && games[id].Settled());
        StillCoherent(games[id]);
      }
    }

    twostate lemma SummaryInstalled(g: Game)
      requires g.gameId !in old(games) && games == old(games)[g.gameId := g]
      requires forall id :: id in games && id != g.gameId ==> games[id].Summary() == old(games[id].Summary())
      ensures Summary() == old(Summary())[g.gameId := g.Summary()]
    {
      hide Game.Summary;
    }

    twostate lemma StillTidy(g: Game)
      requires old(Tidy()) && games == old(games)[g.gameId := g]
      requires unchanged(`journal) && unchanged(`events) && (elo != null ==> unchanged(elo))
      ensures Tidy()
    {
      hide MovesSeen, Finishes, EloEngine.RatedAnywhere;
    }

    twostate lemma StillSeparate(g: Game)
      requires old(Separate()) && g.gameId !in old(games) && g.board !in old(Boards())
      requires games == old(games)[g.gameId := g] && owner == old(owner)[g.board := g.gameId]
      requires gameIds == old(gameIds) + [g.gameId]
      ensures Separate()
    {
      forall id | id in old(games) ensures old(games)[id].board != g.board {
        assert old(games[id].board in Boards());
      }
    }

    /** Coherence of a game does not depend on the other games. */
    twostate lemma StillCoherent(g: Game)
      requires old(Coherent(g)) && unchanged(`journal) && unchanged(`events) && unchanged(g) && unchanged(g.board)
      requires elo != null ==> unchanged(elo)
      ensures Coherent(g) && g.Summary() == old(g.Summary()) && g.Settled() == old(g.Settled())
    {
    }

    lemma NewGameCoherent(g: Game)
      requires Inv() && g.gameId !in games && g.gameId !in foreign && !g.finished
      requires g.board.Valid() && g.board.moveHistory == [] && g.board.View() == Initial(g.board.size)
      ensures Coherent(g) && g.Settled()
    {
      hide MovesSeen, Finishes, EloEngine.RatedAnywhere, EloEngine.Valid, NoDup;
    }

    /** The first turn of a game, sent as a step of its own. */
    method FirstTurn(id: string, now: int, w: Writes) returns (raised: bool)
      requires Inv()
      modifies `events, `finishedRows, Footprint()
      ensures Inv() && View() == KickedOff(Cfg(), old(View()), id, now, w)
      ensures raised <==> id in games && !old(games[id].finished) && games[id].finished && Fails(Cfg(), w)
    {
      hide Footprint, Boards, EloRepr;
      InFootprint();
      hide Inv, Summary, AllCoherent, OthersFine, Separate, TurnSent, Updated, Log;
      raised := false;
      OwnIds();
      if id in games {
        var g := games[id];
        SummaryEntry(g);
        raised := SendYourTurn(g, now, w);
      }
    }

    // ----- Every interleaving -----------------------------------------------

    /** Every step, whatever becomes of its writes, keeps the invariant and does
        to the state what it is to do; a creation under a used id does not happen. */
    method Perform(step: Step)
      requires Inv() && (step.Create? ==> step.id !in foreign)
      modifies this, Footprint()
      ensures Inv() && View() == After(Cfg(), step, old(View()))
      ensures fresh(Footprint() - old(Footprint()))
    {
      hide Inv, Summary, Submitted, Resigned, Entered, Dropped, Ticked, KickedOff, Log;
      hide Footprint, Boards, EloRepr, MovesSeen, Finishes;
      InFootprint();
      match step {
        case Submit(conn, id, a, now, storeOk, w) =>
          var r := SubmitMove(conn, id, a, now, storeOk, w);
        case Quit(conn, id, w) =>
          var r := Resign(conn, id, w);
        case Enter(conn, name, freshId, now) =>
          var r := Register(conn, name, freshId, now);
        case Drop(conn, now, ws) =>
          var raised := Disconnect(conn, now, ws);
        case Tick(now, ws) =>
          ClockTick(now, ws);
        case Create(id, nameA, nameB, size, deadlineMs, graceMs, startOk) =>
          OwnIds();
          if id !in games {
            var r := CreateMatch(id, nameA, nameB, size, deadlineMs, graceMs, startOk);
          }
        case KickOff(id, now, w) =>
          var raised := FirstTurn(id, now, w);
      }
    }

    /** Any sequence of steps in any order takes the server through the specified
        states. */
    method Serve(steps: seq<Step>)
      requires Inv() && forall i :: 0 <= i < |steps| && steps[i].Create? ==> steps[i].id !in foreign
      modifies this, Footprint()
      ensures Inv() && View() == RunAll(Cfg(), old(View()), steps)
    {
      hide Inv, Summary, After, RunAll, Log;
      ghost var start := View();
      assert RunAll(Cfg(), start, steps[..0]) == start by { NothingRun(Cfg(), start, steps); }
      for i := 0 to |steps|
        invariant Inv() && fresh(Footprint() - old(Footprint()))
        invariant View() == RunAll(Cfg(), start, steps[..i])
      {
        Perform(steps[i]);
        RunNext(Cfg(), start, steps, i);
      }
      assert steps[..|steps|] == steps;
    }

    lemma NothingRun(cfg: Config, s: State, steps: seq<Step>)
      ensures RunAll(cfg, s, steps[..0]) == s
    {
      hide After;
    }

    constructor (hasStore: bool, elo: EloEngine?)
      requires elo != null ==> elo.Valid()
      ensures Inv() && games == map[] && this.hasStore == hasStore && this.elo == elo
      ensures forall id :: id in foreign ==> elo != null && elo.RatedAnywhere(id)
      ensures View() == State(map[], [], map[], map[], map[], true, map[], [], if elo == null then [] else elo.log)
    {
      this.hasStore, this.elo := hasStore, elo;
      games, gameIds, connPlayer, playersById, playersByName := map[], [], map[], map[], map[];
      journal, finishedRows, events, owner, clockRuns := map[], map[], [], map[], true;
      foreign := if elo == null then {} else RatedIds(elo.matchRatings) + RatedIds(elo.saved.rows);
    }
  }

  ghost function RatedIds(rows: seq<Row>): set<string> {
    set k | 0 <= k < |rows| :: rows[k].gameId
  }

  /** In a coherent server each game's announced moves are its history, the
      journal lists exactly that history and replays to the board (up to the
      result of a game that was forfeited), and the game was announced finished
      and rated at most once and only if its board has a result. The rating
      table is the fold of its rows exactly unless the logged writes spoiled it. */
  lemma {:induction false} ServerAgrees(server: MatchServer, id: string)
    requires server.Inv() && id in server.games
    ensures var g := server.games[id];
      && (g.finished <==> g.board.result != Undetermined)
      && MovesSeen(server.events, id) == g.board.moveHistory
      && (server.hasStore ==> JournalMatches(server.journal, id, g.board.moveHistory))
      && Finishes(server.events, id) <= (if g.finished then 1 else 0)
      && var r := ReplayPy(g.board.size, Initial(g.board.size), g.board.moveHistory);
      && r.Accepted?
      && r.board.(result := g.board.result) == g.board.View()
      && (r.board.result != Undetermined ==> r.board == g.board.View())
      && (!g.finished ==> r.board == g.board.View())
    ensures server.elo != null ==>
      && (server.elo.RatedAnywhere(id) ==> server.games[id].finished)
      && var e := server.elo;
      && var (s, f) := RunDb(e.expected, e.initialRating, server.View().db);
      && OneRowPerGame(e.matchRatings) && OneRowPerGame(e.saved.rows)
      && (Folds(e.initialRating, e.saved) <==> !f.spoiled)
      && (Folds(e.initialRating, e.Db().view) <==> !f.spoiled && !f.dirty)
  {
    hide MovesSeen, Finishes, JournalMatches, ReplayPy, Folds, EloEngine.RatedAnywhere, Genuine, RunDb;
    assert server.Coherent(server.games[id]);
    if server.elo != null {
      FoldExactlyWithoutHalfWrites(server.elo.expected, server.elo.initialRating, server.elo.log);
    }
  }
}
