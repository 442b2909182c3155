/** Server and client together: what the referee sends is understood by the
    client, and what the client answers is accepted by the referee. */
module MatchLoop {
  import opened Grid
  import opened Swap2
  import opened RefereeRules
  import opened EnginesAgree
  import opened MatchClient
  import opened RefereeSteps
  import opened MatchReferee
  import opened Elo

  /** The move list of every game of the engine's side in a coherent server
      rebuilds on the client: each action was legal, and up to the result and
      the turn of a forfeited game the board is the server's. */
  lemma {:induction false} HistoryRebuilds(server: MatchServer, id: string)
    requires server.Inv() && id in server.games && server.games[id].board.size == N
    ensures var g := server.games[id];
      && Reconstruct(N, Initial(N), g.board.moveHistory).Accepted?
      && LegalRun(N, Initial(N), g.board.moveHistory)
      && var b := ApplyAll(N, Initial(N), g.board.moveHistory);
      && b.cells == g.board.cells && b.phase == g.board.phase && b.placed == g.board.moveCount
      && b.stoneA == g.board.stoneA && b.stoneB == g.board.stoneB
      && (b.result != Undetermined ==> b.result == g.board.result)
      && (!g.finished ==> Agrees(b, g.board.View()) && b.result == Undetermined)
  {
    hide Reconstruct, ReplayPy, LegalRun, ApplyAll, Initial, MovesSeen, Finishes, JournalMatches;
    hide RunDb, RatedIds;
    hide Swap2.Inv;
    var h := server.games[id].board.moveHistory;
    ServerAgrees(server, id);
    EnginesSimulateEachOther(N, h);
    AcceptedIsLegalRun(Initial(N), h);
  }

  /** The turn that the referee sends names the seat that the client computes, on
      a board with a legal action: a client of that seat neither rejects the
      history nor the seat, and it has a move. */
  lemma {:induction false} TurnIsUnderstood(server: MatchServer, id: string)
    requires server.Inv() && id in server.games && server.games[id].board.size == N && !server.games[id].finished
    ensures var g := server.games[id];
      && LegalRun(N, Initial(N), g.board.moveHistory)
      && var b := ApplyAll(N, Initial(N), g.board.moveHistory);
      && b.seat == g.board.currentPlayer && b.result == Undetermined
      && |b.cells| == N * N && exists a :: LegalAction(N, b, a)
  {
    hide Reconstruct, LegalRun, ApplyAll, Initial, MovesSeen, Finishes, JournalMatches;
    hide LegalAction;
    hide MatchServer.Inv, Swap2.Inv;
    HistoryRebuilds(server, id);
    var b := ApplyAll(N, Initial(N), server.games[id].board.moveHistory);
    InvShaped(N, b);
    LiveBoardHasMove(N, b);
  }

  /** Any action that is legal on the client's board is accepted when it comes
      from the player on the clock. */
  lemma {:induction false} AnswerIsAccepted(server: MatchServer, id: string, conn: string, a: int)
    requires server.Inv() && id in server.games && server.games[id].board.size == N && !server.games[id].finished
    requires conn in server.connPlayer && server.connPlayer[conn] == server.games[id].OnClock()
    requires LegalRun(N, Initial(N), server.games[id].board.moveHistory)
    requires var b := ApplyAll(N, Initial(N), server.games[id].board.moveHistory);
      |b.cells| == N * N && LegalAction(N, b, a)
    ensures MoveRefusal(server.View(), conn, id, a) == None
  {
    hide Reconstruct, LegalRun, ApplyAll, Initial, MovesSeen, Finishes, JournalMatches;
    hide Swap2.Inv, ReplayPy;
    HistoryRebuilds(server, id);
    assert server.Coherent(server.games[id]);
  }
}
