/** Search and solver together: a solved root action wins the game by force, and
    a client whose root is solved plays it. */
module SolvedRoot {
  import opened Grid
  import opened Swap2
  import opened Zobrist
  import opened VcfGame
  import opened Opinions
  import opened Mcts
  import opened MatchClient
  import opened SelfPlay

  /** The solver meets the contract of SolveBoard on every board. */
  ghost predicate Solves(o: Oracle) {
    forall b: SizedBoard :: Inv(N, b) && o.solver(b) != [] ==> SolvedLine(b, o.solver(b))
  }

  ghost predicate SolvedLine(b: SizedBoard, line: seq<int>)
    requires Inv(N, b)
  {
    && line != [] && LegalRun(N, b, line) && LegalAction(N, b, line[0])
    && WinsAfter(N, b, b.seat, line[0]) && CanForceWin(N, b, b.seat)
  }

  /** What SolveBoard returns is such a line. */
  method SolverAnswers(b: SizedBoard, keys: KeyTable, maxNodes: int) returns (line: seq<nat>)
    requires Inv(N, b) && |keys| == CELLS
    ensures line != [] ==> SolvedLine(b, Plies(line))
  {
    hide WinsAfter, CanForceWin, LegalAction, Inv;
    line := SolveBoard(b, keys, maxNodes);
    if line != [] {
      assert LegalAction(N, b, Plies(line)[0]);
    }
  }

  /** With such a solver the root counts as solved exactly when there is a line,
      and the solved action wins by force against every reply. */
  lemma {:induction false} SolvedActionWins(o: Oracle, b: SizedBoard)
    requires Solves(o) && Inv(N, b)
    ensures SolvedAction(o, b) >= 0 <==> o.solver(b) != []
    ensures SolvedAction(o, b) >= 0 ==>
      LegalAction(N, b, SolvedAction(o, b)) && WinsAfter(N, b, b.seat, SolvedAction(o, b)) && CanForceWin(N, b, b.seat)
  {
    hide WinsAfter, CanForceWin, LegalRun, Inv;
    if o.solver(b) != [] {
      assert SolvedLine(b, o.solver(b));
      InBounds(b, o.solver(b)[0]);
    }
  }

  /** A full value that the search takes from the solver is a won game for the
      seat to move. */
  lemma {:induction false} SolvedOpinionIsWin(o: Oracle, b: SizedBoard)
    requires Solves(o) && Inv(N, b) && Opinion(o, b) != o.evaluator(b)
    ensures Opinion(o, b).value == 1.0 && CanForceWin(N, b, b.seat)
  {
    hide WinsAfter, CanForceWin, Inv, LegalAction;
    SolvedActionWins(o, b);
  }

  /** The best action of a solved answer is the solver's, and it wins. */
  lemma {:induction false} SolvedAnswerWins(o: Oracle, b: SizedBoard, answer: Answer, action: int)
    requires Solves(o) && Inv(N, b) && Answers(o, b, answer) && o.solver(b) != []
    requires Best(b, answer.policy, action) || (0 <= action < NUM_ACTIONS && answer.policy[action] > 0.0)
    ensures action == o.solver(b)[0] && LegalAction(N, b, action) && WinsAfter(N, b, b.seat, action)
  {
    hide WinsAfter, CanForceWin, Inv, LegalAction, PolicyFor;
    SolvedActionWins(o, b);
    var s := SolvedAction(o, b);
    InBounds(b, s);
    assert answer.policy[s] == 1.0;
  }

  /** In a self-play game every ply at a position with a solver line wins by
      force, whether the action is the best one or drawn; only a draw of the
      point zero can miss it. */
  lemma {:induction false} SolvedPlyWins(setting: Setting, actions: seq<int>, history: seq<PositionRecord>,
                                         answers: seq<Answer>, i: nat)
    requires LegalRun(N, Initial(N), actions) && Recorded(setting, actions, history, answers) && i < |actions|
    requires var b := history[i].board; var o := setting.oracles(setting.selector(b));
      Solves(o) && |b.cells| == N * N && o.solver(b) != []
    requires setting.sampling(i) ==> setting.draws(i, history[i].board).fraction > 0.0
    ensures var b := history[i].board;
      Inv(N, b) && LegalAction(N, b, actions[i]) && WinsAfter(N, b, b.seat, actions[i])
  {
    hide WinsAfter, CanForceWin, Inv, LegalAction, PolicyFor, ApplyAll, LegalRun, Initial, Solves, Drawn, Best, Answers;
    assert RecordOk(setting, actions, history[i], answers[i], i);
    var b, draw := history[i].board, setting.draws(i, history[i].board);
    RunPrefix(actions, i);
    var o := setting.oracles(setting.selector(b));
    if setting.sampling(i) {
      var legal: seq<nat> :|
        ListsLegal(b, legal) && Drawn(answers[i].policy, legal, draw.uniform, draw.fraction, actions[i]);
      SolvedWeight(o, b, answers[i], legal);
      DrawnHasWeight(answers[i].policy, legal, draw.uniform, draw.fraction, actions[i]);
      PolicyHasAllIds(b, answers[i], o);
    }
    SolvedAnswerWins(o, b, answers[i], actions[i]);
  }

  lemma PolicyHasAllIds(b: SizedBoard, answer: Answer, o: Oracle)
    requires Answers(o, b, answer)
    ensures |answer.policy| == NUM_ACTIONS
  {
  }

  lemma SolvedWeight(o: Oracle, b: SizedBoard, answer: Answer, legal: seq<nat>)
    requires Solves(o) && Inv(N, b) && Answers(o, b, answer) && o.solver(b) != [] && ListsLegal(b, legal)
    ensures exists k :: 0 <= k < |legal| && legal[k] < |answer.policy| && answer.policy[legal[k]] > 0.0
  {
    hide WinsAfter, CanForceWin, Inv, LegalAction, PolicyFor;
    SolvedActionWins(o, b);
    var s := SolvedAction(o, b);
    InBounds(b, s);
    assert s in legal && answer.policy[s] == 1.0;
  }
}
