/** Self-play games between evaluators that each keep their own search tree. */
module SelfPlay {
  import opened Grid
  import opened Swap2
  import opened Opinions
  import opened Mcts
  import opened MatchClient
  import opened Policies

  const MAXIMUM_ACTIONS: nat := 230

  /** Everything left to chance or to the defensive analysis at one ply: the
      numbers behind a sampled action, and the priors that mask and noise leave
      at the root. */
  datatype Chance = Chance(uniform: nat, fraction: real, setup: RootSetup)

  ghost predicate ValidChance(draw: Chance, board: Board)
    requires |board.cells| == N * N
  {
    && 0.0 <= draw.fraction < 1.0 && SetupOk(draw.setup)
    && (draw.setup.mask ==> draw.setup.beforeSearch.Replaced? && OffersMove(board, draw.setup.beforeSearch.pmf))
  }

  /** The settings shared by all searches of a game. */
  datatype SearchConfig = SearchConfig(simulations: nat, batchSize: nat, cPuct: real, sqrt: int -> real)

  predicate ValidConfig(config: SearchConfig) {
    config.simulations >= 1 && config.batchSize >= 1 && config.cPuct >= 0.0
  }

  /** Everything a game depends on: the evaluator to move at a position, what each
      evaluator is told, the settings, which plies are sampled, and what chance
      brings at each of them. */
  datatype Setting = Setting(
    selector: Board -> nat, oracles: nat -> Oracle, config: SearchConfig,
    sampling: nat -> bool, draws: (nat, Board) -> Chance)

  ghost predicate ValidSetting(setting: Setting) {
    && ValidConfig(setting.config) && (forall k: nat :: SoundOracle(setting.oracles(k)))
    && forall i: nat, b: Board :: |b.cells| == N * N && Inv(N, b) && b.result == Undetermined ==>
         ValidChance(setting.draws(i, b), b)
  }

  /** A position of a game and the policy that the search found for it. */
  datatype PositionRecord = PositionRecord(board: Board, policy: seq<real>)

  datatype TrainingExample = TrainingExample(board: Board, policy: seq<real>, value: real)

  function Weight(policy: seq<real>, a: nat): real
    requires a < |policy|
  {
    if policy[a] > 0.0 then policy[a] else 0.0
  }

  function Total(policy: seq<real>, legal: seq<nat>): (t: real)
    requires forall k :: 0 <= k < |legal| ==> legal[k] < |policy|
    ensures t >= 0.0
  {
    if legal == [] then 0.0 else Total(policy, legal[..|legal| - 1]) + Weight(policy, legal[|legal| - 1])
  }

  /** The action that a draw picks among the legal ones: by index if none has
      weight, otherwise the one in whose stretch of the cumulative weights the
      point falls. */
  ghost predicate Drawn(policy: seq<real>, legal: seq<nat>, uniform: nat, fraction: real, action: int) {
    && legal != [] && (forall k :: 0 <= k < |legal| ==> legal[k] < |policy|)
    && var total := Total(policy, legal);
       if total <= 0.0 then action == legal[Wrap(uniform, |legal|)]
       else PickedAt(policy, legal, Scaled(fraction, total), action)
  }

  ghost predicate PickedAt(policy: seq<real>, legal: seq<nat>, sample: real, action: int)
    requires forall k :: 0 <= k < |legal| ==> legal[k] < |policy|
  {
    exists i :: 0 <= i < |legal| && legal[i] == action && StretchHolds(policy, legal, i, sample)
  }

  ghost predicate StretchHolds(policy: seq<real>, legal: seq<nat>, i: nat, sample: real)
    requires i < |legal| && forall k :: 0 <= k < |legal| ==> legal[k] < |policy|
  {
    (i == 0 || Total(policy, legal[..i]) < sample) && sample <= Total(policy, legal[..i + 1])
  }

  /** Draws a legal action. The draw is given: a uniform index for policies
      without weight, a point of [0, total) otherwise. An action without weight
      can come out of a policy with weight in one case only: the point is zero
      itself and the first legal action has no weight. */
  method SampleAction(board: SizedBoard, policy: seq<real>, uniform: nat, fraction: real)
    returns (action: int, ghost legal: seq<nat>)
    requires |policy| == NUM_ACTIONS && 0.0 <= fraction < 1.0
    ensures ListsLegal(board, legal) && (action == -1 <==> !exists a :: LegalAction(N, board, a))
    ensures action != -1 ==>
      0 <= action < NUM_ACTIONS && LegalAction(N, board, action) && Drawn(policy, legal, uniform, fraction, action)
    ensures (exists a :: 0 <= a < NUM_ACTIONS && LegalAction(N, board, a) && policy[a] > 0.0) ==>
      if fraction > 0.0 then policy[action] > 0.0 else legal != [] && action == legal[0]
  {
    hide LegalAction, Total, Scaled, StretchHolds;
    var actions := ListLegalActions(N, board);
    legal := actions;
    assert actions != [] ==> actions[0] in actions;
    assert forall a :: LegalAction(N, board, a) ==> a in actions;
    if actions == [] {
      return -1, legal;
    }
    forall k | 0 <= k < |actions| ensures actions[k] < NUM_ACTIONS {
      assert actions[k] in actions;
      InBounds(board, actions[k]);
    }
    var total := TotalWeight(policy, actions);
    if total <= 0.0 {
      action := actions[Wrap(uniform, |actions|)];
      assert action in actions;
    } else {
      ShareOf(fraction, total);
      action := PickByWeight(policy, actions, Scaled(fraction, total));
      assert action in actions;
    }
  }

  /** On the way through the legal actions every action adds its entry to the
      total, and nothing if the entry is not positive: the stretch of a positive
      entry is as long as the entry. */
  lemma {:induction false} StretchLength(policy: seq<real>, legal: seq<nat>, i: nat)
    requires i < |legal| && forall k :: 0 <= k < |legal| ==> legal[k] < |policy|
    ensures Total(policy, legal[..0]) == 0.0
    ensures policy[legal[i]] > 0.0 ==>
      Total(policy, legal[..i + 1]) - Total(policy, legal[..i]) == policy[legal[i]]
    ensures policy[legal[i]] <= 0.0 ==> Total(policy, legal[..i + 1]) == Total(policy, legal[..i])
  {
    assert legal[..i + 1][..i] == legal[..i];
  }

  /** A point above zero falls on an action with weight. */
  lemma {:induction false} DrawnHasWeight(policy: seq<real>, legal: seq<nat>, uniform: nat, fraction: real, action: int)
    requires Drawn(policy, legal, uniform, fraction, action) && fraction > 0.0
    requires exists k :: 0 <= k < |legal| && legal[k] < |policy| && policy[legal[k]] > 0.0
    ensures 0 <= action < |policy| && policy[action] > 0.0
  {
    var k :| 0 <= k < |legal| && legal[k] < |policy| && policy[legal[k]] > 0.0;
    var total := Total(policy, legal);
    TotalAtLeast(policy, legal, k);
    ScaledSign(fraction, total);
    hide Scaled;
    var sample := Scaled(fraction, total);
    var i :| 0 <= i < |legal| && legal[i] == action && StretchHolds(policy, legal, i, sample);
    assert legal[..i + 1][..i] == legal[..i];
  }

  lemma {:induction false} TotalAtLeast(policy: seq<real>, legal: seq<nat>, k: nat)
    requires k < |legal| && forall j :: 0 <= j < |legal| ==> legal[j] < |policy|
    ensures Total(policy, legal) >= Weight(policy, legal[k])
    decreases |legal|
  {
    if k < |legal| - 1 {
      TotalAtLeast(policy, legal[..|legal| - 1], k);
    }
  }

  method TotalWeight(policy: seq<real>, legal: seq<nat>) returns (total: real)
    requires forall k :: 0 <= k < |legal| ==> legal[k] < |policy|
    ensures total == Total(policy, legal) >= 0.0
    ensures forall k :: 0 <= k < |legal| && policy[legal[k]] > 0.0 ==> total > 0.0
  {
    total := 0.0;
    for i := 0 to |legal|
      invariant total == Total(policy, legal[..i]) >= 0.0
      invariant forall k :: 0 <= k < i && policy[legal[k]] > 0.0 ==> total > 0.0
    {
      assert legal[..i + 1][..i] == legal[..i];
      total := total + Weight(policy, legal[i]);
    }
    assert legal[..|legal|] == legal;
  }

  function Wrap(i: nat, n: nat): (r: nat)
    requires n > 0
    ensures r < n && (i < n ==> r == i)
  {
    i % n
  }

  function Scaled(fraction: real, total: real): real {
    fraction * total
  }

  lemma ShareOf(fraction: real, total: real)
    requires 0.0 <= fraction < 1.0 && total > 0.0
    ensures 0.0 <= Scaled(fraction, total) < total
    ensures fraction > 0.0 <==> Scaled(fraction, total) > 0.0
  {
    hide Scaled;
    ScaledSign(fraction, total);
    ScaledSign(1.0 - fraction, total);
    ScaledSum(fraction, 1.0 - fraction, total);
  }

  lemma ScaledSum(x: real, y: real, z: real)
    ensures Scaled(x + y, z) == Scaled(x, z) + Scaled(y, z)
    ensures Scaled(1.0, z) == z
  {
  }

  lemma ScaledSign(x: real, y: real)
    requires x >= 0.0 && y > 0.0
    ensures Scaled(x, y) >= 0.0 && (x > 0.0 <==> Scaled(x, y) > 0.0)
  {
  }

  /** The action in whose stretch of the cumulative weights the sample falls. */
  method PickByWeight(policy: seq<real>, legal: seq<nat>, sample: real) returns (action: nat)
    requires forall k :: 0 <= k < |legal| ==> legal[k] < |policy|
    requires 0.0 <= sample < Total(policy, legal)
    ensures PickedAt(policy, legal, sample, action)
    ensures action in legal && if sample > 0.0 then policy[action] > 0.0 else action == legal[0]
  {
    var cumulative := 0.0;
    assert legal[..|legal|] == legal;
    for i := 0 to |legal|
      invariant cumulative == Total(policy, legal[..i]) && (i == 0 || cumulative < sample)
    {
      assert legal[..i + 1][..i] == legal[..i];
      cumulative := cumulative + Weight(policy, legal[i]);
      if sample <= cumulative {
        assert StretchHolds(policy, legal, i, sample);
        return legal[i];
      }
    }
    assert false;
  }

  /** All trees that exist belong to this position, and no two share nodes. */
  ghost predicate TreesAt(searches: map<nat, MCTS>, board: Board)
    reads searches.Values, set m, nd | m in searches.Values && nd in m.nodes :: nd
  {
    && (forall k :: k in searches ==> TreeAt(searches[k], board))
    && (forall j, k :: j in searches && k in searches && j != k ==>
          searches[j] != searches[k] && searches[j].nodes !! searches[k].nodes)
  }

  ghost predicate TreeAt(m: MCTS, board: Board)
    reads m, m.nodes
  {
    m.Valid() && SoundOracle(m.oracle) && m.batchSize >= 1 && (m.root != null ==> m.root.board == board)
  }

  /** The node that becomes the root when an action is played: the child for the
      action, none without a child. */
  ghost function NextRoot(root: MCTSNode?, a: int): MCTSNode?
    reads (if root == null then {} else {root})`children
  {
    if root == null then null else ChildFor(root.children, a)
  }

  /** No two trees share a node, and each holds its root. */
  ghost predicate TreesApart(searches: map<nat, MCTS>)
    reads searches.Values
  {
    && (forall k :: k in searches && searches[k].root != null ==> searches[k].root in searches[k].nodes)
    && (forall j, k :: j in searches && k in searches && j != k ==>
          searches[j] != searches[k] && searches[j].nodes !! searches[k].nodes)
  }

  lemma TreesAreApart(searches: map<nat, MCTS>, board: Board)
    requires TreesAt(searches, board)
    ensures TreesApart(searches)
  {
    hide Inv, SoundOracle, MCTS.CacheOk, MCTS.StatsOk, MCTS.LocalOk;
    forall k | k in searches && searches[k].root != null ensures searches[k].root in searches[k].nodes {
      assert TreeAt(searches[k], board);
    }
  }

  /** One tree follows the action just played. */
  method AdvanceOne(m: MCTS, a: int, ghost board: Board)
    requires Inv(N, board) && Shaped(N, board) && LegalAction(N, board, a) && TreeAt(m, board)
    modifies m, m.nodes`children
    ensures TreeAt(m, ApplyCpp(N, board, a)) && m.nodes <= old(m.nodes)
    ensures m.root == old(NextRoot(m.root, a)) && (m.root != null ==> m.root in m.nodes)
  {
    hide Inv, LegalAction, ApplyCpp, MCTS.Valid, SoundOracle;
    m.SelectAction(a, board);
    if m.root != null {
      m.RootIn();
    }
  }

  /** Some trees still wait at a board; the others have gone on to their next root. */
  ghost predicate Advancing(searches: map<nat, MCTS>, todo: set<nat>, board: Board, a: int,
                            next: map<nat, MCTSNode?>)
    requires Shaped(N, board) && LegalAction(N, board, a) && next.Keys == searches.Keys
    reads searches.Values, set m, nd | m in searches.Values && nd in m.nodes :: nd
  {
    && TreesApart(searches)
    && forall k :: k in searches ==>
         if k in todo then TreeAt(searches[k], board) && NextRoot(searches[k].root, a) == next[k]
         else TreeAt(searches[k], ApplyCpp(N, board, a)) && searches[k].root == next[k]
  }

  method AdvanceNext(searches: map<nat, MCTS>, k: nat, ghost todo: set<nat>, a: int, ghost board: Board,
                     ghost next: map<nat, MCTSNode?>)
    requires Inv(N, board) && Shaped(N, board) && LegalAction(N, board, a) && next.Keys == searches.Keys
    requires k in searches && k in todo && Advancing(searches, todo, board, a, next)
    modifies searches[k], searches[k].nodes`children
    ensures Advancing(searches, todo - {k}, board, a, next)
    ensures searches[k].nodes <= old(searches[k].nodes)
    ensures forall j, nd :: j in searches && nd in searches[j].nodes ==> nd.visits == old(nd.visits)
  {
    hide Inv, LegalAction, ApplyCpp, TreeAt, NextRoot;
    AdvanceOne(searches[k], a, board);
  }

  /** Every tree follows the action just played. */
  method AdvanceAll(searches: map<nat, MCTS>, a: int, ghost board: Board)
    requires Inv(N, board) && Shaped(N, board) && LegalAction(N, board, a) && TreesAt(searches, board)
    modifies searches.Values, (set m, nd | m in searches.Values && nd in m.nodes :: nd)`children
    ensures TreesAt(searches, ApplyCpp(N, board, a))
    ensures forall k :: k in searches ==> searches[k].nodes <= old(searches[k].nodes)
    ensures forall k :: k in searches ==> searches[k].root == old(NextRoot(searches[k].root, a))
    ensures forall k, nd :: k in searches && nd in searches[k].nodes ==> nd.visits == old(nd.visits)
  {
    hide Inv, LegalAction, ApplyCpp, TreeAt, NextRoot, Advancing;
    ghost var next := map k | k in searches :: NextRoot(searches[k].root, a);
    AllWait(searches, board, a, next);
    var todo := searches.Keys;
    while todo != {}
      invariant todo <= searches.Keys && Advancing(searches, todo, board, a, next)
      invariant forall k :: k in searches ==> searches[k].nodes <= old(searches[k].nodes)
      invariant forall k, nd :: k in searches && nd in searches[k].nodes ==> nd.visits == old(nd.visits)
      decreases todo
    {
      var k :| k in todo;
      AdvanceNext(searches, k, todo, a, board, next);
      todo := todo - {k};
    }
    AllAdvanced(searches, board, a, next);
  }

  lemma AllWait(searches: map<nat, MCTS>, board: Board, a: int, next: map<nat, MCTSNode?>)
    requires TreesAt(searches, board) && Shaped(N, board) && LegalAction(N, board, a)
    requires next == map k | k in searches :: NextRoot(searches[k].root, a)
    ensures Advancing(searches, searches.Keys, board, a, next)
  {
    hide LegalAction, ApplyCpp, TreeAt, NextRoot;
    TreesAreApart(searches, board);
  }

  lemma AllAdvanced(searches: map<nat, MCTS>, board: Board, a: int, next: map<nat, MCTSNode?>)
    requires Shaped(N, board) && LegalAction(N, board, a) && next.Keys == searches.Keys
    requires Advancing(searches, {}, board, a, next)
    ensures TreesAt(searches, ApplyCpp(N, board, a))
    ensures forall k :: k in searches ==> searches[k].root == next[k]
  {
    hide LegalAction, ApplyCpp, TreeAt, NextRoot;
  }

  lemma EmptyRun()
    ensures LegalRun(N, Initial(N), []) && ApplyAll(N, Initial(N), []) == Initial(N)
  {
  }

  lemma RunLength(actions: seq<int>)
    requires LegalRun(N, Initial(N), actions)
    ensures |actions| <= CELLS + 2
  {
    hide HasFive, FiveThrough;
    RunsEnd(N, Initial(N), actions);
  }

  /** How an action follows from a policy: by a draw or as the best one. */
  ghost predicate Chosen(b: SizedBoard, policy: seq<real>, sample: bool, draw: Chance, action: int) {
    if sample then
      exists legal: seq<nat> :: ListsLegal(b, legal) && Drawn(policy, legal, draw.uniform, draw.fraction, action)
    else Best(b, policy, action)
  }

  /** A live board always gets a legal action, sampled or greedy. */
  method ChooseAction(board: SizedBoard, policy: seq<real>, sample: bool, draw: Chance) returns (action: int)
    requires Inv(N, board) && board.result == Undetermined && PolicyFor(board, policy)
    requires 0.0 <= draw.fraction < 1.0
    ensures LegalAction(N, board, action) && Chosen(board, policy, sample, draw, action)
  {
    hide HasFive, Drawn, Best;
    LiveBoardHasMove(N, board);
    if sample {
      ghost var legal;
      action, legal := SampleAction(board, policy, draw.uniform, draw.fraction);
    } else {
      action := BestLegalAction(board, policy);
      var a :| LegalAction(N, board, a);
      InBounds(board, a);
      assert policy[a] >= 0.0;
    }
  }

  /** A tree for an evaluator that moves for the first time. */
  method AddSearch(searches: map<nat, MCTS>, evaluator: nat, config: SearchConfig, oracle: Oracle, ghost board: Board)
    returns (more: map<nat, MCTS>)
    requires TreesAt(searches, board) && evaluator !in searches && ValidConfig(config) && SoundOracle(oracle)
    ensures TreesAt(more, board) && more.Keys == searches.Keys + {evaluator}
    ensures forall k :: k in searches ==> more[k] == searches[k]
    ensures fresh(more[evaluator]) && more[evaluator].nodes == {} && more[evaluator].oracle == oracle
  {
    hide SoundOracle;
    var m := new MCTS(config.batchSize, config.cPuct, 3, oracle, config.sqrt);
    more := searches[evaluator := m];
  }

  /** Unless a solver settles the board, a search adds as many visits to those
      known before as it ran simulations. */
  ghost predicate Counted(o: Oracle, board: SizedBoard, answer: Answer, simulations: nat, known: real) {
    SolvedAction(o, board) < 0 && board.result == Undetermined ==>
      known >= 0.0 && Sum(answer.weights) == known + simulations as real
  }

  /** And its answer shares out the visits of the root's children. */
  ghost predicate Behind(m: MCTS, board: SizedBoard, answer: Answer)
    reads m, (if m.root == null then {} else {m.root} + set c | c in m.root.children)
  {
    SolvedAction(m.oracle, board) < 0 && board.result == Undetermined ==>
      && m.root != null && m.root.isExpanded
      && answer.ids == m.root.ChildIds() && answer.weights == m.root.ChildVisits()
  }

  /** A search on one tree. */
  method SearchAlone(m: MCTS, board: SizedBoard, simulations: nat, draw: Chance)
    returns (policy: seq<real>, ghost answer: Answer)
    requires TreeAt(m, board) && Inv(N, board) && simulations >= 1 && ValidChance(draw, board)
    modifies m, m.nodes
    ensures TreeAt(m, board) && answer.policy == policy && Answers(m.oracle, board, answer)
    ensures PolicyFor(board, policy) && (board.result == Undetermined ==> Sum(policy) == 1.0)
    ensures fresh(m.nodes - old(m.nodes)) && old(m.nodes) <= m.nodes
    ensures Counted(m.oracle, board, answer, simulations, old(MCTS.VisitsBelow(m.root))) && Behind(m, board, answer)
  {
    hide Inv, MCTS.Valid, SoundOracle, PolicyFor, OffersMove, MCTS.Walked, MCTS.BackedSince, MCTS.Searched, Sum;
    hide SolvedAction, SolvedEvaluation, Answers, OpenEnds, MCTS.KeepsEntries, MCTS.VisitsBelow;
    ghost var paths, values;
    ghost var start, stop := m.AllBacked(), Simulations(simulations);
    if m.root != null {
      m.RootIn();
    }
    m.KnownBelow(m.root);
    policy, paths, values := m.Search(board, Simulations(simulations), draw.setup);
    m.SearchAnswers(board, stop, draw.setup.mask, policy, paths, start);
    answer := m.AnswerOf(policy, stop);
  }

  /** The evaluator to move searches on its own tree; the others are untouched. */
  method SearchOne(searches: map<nat, MCTS>, evaluator: nat, board: SizedBoard, simulations: nat, draw: Chance)
    returns (policy: seq<real>, ghost answer: Answer)
    requires TreesAt(searches, board) && evaluator in searches && Inv(N, board) && simulations >= 1
    requires ValidChance(draw, board)
    modifies searches[evaluator], searches[evaluator].nodes
    ensures TreesAt(searches, board) && answer.policy == policy && Answers(searches[evaluator].oracle, board, answer)
    ensures PolicyFor(board, policy) && (board.result == Undetermined ==> Sum(policy) == 1.0)
    ensures fresh(searches[evaluator].nodes - old(searches[evaluator].nodes))
    ensures Counted(searches[evaluator].oracle, board, answer, simulations,
                    old(MCTS.VisitsBelow(searches[evaluator].root)))
    ensures Behind(searches[evaluator], board, answer)
    ensures forall k :: k in searches && k != evaluator ==>
      forall a :: NextRoot(searches[k].root, a) == old(NextRoot(searches[k].root, a))
  {
    TreesAreApart(searches, board);
    hide Inv, PolicyFor, Sum, Answers, TreeAt, Counted, Behind, ValidChance, MCTS.VisitsBelow;
    policy, answer := SearchAlone(searches[evaluator], board, simulations, draw);
  }

  /** One ply: search, choose, and let every tree follow. */
  method PlayPly(searches: map<nat, MCTS>, evaluator: nat, board: SizedBoard, simulations: nat, sample: bool,
                 draw: Chance)
    returns (action: int, policy: seq<real>, ghost answer: Answer)
    requires TreesAt(searches, board) && evaluator in searches && simulations >= 1
    requires Inv(N, board) && Shaped(N, board) && board.result == Undetermined && ValidChance(draw, board)
    modifies searches.Values, set m, nd | m in searches.Values && nd in m.nodes :: nd
    ensures LegalAction(N, board, action) && TreesAt(searches, ApplyCpp(N, board, action))
    ensures answer.policy == policy && Answers(searches[evaluator].oracle, board, answer)
    ensures Sum(policy) == 1.0 && Chosen(board, policy, sample, draw, action)
    ensures forall k :: k in searches ==> fresh(searches[k].nodes - old(searches[k].nodes))
    ensures Counted(searches[evaluator].oracle, board, answer, simulations,
                    old(MCTS.VisitsBelow(searches[evaluator].root)))
    ensures forall k :: k in searches && k != evaluator ==>
      searches[k].root == old(NextRoot(searches[k].root, action))
    ensures SolvedAction(searches[evaluator].oracle, board) < 0 ==>
      searches[evaluator].root != null && KeptVisits(searches[evaluator].root, answer)
  {
    hide Inv, LegalAction, ApplyCpp, TreeAt, PolicyFor, OffersMove, Sum, Answers, Chosen, Counted, Behind;
    hide MCTS.VisitsBelow, NextRoot, SolvedAction;
    policy, answer := SearchOne(searches, evaluator, board, simulations, draw);
    action := ChooseAction(board, policy, sample, draw);
    ghost var m := searches[evaluator];
    NextIsKept(m, board, answer, action);
    AdvanceAll(searches, action, board);
    TreesAreApart(searches, ApplyCpp(N, board, action));
  }

  /** The next root of the tree just searched keeps the visits that the action had. */
  lemma NextIsKept(m: MCTS, board: SizedBoard, answer: Answer, a: int)
    requires TreeAt(m, board) && Behind(m, board, answer) && LegalAction(N, board, a)
    requires Inv(N, board) && board.result == Undetermined
    ensures SolvedAction(m.oracle, board) < 0 ==>
      NextRoot(m.root, a) != null && KeptVisits(NextRoot(m.root, a), answer)
  {
    hide Inv, LegalAction, ApplyCpp, SolvedAction, MCTS.CacheOk, MCTS.StatsOk, MCTS.LocalOk;
    if SolvedAction(m.oracle, board) < 0 {
      m.RootChildren(a);
      var i :| 0 <= i < |m.root.children| && m.root.children[i].actionId == a;
      ChildForIs(m.root.children, i);
      assert answer.ids[i] == a && answer.weights[i] == m.root.children[i].visits as real;
    }
  }

  /** The records are the positions of the run, in order; each policy is what the
      search of the evaluator to move answered there, and each action follows
      from that policy. */
  ghost predicate Recorded(setting: Setting, actions: seq<int>, history: seq<PositionRecord>, answers: seq<Answer>)
    requires LegalRun(N, Initial(N), actions)
  {
    && |history| == |answers| == |actions|
    && forall i :: 0 <= i < |history| ==> RecordOk(setting, actions, history[i], answers[i], i)
  }

  ghost predicate RecordOk(setting: Setting, actions: seq<int>, record: PositionRecord, answer: Answer, i: nat)
    requires LegalRun(N, Initial(N), actions) && i < |actions|
  {
    SplitRun(N, Initial(N), actions, i);
    && record.board == ApplyAll(N, Initial(N), actions[..i])
    && PlyOk(setting, record, answer, i, actions[i])
  }

  ghost predicate PlyOk(setting: Setting, record: PositionRecord, answer: Answer, i: nat, action: int) {
    && record.board.result == Undetermined && |record.board.cells| == N * N
    && record.policy == answer.policy && Sum(record.policy) == 1.0
    && Answers(setting.oracles(setting.selector(record.board)), record.board, answer)
    && Chosen(record.board, record.policy, setting.sampling(i), setting.draws(i, record.board), action)
    && (SolvedAction(setting.oracles(setting.selector(record.board)), record.board) < 0 ==>
          Sum(answer.weights) >= setting.config.simulations as real)
  }

  lemma RecordNext(setting: Setting, actions: seq<int>, history: seq<PositionRecord>, answers: seq<Answer>,
                   action: int, record: PositionRecord, answer: Answer)
    requires LegalRun(N, Initial(N), actions) && Recorded(setting, actions, history, answers)
    requires record.board == ApplyAll(N, Initial(N), actions)
    requires PlyOk(setting, record, answer, |actions|, action) && LegalRun(N, Initial(N), actions + [action])
    ensures Recorded(setting, actions + [action], history + [record], answers + [answer])
  {
    hide LegalRun, ApplyAll, Initial, PlyOk;
    forall i | 0 <= i < |actions| + 1
      ensures RecordOk(setting, actions + [action], (history + [record])[i], (answers + [answer])[i], i)
    {
      assert (actions + [action])[..i] == actions[..i];
      if i < |actions| {
        assert RecordOk(setting, actions, history[i], answers[i], i);
      } else {
        assert actions[..i] == actions;
      }
    }
  }

  /** One game. Whatever the evaluators choose, every action played is legal and
      follows from the policy recorded with its position, that policy is what
      the search answered, every tree stays at the game's position, and the game
      ends in a win or a draw before the action guard is reached. */
  method RunGame(setting: Setting)
    returns (actions: seq<int>, history: seq<PositionRecord>, final: Board, ghost answers: seq<Answer>)
    requires ValidSetting(setting)
    ensures LegalRun(N, Initial(N), actions) && final == ApplyAll(N, Initial(N), actions)
    ensures Recorded(setting, actions, history, answers)
    ensures final.result != Undetermined && |actions| <= CELLS + 2 < MAXIMUM_ACTIONS
  {
    hide FiveThrough, HasFive, Inv, LegalAction, ApplyCpp, LegalRun, ApplyAll, MCTS.Valid, SoundOracle;
    hide Initial, TreesAt, RecordOk, ValidChance, Sum, Answers, Chosen, Recorded, ValidSetting, Counted;
    hide MCTS.VisitsBelow, NextRoot, KeptVisits, SolvedAction;
    actions, history, answers, final := [], [], [], Initial(N);
    EmptyRun();
    NothingRecorded(setting);
    var searches: map<nat, MCTS> := map[];
    NoTrees(searches, final);
    while final.result == Undetermined && |actions| < MAXIMUM_ACTIONS
      invariant LegalRun(N, Initial(N), actions) && final == ApplyAll(N, Initial(N), actions)
      invariant Recorded(setting, actions, history, answers)
      invariant TreesAt(searches, final)
      invariant forall k :: k in searches ==>
        fresh(searches[k]) && fresh(searches[k].nodes) && searches[k].oracle == setting.oracles(k)
      decreases MAXIMUM_ACTIONS - |actions|
    {
      InvShaped(N, final);
      BoardIsFull(final);
      var evaluator, i := setting.selector(final), |actions|;
      SettingMeans(setting, i, final, evaluator);
      if evaluator !in searches {
        searches := AddSearch(searches, evaluator, setting.config, setting.oracles(evaluator), final);
      }
      var action, policy;
      ghost var answer, known := Answer([], [], []), MCTS.VisitsBelow(searches[evaluator].root);
      action, policy, answer :=
        PlayPly(searches, evaluator, final, setting.config.simulations, setting.sampling(i), setting.draws(i, final));
      RunAppends(Initial(N), actions, action);
      var record := PositionRecord(final, policy);
      assert PlyOk(setting, record, answer, i, action) by {
        AtLeast(setting.oracles(evaluator), final, answer, setting.config.simulations, known);
      }
      RecordNext(setting, actions, history, answers, action, record, answer);
      history, answers := history + [record], answers + [answer];
      final := ApplyCpp(N, final, action);
      actions := actions + [action];
      RunLength(actions);
    }
    RunLength(actions);
  }

  lemma AtLeast(o: Oracle, b: SizedBoard, answer: Answer, simulations: nat, known: real)
    requires Counted(o, b, answer, simulations, known) && b.result == Undetermined
    ensures SolvedAction(o, b) < 0 ==> Sum(answer.weights) >= simulations as real
  {
    hide SolvedAction, Sum;
  }

  lemma NoTrees(searches: map<nat, MCTS>, board: Board)
    requires searches == map[]
    ensures TreesAt(searches, board)
  {
  }

  lemma NothingRecorded(setting: Setting)
    ensures LegalRun(N, Initial(N), []) && Recorded(setting, [], [], [])
  {
  }

  lemma BoardIsFull(b: Board)
    requires Inv(N, b)
    ensures |b.cells| == N * N
  {
  }

  lemma SettingMeans(setting: Setting, i: nat, b: Board, evaluator: nat)
    requires ValidSetting(setting) && Inv(N, b) && |b.cells| == N * N && b.result == Undetermined
    ensures ValidConfig(setting.config) && SoundOracle(setting.oracles(evaluator))
    ensures ValidChance(setting.draws(i, b), b)
  {
    hide Inv, SoundOracle, ValidChance;
  }

  /** The positions from first on that the filter admits. */
  function Kept(history: seq<PositionRecord>, first: nat, filter: Board -> bool): seq<nat>
    decreases |history|
  {
    if |history| <= first then []
    else
      var last := |history| - 1;
      Kept(history[..last], first, filter) + if filter(history[last].board) then [last] else []
  }

  /** They are exactly the admitted ones, in order. */
  lemma {:induction false} KeptExactly(history: seq<PositionRecord>, first: nat, filter: Board -> bool)
    ensures forall i: nat :: i in Kept(history, first, filter) <==> first <= i < |history| && filter(history[i].board)
    ensures forall j, k :: 0 <= j < k < |Kept(history, first, filter)| ==>
      Kept(history, first, filter)[j] < Kept(history, first, filter)[k]
    decreases |history|
  {
    if |history| > first {
      var last := |history| - 1;
      KeptExactly(history[..last], first, filter);
      var before := Kept(history[..last], first, filter);
      forall j | 0 <= j < |before| ensures before[j] < last {
        assert before[j] in before;
      }
    }
  }

  function FirstKept(length: nat, keepLastMoves: nat): nat {
    if keepLastMoves == 0 || keepLastMoves > length then 0 else length - keepLastMoves
  }

  /** Kept are, of those the filter admits, the last keepLastMoves positions of the
      game, or all if that number is zero. */
  lemma {:induction false} LastOnesKept(history: seq<PositionRecord>, keepLastMoves: nat, filter: Board -> bool, i: nat)
    ensures i in Kept(history, FirstKept(|history|, keepLastMoves), filter) <==>
      i < |history| && filter(history[i].board) && (keepLastMoves == 0 || |history| - i <= keepLastMoves)
  {
    KeptExactly(history, FirstKept(|history|, keepLastMoves), filter);
  }

  /** Labels the last positions of a game, all of them if keepLastMoves is zero,
      that the filter admits: one for a position whose mover went on to win,
      minus one if the other seat won, zero for a draw. */
  method LabelPositions(history: seq<PositionRecord>, final: Board, keepLastMoves: nat, filter: Board -> bool)
    returns (examples: seq<TrainingExample>)
    ensures |examples| == |Kept(history, FirstKept(|history|, keepLastMoves), filter)|
    ensures forall k :: 0 <= k < |examples| ==>
      LabelledRight(examples[k], history, Kept(history, FirstKept(|history|, keepLastMoves), filter)[k], final)
  {
    hide LabelledRight;
    var keep := if keepLastMoves == 0 || keepLastMoves > |history| then |history| else keepLastMoves;
    var first := |history| - keep;
    examples := [];
    for i := first to |history|
      invariant |examples| == |Kept(history[..i], first, filter)|
      invariant forall k :: 0 <= k < |examples| ==>
        LabelledRight(examples[k], history, Kept(history[..i], first, filter)[k], final)
    {
      assert history[..i + 1][..i] == history[..i];
      if filter(history[i].board) {
        var board := history[i].board;
        var example := TrainingExample(board, history[i].policy, ValueForSeat(final, board.seat));
        LabelIsRight(example, history, i, final);
        examples := examples + [example];
      }
    }
    assert history[..|history|] == history;
  }

  predicate LabelledRight(e: TrainingExample, history: seq<PositionRecord>, i: nat, final: Board) {
    && i < |history| && e.board == history[i].board && e.policy == history[i].policy
    && (e.value == 1.0 <==> final.result == if e.board.seat == A then PlayerAWin else PlayerBWin)
    && (e.value == -1.0 <==> final.result == if e.board.seat == A then PlayerBWin else PlayerAWin)
    && (e.value == 0.0 <==> final.result == Draw || final.result == Undetermined)
  }

  lemma LabelIsRight(e: TrainingExample, history: seq<PositionRecord>, i: nat, final: Board)
    requires i < |history|
    requires e == TrainingExample(history[i].board, history[i].policy, ValueForSeat(final, history[i].board.seat))
    ensures LabelledRight(e, history, i, final)
  {
  }
}
