/** What the search is told about positions, and what its cache serves when it
    recognises a position by its signature. */
module Opinions {
  import opened Grid
  import opened Swap2
  import opened Zobrist
  import opened EngineBoard

  const NUM_ACTIONS: nat := 230

  /** A board of the engine's size. */
  type SizedBoard = b: Board | |b.cells| == N * N
    witness Board(seq(N * N, _ => Empty), PlaceInitialThree, A, Black, 0, Empty, Empty, Undetermined)

  datatype Evaluation = Evaluation(pmf: seq<real>, value: real)

  predicate Sound(e: Evaluation) {
    |e.pmf| == NUM_ACTIONS && -1.0 <= e.value <= 1.0
  }

  /** What the search is told about a position: the network's opinion, unless
      the endgame solver has a legal winning line, whose first move then gets
      all the probability and the full value. */
  datatype Oracle = Oracle(evaluator: Board -> Evaluation, solver: Board -> seq<int>, keys: seq<LaneKeys>)

  function SolvedAction(o: Oracle, b: SizedBoard): int {
    var line := o.solver(b);
    if line == [] || !LegalAction(N, b, line[0]) then -1 else line[0]
  }

  function SolvedEvaluation(a: nat): Evaluation
    requires a < NUM_ACTIONS
  {
    Evaluation(seq(NUM_ACTIONS, i => if i == a then 1.0 else 0.0), 1.0)
  }

  function Opinion(o: Oracle, b: SizedBoard): Evaluation {
    var a := SolvedAction(o, b);
    if 0 <= a < NUM_ACTIONS then SolvedEvaluation(a) else o.evaluator(b)
  }

  ghost predicate SoundOracle(o: Oracle) {
    forall b: Board :: Sound(o.evaluator(b))
  }

  lemma OpinionSound(o: Oracle, b: SizedBoard)
    requires SoundOracle(o)
    ensures Sound(Opinion(o, b))
  {
  }

  /** A line of the solver with a legal first move stands for a sure win by that
      move; otherwise the opinion is the network's. */
  lemma {:induction false} OpinionMeans(o: Oracle, b: SizedBoard)
    ensures var line, e := o.solver(b), Opinion(o, b);
      if line != [] && LegalAction(N, b, line[0]) then
        && e.value == 1.0 && |e.pmf| == NUM_ACTIONS
        && forall a :: 0 <= a < NUM_ACTIONS ==> e.pmf[a] == if a == line[0] then 1.0 else 0.0
      else e == o.evaluator(b)
  {
    var line := o.solver(b);
    if line != [] && LegalAction(N, b, line[0]) {
      assert line[0] < N * N + 5;
    }
  }

  // ----- Signatures and what is served under them ------------------------

  /** All lanes of a board's signature. */
  function Sig(o: Oracle, b: Board): seq<Word> {
    seq(|o.keys|, h requires 0 <= h < |o.keys| => Signature(o.keys[h], b))
  }

  /** It is the signature that the engine's board object keeps up to date, lane by
      lane. */
  lemma SigOfObject(o: Oracle, board: Board15)
    requires board.Valid() && board.keys == o.keys
    ensures Sig(o, board.View()) == board.zobrists
  {
  }

  predicate SigAmong(o: Oracle, boards: seq<Board>, s: seq<Word>) {
    exists k :: 0 <= k < |boards| && Sig(o, boards[k]) == s
  }

  /** The board whose opinion is served for b: the first that was looked up
      with b's signature. */
  function Served(o: Oracle, looked: seq<SizedBoard>, b: SizedBoard): (c: SizedBoard)
    ensures Sig(o, c) == Sig(o, b) && (c == b || c in looked)
  {
    if looked == [] then b
    else if Sig(o, looked[0]) == Sig(o, b) then looked[0]
    else Served(o, looked[1..], b)
  }

  function ServedOpinion(o: Oracle, looked: seq<SizedBoard>, b: SizedBoard): Evaluation {
    Opinion(o, Served(o, looked, b))
  }

  ghost predicate NoCollision(o: Oracle, boards: seq<Board>) {
    forall b, b' :: b in boards && b' in boards && Sig(o, b) == Sig(o, b') ==> b == b'
  }

  /** No two boards that the rules allow share a signature. */
  ghost predicate Apart(o: Oracle) {
    forall b, b' :: Inv(N, b) && Inv(N, b') && Sig(o, b) == Sig(o, b') ==> b == b'
  }

  /** A board that was looked up is served its own opinion as long as no other
      board with its signature was. */
  lemma {:induction false} ServedIsOwn(o: Oracle, looked: seq<SizedBoard>, b: SizedBoard)
    requires forall c :: c in looked && Sig(o, c) == Sig(o, b) ==> c == b
    ensures Served(o, looked, b) == b
  {
    hide Sig;
    assert Served(o, looked, b) == b || Served(o, looked, b) in looked;
  }

  /** A board that is looked up for the first time is served its own opinion, then
      and ever after, exactly when no earlier board has its signature. */
  lemma {:induction false} OwnOpinionExactly(o: Oracle, before: seq<SizedBoard>, b: SizedBoard, more: seq<SizedBoard>)
    requires b !in before
    ensures Served(o, before + [b] + more, b) == b <==> !SigAmong(o, before, Sig(o, b))
  {
    hide Sig, SigAmong;
    assert before + [b] + more == before + ([b] + more);
    if SigAmong(o, before, Sig(o, b)) {
      ServedStays(o, before, [b] + more, b);
      ServedAmong(o, before, b);
    } else {
      ServedLater(o, before, [b] + more, b);
    }
  }

  lemma {:induction false} ServedAmong(o: Oracle, looked: seq<SizedBoard>, b: SizedBoard)
    requires SigAmong(o, looked, Sig(o, b))
    ensures Served(o, looked, b) in looked
    decreases |looked|
  {
    hide Sig;
    var k :| 0 <= k < |looked| && Sig(o, looked[k]) == Sig(o, b);
    if k > 0 {
      assert looked[1..][k - 1] == looked[k];
      ServedAmong(o, looked[1..], b);
    }
  }

  /** What is served does not change when more boards are looked up. */
  lemma {:induction false} ServedStays(o: Oracle, looked: seq<SizedBoard>, more: seq<SizedBoard>, b: SizedBoard)
    requires SigAmong(o, looked, Sig(o, b))
    ensures Served(o, looked + more, b) == Served(o, looked, b)
    decreases |looked|
  {
    hide Sig;
    var k :| 0 <= k < |looked| && Sig(o, looked[k]) == Sig(o, b);
    assert (looked + more)[0] == looked[0];
    if Sig(o, looked[0]) != Sig(o, b) {
      assert (looked + more)[1..] == looked[1..] + more;
      assert looked[1..][k - 1] == looked[k];
      ServedStays(o, looked[1..], more, b);
    }
  }

  /** A signature that is new is served from the boards that are added. */
  lemma {:induction false} ServedLater(o: Oracle, looked: seq<SizedBoard>, more: seq<SizedBoard>, b: SizedBoard)
    requires !SigAmong(o, looked, Sig(o, b))
    ensures Served(o, looked + more, b) == Served(o, more, b)
    decreases |looked|
  {
    hide Sig;
    if looked == [] {
      assert looked + more == more;
    } else {
      assert Sig(o, looked[0]) != Sig(o, b);
      assert (looked + more)[0] == looked[0] && (looked + more)[1..] == looked[1..] + more;
      forall k | 0 <= k < |looked[1..]| ensures Sig(o, looked[1..][k]) != Sig(o, b) {
        assert looked[1..][k] == looked[k + 1];
      }
      ServedLater(o, looked[1..], more, b);
    }
  }

  /** Boards with one signature are served the same. */
  lemma {:induction false} ServedAlike(o: Oracle, looked: seq<SizedBoard>, b: SizedBoard, c: SizedBoard)
    requires Sig(o, b) == Sig(o, c) && SigAmong(o, looked, Sig(o, b))
    ensures Served(o, looked, b) == Served(o, looked, c)
    decreases |looked|
  {
    hide Sig;
    var k :| 0 <= k < |looked| && Sig(o, looked[k]) == Sig(o, b);
    if k > 0 && Sig(o, looked[0]) != Sig(o, b) {
      assert looked[1..][k - 1] == looked[k];
      ServedAlike(o, looked[1..], b, c);
    }
  }

  /** The first board with its signature is served its own opinion. */
  lemma {:induction false} ServedFirst(o: Oracle, boards: seq<SizedBoard>, i: nat)
    requires i < |boards| && forall j :: 0 <= j < i ==> Sig(o, boards[j]) != Sig(o, boards[i])
    ensures Served(o, boards, boards[i]) == boards[i]
    decreases i
  {
    hide Sig;
    if i > 0 {
      assert Sig(o, boards[0]) != Sig(o, boards[i]);
      forall j | 0 <= j < i - 1 ensures Sig(o, boards[1..][j]) != Sig(o, boards[1..][i - 1]) {
        assert boards[1..][j] == boards[j + 1];
      }
      ServedFirst(o, boards[1..], i - 1);
    }
  }
}
