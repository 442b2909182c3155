/** Batched tree search with virtual loss. Each node remembers, as ghost state,
    the board its path leads to, the values backed up through it and the number
    of paths on which it is still charged a virtual loss. */
module Mcts {
  import opened Grid
  import opened Swap2
  import opened Zobrist
  import opened Opinions
  import opened Policies

  /** When a search stops: after a number of simulations, or at the first clock
      check past a deadline, the given number of checks having come before it. */
  datatype Stop = Simulations(n: nat) | Deadline(checks: nat)

  /** Simulations that a search runs unless the root is solved. */
  function Budget(stop: Stop, batchSize: nat): nat {
    match stop
    case Simulations(n) => n
    case Deadline(checks) => if checks <= 2 then 0 else (checks - 2) * batchSize
  }

  /** The clock runs out before the first batch. */
  predicate CutShort(stop: Stop) {
    stop.Deadline? && stop.checks <= 1
  }

  datatype Priors = Unchanged | Replaced(pmf: seq<real>)

  /** How the priors of the root differ from the evaluator's: masked when it is
      expanded, masked or noisy before the search; and whether the mask bars
      children without a positive prior from selection. */
  datatype RootSetup = RootSetup(atExpansion: Priors, beforeSearch: Priors, mask: bool)

  predicate SetupOk(setup: RootSetup) {
    && (setup.atExpansion.Replaced? ==> |setup.atExpansion.pmf| == NUM_ACTIONS)
    && (setup.beforeSearch.Replaced? ==> |setup.beforeSearch.pmf| == NUM_ACTIONS)
  }

  /** Some legal action has a positive entry. */
  ghost predicate OffersMove(rootBoard: Board, pmf: seq<real>)
    requires |rootBoard.cells| == N * N
  {
    exists a :: 0 <= a < |pmf| && LegalAction(N, rootBoard, a) && pmf[a] > 0.0
  }

  /** A policy over all action ids that gives weight to legal actions only. */
  ghost predicate PolicyFor(b: Board, policy: seq<real>)
    requires |b.cells| == N * N
  {
    && |policy| == NUM_ACTIONS
    && forall a :: 0 <= a < NUM_ACTIONS ==> policy[a] >= 0.0 && (policy[a] > 0.0 ==> LegalAction(N, b, a))
  }

  /** All legal actions get the same. */
  ghost predicate EvenPolicy(b: Board, policy: seq<real>)
    requires |b.cells| == N * N && |policy| == NUM_ACTIONS
  {
    forall i, j :: 0 <= i < NUM_ACTIONS && 0 <= j < NUM_ACTIONS && LegalAction(N, b, i) && LegalAction(N, b, j) ==>
      policy[i] == policy[j]
  }

  /** What a search answered: its policy, the ids of the root's children, and
      what their shares of the policy are proportional to. */
  datatype Answer = Answer(policy: seq<real>, ids: seq<int>, weights: seq<real>)

  /** The legal actions, in order. */
  ghost predicate ListsLegal(b: SizedBoard, ids: seq<int>) {
    && (forall a :: a in ids <==> LegalAction(N, b, a))
    && forall i, j :: 0 <= i < j < |ids| ==> ids[i] < ids[j]
  }

  /** The answer of a search that had time: the solver's action, or shares among
      the legal actions. */
  ghost predicate Answers(o: Oracle, b: SizedBoard, answer: Answer) {
    && PolicyFor(b, answer.policy)
    && if SolvedAction(o, b) >= 0 then
         SolvedAction(o, b) < NUM_ACTIONS && answer.policy == SolvedEvaluation(SolvedAction(o, b)).pmf
       else
         Spread(NUM_ACTIONS, answer.policy, answer.ids, answer.weights) && ListsLegal(b, answer.ids)
  }

  ghost predicate Bounded(values: seq<real>) {
    forall i :: 0 <= i < |values| ==> -1.0 <= values[i] <= 1.0
  }

  lemma {:induction false} SumBounded(values: seq<real>)
    requires Bounded(values)
    ensures -(|values| as real) <= Sum(values) <= |values| as real
    decreases |values|
  {
    if values != [] {
      SumBounded(values[..|values| - 1]);
    }
  }

  class MCTSNode {
    const actionId: int
    const currentPlayer: Seat
    var priorProb: real
    var visits: int
    var valueSum: real
    var isExpanded: bool
    var children: seq<MCTSNode>

    /** The board this node stands for, the node it was created under, and the
        seat that selects it. */
    ghost const board: Board
    ghost const parent: MCTSNode?
    ghost const selector: Seat
    /** Values backed up through this node, and virtual losses outstanding. */
    ghost var backed: seq<real>
    ghost var pending: int
    /** The policy that the children's priors come from. */
    ghost var policy: seq<real>

    constructor (actionId: int, priorProb: real, currentPlayer: Seat,
                 ghost board: Board, ghost parent: MCTSNode?, ghost selector: Seat)
      ensures this.actionId == actionId && this.currentPlayer == currentPlayer && this.priorProb == priorProb
      ensures this.board == board && this.parent == parent && this.selector == selector
      ensures visits == 0 && valueSum == 0.0 && !isExpanded && children == [] && backed == [] && pending == 0
      ensures policy == []
    {
      this.actionId, this.priorProb, this.currentPlayer := actionId, priorProb, currentPlayer;
      this.board, this.parent, this.selector := board, parent, selector;
      visits, valueSum, isExpanded, children := 0, 0.0, false, [];
      backed, pending, policy := [], 0, [];
    }

    /** Sign of one unit of virtual loss in this node's own perspective. */
    function LossSign(selecting: Seat): real {
      if currentPlayer == selecting then -1.0 else 1.0
    }

    /** The statistics are the backed-up values plus the outstanding losses. */
    ghost predicate StatsOk(virtualLoss: int)
      reads `visits, `valueSum, `backed, `pending
    {
      && Bounded(backed)
      && visits == |backed| + virtualLoss * pending
      && valueSum == Sum(backed) + (virtualLoss * pending) as real * LossSign(selector)
    }

    /** Creates one child per legal action, once. */
    method Expand(board: Board, pmf: seq<real>) returns (ghost created: set<MCTSNode>)
      requires board == this.board && Inv(N, board) && currentPlayer == board.seat && |pmf| == NUM_ACTIONS
      modifies `isExpanded, `children, `policy
      ensures isExpanded && fresh(created)
      ensures old(isExpanded) ==> created == {} && children == old(children) && policy == old(policy)
      ensures !old(isExpanded) ==>
        ChildrenMatch() && policy == pmf && PriorsAre(pmf) && forall i :: 0 <= i < |children| ==> children[i] in created
      ensures forall c :: c in created ==> c.Untouched()
    {
      hide Inv, LegalAction, IsChild, Untouched, ChildrenMatch, PriorsAre;
      created := {};
      if !isExpanded {
        created := Grow(board, pmf);
      }
    }

    method Grow(b: Board, pmf: seq<real>) returns (ghost created: set<MCTSNode>)
      requires b == board && Inv(N, b) && currentPlayer == b.seat && |pmf| == NUM_ACTIONS
      modifies `isExpanded, `children, `policy
      ensures isExpanded && fresh(created) && ChildrenMatch() && policy == pmf && PriorsAre(pmf)
      ensures forall i :: 0 <= i < |children| ==> children[i] in created
      ensures forall c :: c in created ==> c.Untouched()
    {
      InvShaped(N, b);
      hide Inv, LegalAction, IsChild, Untouched, ChildrenMatch, PriorsAre;
      var legal := ListLegalActions(N, b);
      forall k | 0 <= k < |legal| ensures LegalAction(N, b, legal[k]) {
        assert legal[k] in legal;
      }
      created := AddChildren(b, legal, pmf);
      isExpanded, policy := true, pmf;
      ChildrenComplete(legal);
    }

    method AddChildren(b: Board, legal: seq<nat>, pmf: seq<real>) returns (ghost created: set<MCTSNode>)
      requires b == board && Inv(N, b) && currentPlayer == b.seat && |pmf| == NUM_ACTIONS
      requires forall k :: 0 <= k < |legal| ==> LegalAction(N, b, legal[k])
      modifies `children
      ensures fresh(created) && |children| == |legal| && forall c :: c in created ==> c.Untouched()
      ensures forall k :: 0 <= k < |legal| ==>
        children[k] in created && children[k].actionId == legal[k] && IsChild(children[k])
      ensures PriorsAre(pmf)
    {
      hide Inv, LegalAction, IsChild, Untouched;
      children, created := [], {};
      for i := 0 to |legal|
        invariant |children| == i && fresh(created) && forall c :: c in created ==> c.Untouched()
        invariant forall k :: 0 <= k < i ==>
          children[k] in created && children[k].actionId == legal[k] && IsChild(children[k])
        invariant PriorsAre(pmf)
      {
        var child := MakeChild(b, legal[i], pmf);
        children := children + [child];
        created := created + {child};
      }
    }

    lemma ChildrenComplete(legal: seq<nat>)
      requires |board.cells| == N * N && |children| == |legal|
      requires forall k :: 0 <= k < |legal| ==> children[k].actionId == legal[k] && IsChild(children[k])
      requires forall a: int :: a in legal <==> LegalAction(N, board, a)
      requires forall i, j :: 0 <= i < j < |legal| ==> legal[i] < legal[j]
      ensures ChildrenMatch()
    {
      hide Inv, LegalAction, IsChild;
      forall a | LegalAction(N, board, a) ensures HasChild(a) {
        assert a in legal;
        var k :| 0 <= k < |legal| && legal[k] == a;
        assert children[k].actionId == a;
      }
    }

    method MakeChild(b: Board, a: int, pmf: seq<real>) returns (child: MCTSNode)
      requires b == board && Inv(N, b) && currentPlayer == b.seat && LegalAction(N, b, a) && |pmf| == NUM_ACTIONS
      ensures fresh(child) && child.Untouched() && IsChild(child) && child.actionId == a
      ensures 0 <= a < NUM_ACTIONS && child.priorProb == pmf[a]
    {
      ApplyKeepsInv(N, b, a);
      ChildSeatIsNextSeat(N, b, a);
      InBounds(b, a);
      InvShaped(N, b);
      hide Inv, ApplyCpp;
      var nextPlayer := if b.phase == Standard then OtherSeat(b.seat) else ChildSeat(N, b, a);
      child := new MCTSNode(a, pmf[a], nextPlayer, ApplyCpp(N, b, a), this, currentPlayer);
    }

    /** A node as it is created. */
    ghost predicate Untouched()
      reads this
    {
      && Inv(N, board) && currentPlayer == board.seat && !isExpanded && children == []
      && visits == 0 && valueSum == 0.0 && backed == [] && pending == 0
    }

    /** The children are exactly the legal actions of the board, in order, each
        standing for the board after its action. */
    ghost predicate ChildrenMatch()
      reads `children
    {
      && (forall i :: 0 <= i < |children| ==> IsChild(children[i]))
      && (forall a :: |board.cells| == N * N && LegalAction(N, board, a) ==> HasChild(a))
      && (forall i, j :: 0 <= i < j < |children| ==> children[i].actionId < children[j].actionId)
    }

    ghost predicate IsChild(c: MCTSNode) {
      && Inv(N, board) && LegalAction(N, board, c.actionId)
      && c.board == ApplyCpp(N, board, c.actionId) && c.parent == this && c.selector == currentPlayer
    }

    /** The children's priors are the entries of a policy. */
    ghost predicate PriorsAre(pmf: seq<real>)
      reads `children, children`priorProb
    {
      forall i :: 0 <= i < |children| ==>
        0 <= children[i].actionId < |pmf| && children[i].priorProb == pmf[children[i].actionId]
    }

    ghost predicate HasChild(a: int)
      reads `children
    {
      exists i :: 0 <= i < |children| && children[i].actionId == a
    }

    ghost predicate TakenFrom(child: MCTSNode, before: seq<MCTSNode>, after: seq<MCTSNode>) {
      exists i :: 0 <= i < |before| && child == before[i] && after == before[..i] + before[i + 1..]
    }

    function ChildIds(): (ids: seq<int>)
      reads `children
      ensures |ids| == |children|
    {
      IdsOf(children)
    }

    function ChildVisits(): (weights: seq<real>)
      reads `children, children`visits
      ensures |weights| == |children|
    {
      VisitsOf(children)
    }

    /** The children's priors with negative ones cut off. */
    function ChildPriors(): (weights: seq<real>)
      reads `children, children`priorProb
      ensures |weights| == |children|
    {
      PriorsOf(children)
    }

    static function IdsOf(kids: seq<MCTSNode>): (ids: seq<int>)
      ensures |ids| == |kids| && forall i :: 0 <= i < |kids| ==> ids[i] == kids[i].actionId
    {
      if kids == [] then [] else IdsOf(kids[..|kids| - 1]) + [kids[|kids| - 1].actionId]
    }

    static function VisitsOf(kids: seq<MCTSNode>): (weights: seq<real>)
      reads kids`visits
      ensures |weights| == |kids| && forall i :: 0 <= i < |kids| ==> weights[i] == kids[i].visits as real
    {
      if kids == [] then [] else VisitsOf(kids[..|kids| - 1]) + [kids[|kids| - 1].visits as real]
    }

    static function PriorsOf(kids: seq<MCTSNode>): (weights: seq<real>)
      reads kids`priorProb
      ensures |weights| == |kids|
      ensures forall i :: 0 <= i < |kids| ==> weights[i] == if kids[i].priorProb > 0.0 then kids[i].priorProb else 0.0
    {
      if kids == [] then []
      else
        var last := kids[|kids| - 1].priorProb;
        PriorsOf(kids[..|kids| - 1]) + [if last > 0.0 then last else 0.0]
    }

    /** What the children's shares are proportional to before any visit: their
        priors, or one each if no prior is positive. */
    function PriorWeights(): (weights: seq<real>)
      reads `children, children`priorProb
      ensures |weights| == |children|
    {
      if Sum(ChildPriors()) > 0.0 then ChildPriors() else Ones(|children|)
    }

    /** And after a search: their visits, once there are any. */
    function VisitWeights(): (weights: seq<real>)
      reads `children, children`priorProb, children`visits
      ensures |weights| == |children|
    {
      if Sum(ChildVisits()) > 0.0 then ChildVisits() else PriorWeights()
    }

    /** Removes and returns the child for an action, if there is one. */
    method DetachChild(a: int) returns (child: MCTSNode?)
      modifies `children
      ensures child == ChildFor(old(children), a)
      ensures child == null ==> children == old(children) && !old(HasChild(a))
      ensures child != null ==> child.actionId == a && TakenFrom(child, old(children), children)
    {
      for i := 0 to |children|
        invariant children == old(children)
        invariant forall k :: 0 <= k < i ==> children[k].actionId != a
        invariant ChildFor(children, a) == ChildFor(children[i..], a)
      {
        assert children[i..][0] == children[i] && children[i..][1..] == children[i + 1..];
        if children[i].actionId == a {
          child := children[i];
          children := children[..i] + children[i + 1..];
          return;
        }
      }
      return null;
    }

    method AddVirtualLoss(selecting: Seat, virtualLoss: int)
      requires StatsOk(virtualLoss) && selecting == selector
      modifies `visits, `valueSum, `pending
      ensures StatsOk(virtualLoss) && pending == old(pending) + 1
      ensures visits == old(visits) + virtualLoss
      ensures valueSum == old(valueSum) + virtualLoss as real * LossSign(selecting)
    {
      visits := visits + virtualLoss;
      var value := virtualLoss as real;
      valueSum := valueSum + if currentPlayer == selecting then -value else value;
      pending := pending + 1;
      OneMore(virtualLoss, old(pending));
    }

    method RevertVirtualLoss(selecting: Seat, virtualLoss: int)
      requires StatsOk(virtualLoss) && selecting == selector
      modifies `visits, `valueSum, `pending
      ensures StatsOk(virtualLoss) && pending == old(pending) - 1
      ensures visits == old(visits) - virtualLoss
      ensures valueSum == old(valueSum) - virtualLoss as real * LossSign(selecting)
    {
      visits := visits - virtualLoss;
      var value := virtualLoss as real;
      valueSum := valueSum - if currentPlayer == selecting then -value else value;
      pending := pending - 1;
      OneMore(virtualLoss, pending);
    }

    /** Takes back the virtual loss charged from the parent, if there is one, and
        adds a value. */
    method Settle(parent: MaybeSeat, value: real, virtualLoss: int)
      requires StatsOk(virtualLoss) && -1.0 <= value <= 1.0 && (parent.Parent? ==> parent.seat == selector)
      modifies `visits, `valueSum, `pending, `backed
      ensures StatsOk(virtualLoss) && backed == old(backed) + [value]
      ensures pending == old(pending) - if parent.Parent? then 1 else 0
    {
      hide StatsOk;
      if parent.Parent? {
        RevertVirtualLoss(parent.seat, virtualLoss);
      }
      Update(value, virtualLoss);
    }

    method Update(value: real, ghost virtualLoss: int)
      requires StatsOk(virtualLoss) && -1.0 <= value <= 1.0
      modifies `visits, `valueSum, `backed
      ensures StatsOk(virtualLoss) && backed == old(backed) + [value]
      ensures visits == old(visits) + 1 && valueSum == old(valueSum) + value
    {
      valueSum := valueSum + value;
      visits := visits + 1;
      assert (backed + [value])[..|backed|] == backed;
      backed := backed + [value];
    }
  }

  datatype MaybeSeat = NoParent | Parent(seat: Seat)

  lemma OneMore(virtualLoss: int, pending: int)
    ensures virtualLoss * (pending + 1) == virtualLoss * pending + virtualLoss
    ensures (virtualLoss * (pending + 1)) as real == (virtualLoss * pending) as real + virtualLoss as real
  {
  }

  lemma InBounds(b: Board, a: int)
    requires |b.cells| == N * N && LegalAction(N, b, a)
    ensures 0 <= a < NUM_ACTIONS
  {
  }

  /** At any moment of a search the value sum stays within the visit count. */
  lemma {:induction false} ValueWithinVisits(node: MCTSNode, virtualLoss: int)
    requires node.StatsOk(virtualLoss) && virtualLoss >= 0 && node.pending >= 0
    ensures -(node.visits as real) <= node.valueSum <= node.visits as real
  {
    SumBounded(node.backed);
    assert virtualLoss * node.pending >= 0;
  }

  // ----- Selection value ----------------------------------------------

  /** Mean value from the selector's side plus the exploration term; root is
      the square root of the parent's visit count. */
  function Puct(sameSeat: bool, visits: int, valueSum: real, prior: real, cPuct: real, root: real): real
    requires visits >= 0
  {
    var q := if visits > 0 then (if sameSeat then valueSum / visits as real else -(valueSum / visits as real)) else 0.0;
    q + cPuct * prior * root / (1.0 + visits as real)
  }

  /** A virtual loss on an edge never makes that edge more attractive. */
  lemma {:induction false} VirtualLossNeverAttracts(sameSeat: bool, visits: int, valueSum: real, prior: real,
                                                    cPuct: real, root: real, virtualLoss: int)
    requires visits >= 0 && virtualLoss >= 0 && prior >= 0.0 && cPuct >= 0.0 && root >= 0.0
    requires -(visits as real) <= valueSum <= visits as real
    ensures Puct(sameSeat, visits + virtualLoss,
                 valueSum + virtualLoss as real * (if sameSeat then -1.0 else 1.0), prior, cPuct, root)
         <= Puct(sameSeat, visits, valueSum, prior, cPuct, root)
  {
    var n, l := visits as real, virtualLoss as real;
    var s := if sameSeat then valueSum else -valueSum;
    var w := cPuct * prior * root;
    assert cPuct * prior >= 0.0;
    assert w >= 0.0;
    ShrinkingShare(w, 1.0 + n, 1.0 + n + l);
    if virtualLoss > 0 {
      LossLowersMean(s, n, l);
      if visits > 0 {
        Negated(valueSum, n);
      }
      Negated(valueSum + l, n + l);
    }
  }

  /** So for a child as AddVirtualLoss charges it, whichever seats the edge joins. */
  lemma {:induction false} ChargeNeverAttracts(parent: MCTSNode, child: MCTSNode, cPuct: real, root: real,
                                               virtualLoss: int)
    requires child.visits >= 0 && virtualLoss >= 0 && child.priorProb >= 0.0 && cPuct >= 0.0 && root >= 0.0
    requires -(child.visits as real) <= child.valueSum <= child.visits as real
    ensures var same := parent.currentPlayer == child.currentPlayer;
      Puct(same, child.visits + virtualLoss,
           child.valueSum + virtualLoss as real * child.LossSign(parent.currentPlayer), child.priorProb, cPuct, root)
      <= Puct(same, child.visits, child.valueSum, child.priorProb, cPuct, root)
  {
    VirtualLossNeverAttracts(parent.currentPlayer == child.currentPlayer, child.visits, child.valueSum,
                             child.priorProb, cPuct, root, virtualLoss);
  }

  /** Of two children with the same statistics the one with the greater prior is
      the more attractive. */
  lemma {:induction false} PriorAttracts(sameSeat: bool, visits: int, valueSum: real, prior: real, prior': real,
                                         cPuct: real, root: real)
    requires visits >= 0 && cPuct > 0.0 && root > 0.0 && prior < prior'
    ensures Puct(sameSeat, visits, valueSum, prior, cPuct, root) < Puct(sameSeat, visits, valueSum, prior', cPuct, root)
  {
    var n, w, w' := 1.0 + visits as real, cPuct * prior * root, cPuct * prior' * root;
    assert cPuct * (prior' - prior) > 0.0;
    assert cPuct * (prior' - prior) * root > 0.0;
    assert w' - w == cPuct * (prior' - prior) * root;
    GreaterShare(w, w', n);
  }

  /** Of two children with the same visits and priors the one that did better for
      the seat to select is the more attractive: values are those of the child's
      own seat. */
  lemma {:induction false} ValueAttracts(sameSeat: bool, visits: int, valueSum: real, valueSum': real, prior: real,
                                         cPuct: real, root: real)
    requires visits > 0 && if sameSeat then valueSum < valueSum' else valueSum > valueSum'
    ensures Puct(sameSeat, visits, valueSum, prior, cPuct, root) < Puct(sameSeat, visits, valueSum', prior, cPuct, root)
  {
    if sameSeat {
      GreaterShare(valueSum, valueSum', visits as real);
    } else {
      GreaterShare(valueSum', valueSum, visits as real);
    }
  }

  /** The mean value for the seat to select, nothing without visits, plus the
      exploration. */
  lemma {:induction false} PuctMeans(sameSeat: bool, visits: int, valueSum: real, prior: real, cPuct: real, root: real)
    returns (mean: real, explore: real)
    requires visits >= 0
    ensures Puct(sameSeat, visits, valueSum, prior, cPuct, root) == mean + explore
    ensures mean * visits as real == if visits == 0 then 0.0 else if sameSeat then valueSum else -valueSum
    ensures (visits == 0 ==> mean == 0.0) && explore * (1.0 + visits as real) == cPuct * prior * root
  {
    var n, w := 1.0 + visits as real, cPuct * prior * root;
    explore := w / n;
    mean := Puct(sameSeat, visits, valueSum, prior, cPuct, root) - explore;
    assert explore * n == w;
    if visits > 0 {
      DividesOut(valueSum, visits as real);
      assert mean == if sameSeat then valueSum / visits as real else -(valueSum / visits as real);
    }
  }

  lemma DividesOut(x: real, n: real)
    requires n > 0.0
    ensures x / n * n == x && -(x / n) * n == -x
  {
    var q := x / n;
    assert q * n == x;
  }

  lemma GreaterShare(x: real, y: real, n: real)
    requires x < y && n > 0.0
    ensures x / n < y / n
  {
    var p, q := x / n, y / n;
    assert p * n == x && q * n == y;
  }

  lemma Negated(x: real, n: real)
    requires n > 0.0
    ensures -(x / n) == (-x) / n
  {
  }

  lemma ShrinkingShare(w: real, a: real, b: real)
    requires w >= 0.0 && 0.0 < a <= b
    ensures w / b <= w / a
  {
    var q := w / a;
    assert q * a == w;
    assert q >= 0.0;
    assert q * b >= w;
  }

  lemma LossLowersMean(s: real, n: real, l: real)
    requires n >= 0.0 && l > 0.0 && -n <= s <= n
    ensures n > 0.0 ==> (s - l) / (n + l) <= s / n
    ensures n == 0.0 ==> (s - l) / (n + l) <= 0.0
  {
    if n > 0.0 {
      var q := s / n;
      assert q * n == s;
      assert q >= -1.0;
      assert q * l >= -l;
      assert q * (n + l) >= s - l;
    }
  }

  // ----- Bookkeeping over a batch ----------------------------------------

  /** The child for an action, if there is one. */
  ghost function ChildFor(kids: seq<MCTSNode>, a: int): MCTSNode? {
    if kids == [] then null
    else if kids[0].actionId == a then kids[0]
    else ChildFor(kids[1..], a)
  }

  lemma {:induction false} ChildForIs(kids: seq<MCTSNode>, i: nat)
    requires i < |kids| && forall j, k :: 0 <= j < k < |kids| ==> kids[j].actionId != kids[k].actionId
    ensures ChildFor(kids, kids[i].actionId) == kids[i]
    decreases |kids|
  {
    if i > 0 {
      ChildForIs(kids[1..], i - 1);
    }
  }

  /** The node that actions lead to from a node, null if the tree ends before. */
  ghost function Reach(kids: map<MCTSNode, seq<MCTSNode>>, top: MCTSNode?, actions: seq<int>): MCTSNode? {
    if actions == [] then top
    else if top == null || top !in kids then null
    else Reach(kids, ChildFor(kids[top], actions[0]), actions[1..])
  }

  lemma {:induction false} ReachNext(kids: map<MCTSNode, seq<MCTSNode>>, top: MCTSNode?, actions: seq<int>, a: int)
    ensures Reach(kids, top, actions + [a]) ==
            var nd := Reach(kids, top, actions); if nd == null || nd !in kids then null else ChildFor(kids[nd], a)
    decreases |actions|
  {
    if actions == [] {
      assert ([a])[1..] == [];
    } else if top != null && top in kids {
      assert (actions + [a])[1..] == actions[1..] + [a];
      ReachNext(kids, ChildFor(kids[top], actions[0]), actions[1..], a);
    } else {
    }
  }

  function End(path: seq<MCTSNode>): MCTSNode
    requires path != []
  {
    path[|path| - 1]
  }

  /** A leaf value seen from a node's side. */
  function Signed(node: MCTSNode, leafSeat: Seat, value: real): real {
    if node.currentPlayer == leafSeat then value else -value
  }

  /** Paths that still charge a node a virtual loss. */
  ghost function Outstanding(paths: seq<seq<MCTSNode>>, node: MCTSNode): nat
  {
    if paths == [] then 0
    else (if paths[0] != [] && node in paths[0][1..] then 1 else 0) + Outstanding(paths[1..], node)
  }

  /** The values that paths with the given leaf values back up through a node. */
  ghost function BackedBy(paths: seq<seq<MCTSNode>>, values: seq<real>, node: MCTSNode): seq<real>
    requires |values| == |paths|
  {
    if paths == [] then []
    else
      var m := |paths| - 1;
      BackedBy(paths[..m], values[..m], node) +
      if node in paths[m] then [if node.currentPlayer == End(paths[m]).currentPlayer then values[m] else -values[m]]
      else []
  }

  lemma {:induction false} OutstandingAppend(paths: seq<seq<MCTSNode>>, path: seq<MCTSNode>, node: MCTSNode)
    requires path != []
    ensures Outstanding(paths + [path], node) == Outstanding(paths, node) + if node in path[1..] then 1 else 0
    decreases |paths|
  {
    if paths == [] {
      assert (paths + [path])[1..] == [];
    } else {
      assert (paths + [path])[1..] == paths[1..] + [path];
      OutstandingAppend(paths[1..], path, node);
    }
  }

  lemma OutstandingHead(paths: seq<seq<MCTSNode>>, i: nat, node: MCTSNode)
    requires i < |paths| && paths[i] != []
    ensures Outstanding(paths[i..], node) == Outstanding(paths[i + 1..], node) + if node in paths[i][1..] then 1 else 0
  {
    assert paths[i..][1..] == paths[i + 1..];
  }

  lemma {:induction false} NotOutstanding(paths: seq<seq<MCTSNode>>, node: MCTSNode)
    requires forall k :: 0 <= k < |paths| ==> node !in paths[k]
    ensures Outstanding(paths, node) == 0
    decreases |paths|
  {
    if paths != [] {
      NotOutstanding(paths[1..], node);
    }
  }

  lemma BackedByNext(paths: seq<seq<MCTSNode>>, values: seq<real>, i: nat, value: real, node: MCTSNode)
    requires i < |paths| && |values| == i
    ensures BackedBy(paths[..i + 1], values + [value], node) == BackedBy(paths[..i], values, node) +
            if node !in paths[i] then []
            else if node.currentPlayer == End(paths[i]).currentPlayer then [value] else [-value]
  {
    assert paths[..i + 1][..i] == paths[..i];
    assert (values + [value])[..i] == values;
  }

  lemma {:induction false} NotBacked(paths: seq<seq<MCTSNode>>, values: seq<real>, node: MCTSNode)
    requires |values| == |paths| && forall k :: 0 <= k < |paths| ==> node !in paths[k]
    ensures BackedBy(paths, values, node) == []
    decreases |paths|
  {
    if paths != [] {
      NotBacked(paths[..|paths| - 1], values[..|paths| - 1], node);
    }
  }

  lemma {:induction false} BackedByConcat(paths: seq<seq<MCTSNode>>, values: seq<real>,
                                          more: seq<seq<MCTSNode>>, moreValues: seq<real>, node: MCTSNode)
    requires |values| == |paths| && |moreValues| == |more|
    ensures BackedBy(paths + more, values + moreValues, node) ==
      BackedBy(paths, values, node) + BackedBy(more, moreValues, node)
    decreases |more|
  {
    if more == [] {
      assert paths + more == paths && values + moreValues == values;
    } else {
      var m := |more| - 1;
      assert (paths + more)[..|paths| + m] == paths + more[..m];
      assert (values + moreValues)[..|paths| + m] == values + moreValues[..m];
      BackedByConcat(paths, values, more[..m], moreValues[..m], node);
    }
  }

  /** Every path through the node adds one value. */
  lemma {:induction false} BackedByAll(paths: seq<seq<MCTSNode>>, values: seq<real>, node: MCTSNode)
    requires |values| == |paths| && forall k :: 0 <= k < |paths| ==> node in paths[k]
    ensures |BackedBy(paths, values, node)| == |paths|
    decreases |paths|
  {
    if paths != [] {
      BackedByAll(paths[..|paths| - 1], values[..|paths| - 1], node);
    }
  }

  /** The statistics of a node, and the same after a number of visits lost. */
  datatype Stat = Stat(visits: int, valueSum: real)

  function Charged(at: Stat, losses: int, sign: real): Stat {
    Stat(at.visits + losses, at.valueSum + losses as real * sign)
  }

  // ----- Every simulation visits one child -------------------------------

  /** Number of values that paths back up through some nodes. */
  ghost function BackedTotal(kids: seq<MCTSNode>, paths: seq<seq<MCTSNode>>, values: seq<real>): nat
    requires |values| == |paths|
  {
    if kids == [] then 0
    else BackedTotal(kids[..|kids| - 1], paths, values) + |BackedBy(paths, values, kids[|kids| - 1])|
  }

  /** Number of values that some nodes had at the start. */
  ghost function Known(kids: seq<MCTSNode>, start: map<MCTSNode, seq<real>>): nat {
    if kids == [] then 0
    else
      var c := kids[|kids| - 1];
      Known(kids[..|kids| - 1], start) + if c in start then |start[c]| else 0
  }

  lemma {:induction false} KnownNone(kids: seq<MCTSNode>, start: map<MCTSNode, seq<real>>)
    requires forall i :: 0 <= i < |kids| ==> kids[i] !in start
    ensures Known(kids, start) == 0
    decreases |kids|
  {
    if kids != [] {
      KnownNone(kids[..|kids| - 1], start);
    }
  }

  ghost function Hits(kids: seq<MCTSNode>, path: seq<MCTSNode>): nat {
    if kids == [] then 0 else Hits(kids[..|kids| - 1], path) + if kids[|kids| - 1] in path then 1 else 0
  }

  lemma {:induction false} HitsAdd(kids: seq<MCTSNode>, paths: seq<seq<MCTSNode>>, values: seq<real>)
    requires |values| == |paths| && paths != []
    ensures BackedTotal(kids, paths, values) ==
            BackedTotal(kids, paths[..|paths| - 1], values[..|paths| - 1]) + Hits(kids, paths[|paths| - 1])
    decreases |kids|
  {
    if kids != [] {
      HitsAdd(kids[..|kids| - 1], paths, values);
    }
  }

  lemma {:induction false} HitsNone(kids: seq<MCTSNode>, path: seq<MCTSNode>)
    requires forall i :: 0 <= i < |kids| ==> kids[i] !in path
    ensures Hits(kids, path) == 0
    decreases |kids|
  {
    if kids != [] {
      HitsNone(kids[..|kids| - 1], path);
    }
  }

  lemma {:induction false} HitsOne(kids: seq<MCTSNode>, path: seq<MCTSNode>, k: nat)
    requires k < |kids| && kids[k] in path && forall i :: 0 <= i < |kids| && i != k ==> kids[i] !in path
    ensures Hits(kids, path) == 1
    decreases |kids|
  {
    if k == |kids| - 1 {
      HitsNone(kids[..k], path);
    } else {
      HitsOne(kids[..|kids| - 1], path, k);
    }
  }

  /** If each path leads through exactly one of some nodes, the nodes take on one
      value per path between them. */
  lemma {:induction false} OneEach(kids: seq<MCTSNode>, paths: seq<seq<MCTSNode>>, values: seq<real>)
    requires |values| == |paths| && forall k :: 0 <= k < |paths| ==> Hits(kids, paths[k]) == 1
    ensures BackedTotal(kids, paths, values) == |paths|
    decreases |paths|
  {
    if paths == [] {
      NoneBacked(kids);
    } else {
      HitsAdd(kids, paths, values);
      OneEach(kids, paths[..|paths| - 1], values[..|paths| - 1]);
    }
  }

  lemma {:induction false} NoneBacked(kids: seq<MCTSNode>)
    ensures BackedTotal(kids, [], []) == 0
    decreases |kids|
  {
    if kids != [] {
      NoneBacked(kids[..|kids| - 1]);
    }
  }

  lemma {:induction false} VisitsAddUp(kids: seq<MCTSNode>, start: map<MCTSNode, seq<real>>,
                                       paths: seq<seq<MCTSNode>>, values: seq<real>)
    requires |values| == |paths| && forall i :: 0 <= i < |kids| ==>
      kids[i].visits == (if kids[i] in start then |start[kids[i]]| else 0) + |BackedBy(paths, values, kids[i])|
    ensures Sum(MCTSNode.VisitsOf(kids)) == (Known(kids, start) + BackedTotal(kids, paths, values)) as real
    decreases |kids|
  {
    if kids != [] {
      var m := |kids| - 1;
      assert MCTSNode.VisitsOf(kids)[..m] == MCTSNode.VisitsOf(kids[..m]);
      VisitsAddUp(kids[..m], start, paths, values);
    }
  }

  /** The boards of the open ends of paths, in order. */
  ghost function OpenEnds(paths: seq<seq<MCTSNode>>): seq<Board> {
    if paths == [] then []
    else
      var path := paths[|paths| - 1];
      OpenEnds(paths[..|paths| - 1]) +
      if path != [] && End(path).board.result == Undetermined then [End(path).board] else []
  }

  lemma OpenEndsNext(paths: seq<seq<MCTSNode>>, path: seq<MCTSNode>)
    requires path != []
    ensures OpenEnds(paths + [path]) ==
            OpenEnds(paths) + if End(path).board.result == Undetermined then [End(path).board] else []
  {
    assert (paths + [path])[..|paths|] == paths;
  }

  lemma {:induction false} OpenEndsConcat(paths: seq<seq<MCTSNode>>, more: seq<seq<MCTSNode>>)
    ensures OpenEnds(paths + more) == OpenEnds(paths) + OpenEnds(more)
    decreases |more|
  {
    if more == [] {
      assert paths + more == paths;
    } else {
      var m := |more| - 1;
      assert (paths + more)[..|paths| + m] == paths + more[..m];
      OpenEndsConcat(paths, more[..m]);
    }
  }

  /** A value as the search takes it: the result of a finished board, or what
      the cache serves for an open one. */
  ghost predicate ValueTaken(o: Oracle, looked: seq<SizedBoard>, path: seq<MCTSNode>, value: real)
    requires path != []
  {
    var end := End(path);
    && |end.board.cells| == N * N
    && if end.board.result != Undetermined then value == ValueForSeat(end.board, end.currentPlayer)
       else end.board in looked && value == ServedOpinion(o, looked, end.board).value
  }

  /** An open end was expanded with the policy that the cache serves for it. */
  ghost predicate PolicyTaken(o: Oracle, looked: seq<SizedBoard>, nd: MCTSNode)
    reads nd`isExpanded, nd`policy
  {
    && |nd.board.cells| == N * N
    && (nd.board.result == Undetermined ==> nd.isExpanded && nd.policy == ServedOpinion(o, looked, nd.board).pmf)
  }

  /** The outcome of a path: the result of a finished board, or the opinion on
      an open one, for the seat to move at its end. */
  ghost function Outcome(o: Oracle, path: seq<MCTSNode>): real
    requires path != [] && |End(path).board.cells| == N * N
  {
    var end := End(path);
    if end.board.result != Undetermined then ValueForSeat(end.board, end.currentPlayer)
    else Opinion(o, end.board).value
  }

  /** What a path is worth to a node on it: one for the seat that won at its end
      and minus one for the other, nothing after a draw; and at an open end what
      the cache serves there, to the seat to move there and negated to the other. */
  ghost function Gain(o: Oracle, looked: seq<SizedBoard>, path: seq<MCTSNode>, node: MCTSNode): real
    requires path != [] && |End(path).board.cells| == N * N
  {
    var end := End(path);
    match end.board.result
    case PlayerAWin => if node.currentPlayer == A then 1.0 else -1.0
    case PlayerBWin => if node.currentPlayer == B then 1.0 else -1.0
    case Draw => 0.0
    case Undetermined =>
      var served := ServedOpinion(o, looked, end.board).value;
      if node.currentPlayer == end.currentPlayer then served else -served
  }

  /** What the paths through a node are worth to it, in order. */
  ghost function Gains(o: Oracle, looked: seq<SizedBoard>, paths: seq<seq<MCTSNode>>, node: MCTSNode): seq<real>
    requires forall k :: 0 <= k < |paths| ==> paths[k] != [] && |End(paths[k]).board.cells| == N * N
  {
    if paths == [] then []
    else
      var last := paths[|paths| - 1];
      Gains(o, looked, paths[..|paths| - 1], node) + if node in last then [Gain(o, looked, last, node)] else []
  }

  /** The values backed up along the paths are just that. */
  lemma {:induction false} GainsAreBacked(o: Oracle, looked: seq<SizedBoard>, paths: seq<seq<MCTSNode>>,
                                          values: seq<real>, node: MCTSNode)
    requires |values| == |paths|
    requires forall k :: 0 <= k < |paths| ==> paths[k] != [] && |End(paths[k]).board.cells| == N * N
    requires forall k :: 0 <= k < |paths| ==> ValueTaken(o, looked, paths[k], values[k])
    ensures BackedBy(paths, values, node) == Gains(o, looked, paths, node)
    decreases |paths|
  {
    hide ServedOpinion;
    if paths != [] {
      var m := |paths| - 1;
      assert ValueTaken(o, looked, paths[m], values[m]);
      GainsAreBacked(o, looked, paths[..m], values[..m], node);
    }
  }

  /** What was taken is still what is served after more look-ups. */
  lemma TakenStays(o: Oracle, looked: seq<SizedBoard>, more: seq<SizedBoard>, path: seq<MCTSNode>, value: real)
    requires path != [] && ValueTaken(o, looked, path, value)
    ensures ValueTaken(o, looked + more, path, value)
    ensures PolicyTaken(o, looked, End(path)) ==> PolicyTaken(o, looked + more, End(path))
  {
    hide Sig, Served, Opinion;
    var b := End(path).board;
    if b.result == Undetermined {
      var k :| 0 <= k < |looked| && looked[k] == b;
      assert Sig(o, looked[k]) == Sig(o, b);
      ServedStays(o, looked, more, b);
    }
  }

  /** A finished board's value, or the index of a board to evaluate. */
  datatype Leaf = Terminal(value: real) | Open(index: nat)

  /** A leaf board in its slot, or the hole left while the evaluator has it. */
  datatype Slot = Present(board: SizedBoard) | MovedOut

  // ----- The tree -------------------------------------------------------

  class MCTS {
    const virtualLoss: nat
    const batchSize: nat
    const oracle: Oracle
    const cPuct: real
    const sqrt: int -> real
    var root: MCTSNode?
    var cache: map<seq<Word>, Evaluation>
    /** The nodes of the current tree. */
    ghost var nodes: set<MCTSNode>
    /** The boards looked up in the cache since it was last emptied, in order. */
    ghost var looked: seq<SizedBoard>

    constructor (batchSize: nat, cPuct: real, virtualLoss: nat, oracle: Oracle, sqrt: int -> real)
      requires batchSize >= 1 && cPuct >= 0.0
      ensures Valid() && root == null && nodes == {} && this.oracle == oracle
      ensures this.batchSize == batchSize && this.cPuct == cPuct && this.virtualLoss == virtualLoss && this.sqrt == sqrt
    {
      this.batchSize, this.cPuct, this.virtualLoss := batchSize, cPuct, virtualLoss;
      this.oracle, this.sqrt := oracle, sqrt;
      root, nodes, cache, looked := null, {}, map[], [];
    }

    /** A node agrees with its board, and its children are in the tree. */
    ghost predicate LocalOk(nd: MCTSNode)
      reads `nodes, nd`isExpanded, nd`children, nd`policy, nodes`priorProb
    {
      Shape(nd, nodes) && nd.PriorsAre(nd.policy)
    }

    static ghost predicate Shape(nd: MCTSNode, nodes: set<MCTSNode>)
      reads nd`isExpanded, nd`children
    {
      && Inv(N, nd.board) && nd.currentPlayer == nd.board.seat
      && (nd.isExpanded ==> nd.ChildrenMatch())
      && (!nd.isExpanded ==> nd.children == [])
      && forall i :: 0 <= i < |nd.children| ==> nd.children[i] in nodes
    }

    ghost predicate TreeOk()
      reads `nodes, `root, nodes`isExpanded, nodes`children, nodes`policy, nodes`priorProb
    {
      (root != null ==> root in nodes) && forall nd :: nd in nodes ==> LocalOk(nd)
    }

    ghost predicate StatsOk()
      reads `nodes, nodes`visits, nodes`valueSum, nodes`backed, nodes`pending
    {
      forall nd :: nd in nodes ==> nd.StatsOk(virtualLoss)
    }

    ghost predicate Valid()
      reads this, nodes
    {
      TreeOk() && StatsOk() && CacheOk() && forall nd :: nd in nodes ==> nd.pending == 0
    }

    /** The cache holds one entry for each signature that was looked up: the
        opinion on the first board with that signature. */
    ghost predicate CacheOk()
      reads `cache, `looked
    {
      && (forall b :: b in looked ==> Inv(N, b))
      && (forall s :: s in cache ==> SigAmong(oracle, looked, s))
      && forall b :: b in looked ==> EntryOk(b)
    }

    ghost predicate EntryOk(b: SizedBoard)
      reads `cache, `looked
    {
      Sig(oracle, b) in cache && cache[Sig(oracle, b)] == ServedOpinion(oracle, looked, b)
    }

    // ----- Selection ------------------------------------------------------

    /** A path down from the root: each node was created under the one before,
        and no node occurs twice. */
    ghost predicate PathOk(path: seq<MCTSNode>)
      reads `nodes, `root
    {
      PathIn(path, nodes, root)
    }

    static ghost predicate PathIn(path: seq<MCTSNode>, nodes: set<MCTSNode>, root: MCTSNode?) {
      && path != [] && path[0] == root
      && (forall j :: 0 <= j < |path| ==> path[j] in nodes)
      && (forall j :: 0 < j < |path| ==> path[j].parent == path[j - 1] && path[j].selector == path[j - 1].currentPlayer)
      && (forall i, j :: 0 <= i < j < |path| ==> path[i] != path[j])
    }

    /** Such a path in the tree as it stands: from the root from child to child
        to a node without children. */
    ghost predicate Descends(path: seq<MCTSNode>)
      reads `nodes, `root, nodes`isExpanded, nodes`children
    {
      && PathOk(path) && Linked(path)
      && !(End(path).isExpanded && End(path).children != [])
    }

    ghost predicate Linked(path: seq<MCTSNode>)
      reads path`children
    {
      forall j :: 0 < j < |path| ==> path[j] in path[j - 1].children
    }

    /** While the defensive mask is active, children of the root without a
        positive prior are passed over. */
    predicate Eligible(node: MCTSNode, child: MCTSNode, mask: bool)
      reads `root, child`priorProb
    {
      !(node == root && mask && child.priorProb <= 0.0)
    }

    ghost predicate SomeEligible(mask: bool)
      reads `root, (if root == null then {} else {root})`children
      reads (if root == null then {} else set c | c in root.children)`priorProb
    {
      mask && root != null && root.children != [] ==> exists c :: c in root.children && c.priorProb > 0.0
    }

    /** What selection compares. */
    function Attraction(node: MCTSNode, child: MCTSNode): real
      requires child.visits >= 0
      reads node`visits, child`visits, child`valueSum, child`priorProb
    {
      Puct(node.currentPlayer == child.currentPlayer, child.visits, child.valueSum, child.priorProb, cPuct,
           sqrt(node.visits))
    }

    ghost function Snapshot(): map<MCTSNode, Stat>
      reads `nodes, nodes`visits, nodes`valueSum
    {
      map nd | nd in nodes :: Stat(nd.visits, nd.valueSum)
    }

    /** The statistics once the nodes have been charged for some paths. */
    ghost function ChargedBy(paths: seq<seq<MCTSNode>>, at: map<MCTSNode, Stat>): map<MCTSNode, Stat> {
      map nd | nd in at :: Charged(at[nd], virtualLoss * Outstanding(paths, nd), nd.LossSign(nd.selector))
    }

    /** The child of greatest attraction among the eligible ones, by given
        statistics and with the node charged so many more visits. */
    ghost predicate BestStep(at: map<MCTSNode, Stat>, node: MCTSNode, child: MCTSNode, mask: bool, charge: int)
      reads `nodes, `root, node`children, nodes`priorProb
    {
      && node in at && child in node.children
      && forall c :: c in node.children ==>
        && c in nodes && child in nodes && c in at && child in at && at[c].visits >= 0 && at[child].visits >= 0
        && (Eligible(node, c, mask) ==> Compared(at, node, c, charge) <= Compared(at, node, child, charge))
    }

    ghost function Compared(at: map<MCTSNode, Stat>, node: MCTSNode, child: MCTSNode, charge: int): real
      requires node in at && child in at && at[child].visits >= 0
      reads child`priorProb
    {
      Puct(node.currentPlayer == child.currentPlayer, at[child].visits, at[child].valueSum, child.priorProb, cPuct,
           sqrt(at[node].visits + charge))
    }

    /** What makes a child attractive: its mean value, taken for the seat to move at
        the node, and its prior, both shared out over its visits. */
    lemma {:induction false} AttractionMeans(node: MCTSNode, child: MCTSNode) returns (mean: real, explore: real)
      requires child.visits >= 0
      ensures Attraction(node, child) == mean + explore && (child.visits == 0 ==> mean == 0.0)
      ensures child.visits > 0 ==>
        mean * child.visits as real ==
        if child.currentPlayer == node.currentPlayer then child.valueSum else -child.valueSum
      ensures explore * (1.0 + child.visits as real) == cPuct * child.priorProb * sqrt(node.visits)
    {
      hide Puct;
      mean, explore := PuctMeans(node.currentPlayer == child.currentPlayer, child.visits, child.valueSum,
                                 child.priorProb, cPuct, sqrt(node.visits));
    }

    /** So it is by given statistics. */
    lemma {:induction false} ComparedMeans(at: map<MCTSNode, Stat>, node: MCTSNode, child: MCTSNode, charge: int)
      returns (mean: real, explore: real)
      requires node in at && child in at && at[child].visits >= 0
      ensures Compared(at, node, child, charge) == mean + explore && (at[child].visits == 0 ==> mean == 0.0)
      ensures at[child].visits > 0 ==>
        mean * at[child].visits as real ==
        if child.currentPlayer == node.currentPlayer then at[child].valueSum else -at[child].valueSum
      ensures explore * (1.0 + at[child].visits as real) == cPuct * child.priorProb * sqrt(at[node].visits + charge)
    {
      hide Puct;
      mean, explore := PuctMeans(node.currentPlayer == child.currentPlayer, at[child].visits, at[child].valueSum,
                                 child.priorProb, cPuct, sqrt(at[node].visits + charge));
    }

    /** A walk takes the best step everywhere, by the statistics at its start
        and the virtual losses it has charged itself. */
    ghost predicate Greedy(at: map<MCTSNode, Stat>, path: seq<MCTSNode>, mask: bool)
      requires PathOk(path)
      reads `nodes, `root, nodes`children, nodes`priorProb
    {
      forall j :: 0 < j < |path| ==> BestStep(at, path[j - 1], path[j], mask, if j > 1 then virtualLoss else 0)
    }

    /** An eligible child of greatest attraction; ties go to any of them. */
    method ChooseChild(node: MCTSNode, mask: bool) returns (best: nat)
      requires forall c :: c in node.children ==> c.visits >= 0
      requires exists i :: 0 <= i < |node.children| && Eligible(node, node.children[i], mask)
      ensures best < |node.children| && Eligible(node, node.children[best], mask)
      ensures forall i :: 0 <= i < |node.children| && Eligible(node, node.children[i], mask) ==>
        Attraction(node, node.children[i]) <= Attraction(node, node.children[best])
    {
      hide Eligible, Attraction;
      var chosen, maxPuct := -1, 0.0;
      for i := 0 to |node.children|
        invariant -1 <= chosen < i
        invariant chosen == -1 ==> forall k :: 0 <= k < i ==> !Eligible(node, node.children[k], mask)
        invariant chosen >= 0 ==>
          Eligible(node, node.children[chosen], mask) && maxPuct == Attraction(node, node.children[chosen])
        invariant chosen >= 0 ==> forall k :: 0 <= k < i && Eligible(node, node.children[k], mask) ==>
          Attraction(node, node.children[k]) <= maxPuct
      {
        if !Eligible(node, node.children[i], mask) {
          continue;
        }
        var puct := Attraction(node, node.children[i]);
        if chosen == -1 || puct > maxPuct {
          chosen, maxPuct := i, puct;
        } else if puct == maxPuct {
          if * {
            chosen := i;
          }
        }
      }
      best := chosen;
    }

    /** Walks from the root to a leaf by attraction, charging a virtual loss on
        every edge. */
    method SelectPath(rootBoard: Board, mask: bool) returns (path: seq<MCTSNode>, leafBoard: Board)
      requires TreeOk() && StatsOk() && root != null && root.board == rootBoard && SomeEligible(mask)
      requires forall nd :: nd in nodes ==> nd.pending >= 0
      modifies nodes`visits, nodes`valueSum, nodes`pending
      ensures TreeOk() && StatsOk() && Descends(path) && Greedy(old(Snapshot()), path, mask)
      ensures mask && |path| > 1 ==> path[1].priorProb > 0.0
      ensures End(path).board == leafBoard
      ensures leafBoard.result == Undetermined ==> !End(path).isExpanded
      ensures forall nd :: nd in nodes ==> nd.pending == old(nd.pending) + if nd in path[1..] then 1 else 0
    {
      hide Inv, ApplyCpp, LegalAction, Remaining, MCTSNode.StatsOk, LocalOk, PathIn, SomeEligible, Eligible;
      hide TreeOk, StatsOk, Linked, Snapshot, Greedy, Walking, BestStep, ChargedOne;
      ghost var start := Snapshot();
      var node: MCTSNode := root;
      leafBoard := rootBoard;
      RootInTree();
      AllVisits();
      path := [node];
      PathStarts(node);
      WalkStarts(start, path, mask);
      while node.isExpanded && node.children != []
        invariant TreeOk() && StatsOk() && path != [] && path[0] == root && PathOk(path) && Linked(path)
        invariant mask && |path| > 1 ==> path[1].priorProb > 0.0
        invariant node in nodes && node == End(path) && node.board == leafBoard && (node == root ==> |path| == 1)
        invariant forall nd :: nd in nodes ==> nd.pending == old(nd.pending) + if nd in path[1..] then 1 else 0
        invariant forall nd :: nd in path ==> nd in nodes && Remaining(N, nd.board) >= Remaining(N, leafBoard)
        invariant Walking(start, Snapshot(), path) && Greedy(start, path, mask)
        decreases Remaining(N, leafBoard)
      {
        var parent := node;
        KidsOffPath(path, parent);
        ghost var at := Snapshot();
        node := StepDown(parent, mask);
        PathExtends(path, node);
        WalkOn(start, at, Snapshot(), path, node, mask);
        leafBoard := ApplyCpp(N, leafBoard, node.actionId);
        path := path + [node];
      }
      LeafFacts(node);
    }

    /** Statistics in the middle of a walk: each node on the path but the root has
        been charged, nothing else has changed. */
    ghost predicate Walking(start: map<MCTSNode, Stat>, at: map<MCTSNode, Stat>, path: seq<MCTSNode>) {
      && at.Keys == start.Keys && (forall nd :: nd in at ==> start[nd].visits >= 0)
      && (forall nd :: nd in at ==>
            at[nd].visits == start[nd].visits + if path != [] && nd in path[1..] then virtualLoss else 0)
      && forall nd :: nd in at && nd !in path ==> at[nd].valueSum == start[nd].valueSum
    }

    ghost predicate ChargedOne(at: map<MCTSNode, Stat>, next: map<MCTSNode, Stat>, node: MCTSNode) {
      && next.Keys == at.Keys
      && (forall nd :: nd in at ==> next[nd].visits == at[nd].visits + if nd == node then virtualLoss else 0)
      && forall nd :: nd in at && nd != node ==> next[nd].valueSum == at[nd].valueSum
    }

    /** Each path of a batch is walked greedily, by the statistics at the start of
        the batch and the losses charged for the paths before it. */
    ghost predicate AllGreedy(start: map<MCTSNode, Stat>, paths: seq<seq<MCTSNode>>, mask: bool)
      requires forall k :: 0 <= k < |paths| ==> PathOk(paths[k])
      reads `nodes, `root, nodes`children, nodes`priorProb
    {
      forall k :: 0 <= k < |paths| ==> Greedy(ChargedBy(paths[..k], start), paths[k], mask)
    }

    lemma AllGreedyNext(start: map<MCTSNode, Stat>, paths: seq<seq<MCTSNode>>, path: seq<MCTSNode>, mask: bool)
      requires PathOk(path) && (forall k :: 0 <= k < |paths| ==> PathOk(paths[k]))
      requires AllGreedy(start, paths, mask) && Greedy(ChargedBy(paths, start), path, mask)
      ensures forall k :: 0 <= k < |paths + [path]| ==> PathOk((paths + [path])[k])
      ensures AllGreedy(start, paths + [path], mask)
    {
      hide PathIn, Greedy, ChargedBy;
      var longer := paths + [path];
      forall k | 0 <= k < |longer| ensures Greedy(ChargedBy(longer[..k], start), longer[k], mask) {
        assert longer[..k] == paths[..k];
      }
    }

    /** Statistics without outstanding losses are the values backed up. */
    ghost predicate AtRest(start: map<MCTSNode, Stat>)
      reads `nodes, nodes`backed
    {
      start.Keys == nodes && forall nd :: nd in nodes ==> start[nd] == Stat(|nd.backed|, Sum(nd.backed))
    }

    /** Before any loss is charged the statistics are the values backed up. */
    lemma StartRests()
      requires Valid()
      ensures Snapshot().Keys == AllBacked().Keys == nodes
      ensures forall nd :: nd in nodes ==> Snapshot()[nd] == Stat(|AllBacked()[nd]|, Sum(AllBacked()[nd]))
    {
      hide Sum, TreeOk, CacheOk;
      StartAtRest();
    }

    lemma StartAtRest()
      requires StatsOk() && forall nd :: nd in nodes ==> nd.pending == 0
      ensures AtRest(Snapshot())
    {
      hide Sum, Bounded;
      forall nd | nd in nodes ensures nd.visits == |nd.backed| && nd.valueSum == Sum(nd.backed) {
        assert nd.StatsOk(virtualLoss);
      }
    }

    lemma SnapshotIsCharged(start: map<MCTSNode, Stat>, paths: seq<seq<MCTSNode>>)
      requires AtRest(start) && StatsOk() && forall nd :: nd in nodes ==> nd.pending == Outstanding(paths, nd)
      ensures Snapshot() == ChargedBy(paths, start)
    {
      hide Sum, Bounded, Outstanding, MCTSNode.LossSign;
      forall nd | nd in nodes
        ensures Stat(nd.visits, nd.valueSum) ==
          Charged(start[nd], virtualLoss * Outstanding(paths, nd), nd.LossSign(nd.selector))
      {
        assert nd.StatsOk(virtualLoss);
      }
    }

    lemma WalkStarts(start: map<MCTSNode, Stat>, path: seq<MCTSNode>, mask: bool)
      requires start == Snapshot() && |path| == 1 && PathOk(path) && forall nd :: nd in nodes ==> nd.visits >= 0
      ensures Walking(start, start, path) && Greedy(start, path, mask)
    {
    }

    /** One more step of a walk, given the statistics before it. */
    lemma WalkOn(start: map<MCTSNode, Stat>, at: map<MCTSNode, Stat>, next: map<MCTSNode, Stat>,
                 path: seq<MCTSNode>, node: MCTSNode, mask: bool)
      requires PathOk(path) && (End(path) == root ==> |path| == 1)
      requires forall c :: c in End(path).children ==> c !in path
      requires Walking(start, at, path) && ChargedOne(at, next, node)
      requires BestStep(at, End(path), node, mask, 0) && Greedy(start, path, mask) && PathOk(path + [node])
      ensures Walking(start, next, path + [node]) && Greedy(start, path + [node], mask)
    {
      hide Puct, Eligible;
      var parent, longer := End(path), path + [node];
      var charge := if |path| > 1 then virtualLoss else 0;
      assert longer[1..] == path[1..] + [node];
      assert |path| > 1 ==> path[1..][|path| - 2] == parent;
      forall c | c in parent.children
        ensures c in start && start[c].visits >= 0 && Compared(start, parent, c, charge) == Compared(at, parent, c, 0)
      {
        assert c !in path[1..];
      }
      assert BestStep(start, parent, node, mask, charge);
      forall j | 0 < j < |longer|
        ensures BestStep(start, longer[j - 1], longer[j], mask, if j > 1 then virtualLoss else 0)
      {
        if j < |path| {
          assert longer[j - 1] == path[j - 1] && longer[j] == path[j];
        }
      }
    }

    lemma AllVisits()
      requires StatsOk() && forall nd :: nd in nodes ==> nd.pending >= 0
      ensures forall nd :: nd in nodes ==> nd.visits >= 0
    {
      forall nd | nd in nodes ensures nd.visits >= 0 {
        assert nd.StatsOk(virtualLoss);
      }
    }

    lemma KidsOffPath(path: seq<MCTSNode>, parent: MCTSNode)
      requires TreeOk() && parent in nodes && parent.isExpanded
      requires forall nd :: nd in path ==> Remaining(N, nd.board) >= Remaining(N, parent.board)
      ensures forall c :: c in parent.children ==> c in nodes && c !in path
    {
      hide TreeOk, Inv, Remaining, ApplyCpp, LegalAction, Shaped;
      forall c | c in parent.children ensures c in nodes && c !in path {
        var i :| 0 <= i < |parent.children| && parent.children[i] == c;
        ChildFacts(parent, i);
      }
    }

    lemma RootInTree()
      requires TreeOk() && root != null
      ensures root in nodes
    {
    }

    /** Takes one edge, the most attractive one that is eligible, and charges it. */
    method StepDown(parent: MCTSNode, mask: bool) returns (node: MCTSNode)
      requires TreeOk() && StatsOk() && parent in nodes && parent.isExpanded && parent.children != []
      requires SomeEligible(mask)
      requires forall nd :: nd in nodes ==> nd.pending >= 0
      modifies nodes`visits, nodes`valueSum, nodes`pending
      ensures TreeOk() && StatsOk() && node in nodes && node in parent.children && node.parent == parent
      ensures node.selector == parent.currentPlayer && old(node.visits) >= 0
      ensures forall c :: c in parent.children && Eligible(parent, c, mask) ==>
        old(c.visits) >= 0 && old(Attraction(parent, c)) <= old(Attraction(parent, node))
      ensures BestStep(old(Snapshot()), parent, node, mask, 0)
      ensures mask && parent == root ==> node.priorProb > 0.0
      ensures Shaped(N, parent.board) && node.board == ApplyCpp(N, parent.board, node.actionId)
      ensures Remaining(N, parent.board) > Remaining(N, node.board) >= 0
      ensures forall nd :: nd in nodes ==> nd.pending == old(nd.pending) + if nd == node then 1 else 0
      ensures ChargedOne(old(Snapshot()), Snapshot(), node)
    {
      hide Inv, ApplyCpp, LegalAction, Remaining, MCTSNode.StatsOk, LocalOk, SomeEligible, Attraction;
      VisitsOfChildren(parent);
      EligibleExists(parent, mask);
      var i := ChooseChild(parent, mask);
      ChildFacts(parent, i);
      node := parent.children[i];
      StepIsBest(parent, node, mask);
      node.AddVirtualLoss(parent.currentPlayer, virtualLoss);
    }

    lemma StepIsBest(parent: MCTSNode, node: MCTSNode, mask: bool)
      requires parent in nodes && node in parent.children
      requires forall c :: c in parent.children ==> c in nodes && c.visits >= 0
      requires forall c :: c in parent.children && Eligible(parent, c, mask) ==>
        Attraction(parent, c) <= Attraction(parent, node)
      ensures BestStep(Snapshot(), parent, node, mask, 0)
    {
      hide Puct, Eligible;
    }

    lemma VisitsOfChildren(node: MCTSNode)
      requires TreeOk() && StatsOk() && node in nodes && forall nd :: nd in nodes ==> nd.pending >= 0
      ensures forall c :: c in node.children ==> c in nodes && c.visits >= 0
    {
      hide Inv, MCTSNode.ChildrenMatch, Bounded;
      assert LocalOk(node);
      forall c | c in node.children ensures c in nodes && c.visits >= 0 {
        assert c in nodes && c.StatsOk(virtualLoss);
      }
    }

    lemma EligibleExists(node: MCTSNode, mask: bool)
      requires node.children != [] && SomeEligible(mask)
      ensures exists i :: 0 <= i < |node.children| && Eligible(node, node.children[i], mask)
    {
      if node == root && mask {
        var c :| c in root.children && c.priorProb > 0.0;
        var i :| 0 <= i < |node.children| && node.children[i] == c;
        assert Eligible(node, node.children[i], mask);
      } else {
        assert Eligible(node, node.children[0], mask);
      }
    }

    lemma PathStarts(node: MCTSNode)
      requires node == root && node in nodes
      ensures PathOk([node]) && Linked([node])
    {
    }

    lemma PathExtends(path: seq<MCTSNode>, node: MCTSNode)
      requires PathOk(path) && node in nodes && node !in path
      requires node.parent == End(path) && node.selector == End(path).currentPlayer
      requires Linked(path) && node in End(path).children
      ensures PathOk(path + [node]) && Linked(path + [node]) && node != root
      ensures (path + [node])[1..] == path[1..] + [node]
    {
    }

    lemma ChildFacts(parent: MCTSNode, i: nat)
      requires TreeOk() && parent in nodes && parent.isExpanded && i < |parent.children|
      ensures var c := parent.children[i];
        && c in nodes && Inv(N, parent.board) && Shaped(N, parent.board) && LegalAction(N, parent.board, c.actionId)
        && c.board == ApplyCpp(N, parent.board, c.actionId) && c.parent == parent && c.selector == parent.currentPlayer
        && Remaining(N, parent.board) > Remaining(N, c.board) >= 0
    {
      hide Inv, Remaining, ApplyCpp;
      assert LocalOk(parent) && parent.IsChild(parent.children[i]);
      InvShaped(N, parent.board);
      ApplyUsesUpRemaining(N, parent.board, parent.children[i].actionId);
    }

    /** A live board is never mistaken for a finished one: an expanded node of a
        live board has children. */
    lemma LeafFacts(node: MCTSNode)
      requires TreeOk() && node in nodes && !(node.isExpanded && node.children != [])
      ensures node.board.result == Undetermined ==> !node.isExpanded
    {
      assert LocalOk(node);
      if node.board.result == Undetermined && node.isExpanded {
        LiveBoardHasMove(N, node.board);
        assert false;
      }
    }

    // ----- Backing up ------------------------------------------------------

    /** Takes the virtual losses of a path back and adds the leaf value to every
        node on it, seen from each node's own side. */
    method Backup(path: seq<MCTSNode>, value: real)
      requires TreeOk() && StatsOk() && PathOk(path) && -1.0 <= value <= 1.0
      modifies nodes`visits, nodes`valueSum, nodes`pending, nodes`backed
      ensures TreeOk() && StatsOk()
      ensures forall nd :: nd in nodes ==> nd.pending == old(nd.pending) - if nd in path[1..] then 1 else 0
      ensures forall nd :: nd in nodes ==>
        nd.backed == old(nd.backed) +
                     if nd in path then [if nd.currentPlayer == End(path).currentPlayer then value else -value] else []
    {
      hide MCTSNode.StatsOk, Inv, TreeOk, StatsOk, PathIn, Shape, Signed, MCTSNode.PriorsAre;
      PathInFacts(path);
      TreeFacts();
      var leafSeat := End(path).currentPlayer;
      for j := 0 to |path|
        invariant forall nd :: nd in nodes ==> nd.StatsOk(virtualLoss)
        invariant forall nd :: nd in nodes ==>
          nd.pending == old(nd.pending) - if j > 0 && nd in path[1..j] then 1 else 0
        invariant forall nd :: nd in nodes ==>
          nd.backed == old(nd.backed) + if nd in path[..j] then [Signed(nd, leafSeat, value)] else []
      {
        var nd := path[j];
        assert nd !in path[..j] && path[..j + 1] == path[..j] + [nd];
        if j > 0 {
          assert path[1..j + 1] == path[1..j] + [nd];
        }
        SignedBounded(nd, leafSeat, value);
        var selector := if j > 0 then Parent(path[j - 1].currentPlayer) else NoParent;
        nd.Settle(selector, Signed(nd, leafSeat, value), virtualLoss);
      }
      assert path[..|path|] == path;
      AllStats();
      forall nd | nd in path
        ensures Signed(nd, leafSeat, value) == if nd.currentPlayer == leafSeat then value else -value
      {
        SignedMeans(nd, leafSeat, value);
      }
    }

    lemma PathInFacts(path: seq<MCTSNode>)
      requires PathOk(path)
      ensures path != [] && forall j :: 0 <= j < |path| ==> path[j] in nodes
      ensures forall j :: 0 < j < |path| ==> path[j].selector == path[j - 1].currentPlayer
      ensures forall i, j :: 0 <= i < j < |path| ==> path[i] != path[j]
    {
    }

    lemma AllStats()
      requires forall nd :: nd in nodes ==> nd.StatsOk(virtualLoss)
      ensures StatsOk()
    {
    }

    lemma SignedMeans(nd: MCTSNode, leafSeat: Seat, value: real)
      ensures Signed(nd, leafSeat, value) == if nd.currentPlayer == leafSeat then value else -value
    {
    }

    lemma SignedBounded(nd: MCTSNode, leafSeat: Seat, value: real)
      requires -1.0 <= value <= 1.0
      ensures -1.0 <= Signed(nd, leafSeat, value) <= 1.0
    {
    }

    // ----- The evaluation cache ---------------------------------------------

    /** Looks the leaves up in the cache. Those that are not in it yet are
        evaluated, each signature once: they are moved out for the evaluator and
        moved back by index. */
    method EvaluateLeaves(leafBoards: seq<SizedBoard>) returns (boards: seq<SizedBoard>)
      requires CacheOk() && forall b :: b in leafBoards ==> Inv(N, b)
      modifies `cache, `looked
      ensures CacheOk() && boards == leafBoards && looked == old(looked) + leafBoards && KeepsEntries()
    {
      hide Sig, SigAmong, Opinion, CacheOk, Served, Inv;
      LookedUpIsCached();
      var slots, missed, indices := MoveOutMisses(leafBoards);
      FillCache(missed);
      boards := MoveBack(leafBoards, slots, missed, indices);
      NoteLookUps(leafBoards, missed);
    }

    lemma LookedUpIsCached()
      requires CacheOk()
      ensures forall b :: b in looked ==> Inv(N, b) && EntryOk(b)
      ensures forall s :: s in cache <==> SigAmong(oracle, looked, s)
    {
      hide Sig, ServedOpinion, Inv;
      forall s | SigAmong(oracle, looked, s) ensures s in cache {
        var k :| 0 <= k < |looked| && Sig(oracle, looked[k]) == s;
        assert EntryOk(looked[k]);
      }
    }

    /** Entries stay as they are. */
    twostate predicate KeepsEntries()
      reads `cache
    {
      forall s :: s in old(cache) ==> s in cache && cache[s] == old(cache)[s]
    }

    /** Accounts for the leaves of a batch once their misses are in the cache. */
    ghost method NoteLookUps(leafBoards: seq<SizedBoard>, missed: seq<SizedBoard>)
      requires forall b :: b in looked + leafBoards ==> Inv(N, b)
      requires forall s :: s in cache ==> SigAmong(oracle, looked, s) || SigAmong(oracle, missed, s)
      requires forall b :: b in looked ==> EntryOk(b)
      requires forall b :: b in missed ==>
        b in leafBoards && Sig(oracle, b) in cache && cache[Sig(oracle, b)] == Opinion(oracle, b) &&
        !SigAmong(oracle, looked, Sig(oracle, b))
      requires forall b :: b in leafBoards ==>
        SigAmong(oracle, looked, Sig(oracle, b)) || Served(oracle, leafBoards, b) in missed
      modifies `looked
      ensures CacheOk() && looked == old(looked) + leafBoards
    {
      hide Sig, SigAmong, Opinion, Served, Inv;
      ghost var before := looked;
      looked := looked + leafBoards;
      forall b | b in looked ensures EntryOk(b) {
        if SigAmong(oracle, before, Sig(oracle, b)) {
          OldEntry(before, leafBoards, b);
        } else {
          NewEntry(before, leafBoards, missed, b);
        }
      }
      forall s | s in cache ensures SigAmong(oracle, looked, s) {
        AmongBoth(before, leafBoards, missed, s);
      }
    }

    lemma OldEntry(before: seq<SizedBoard>, more: seq<SizedBoard>, b: SizedBoard)
      requires looked == before + more && SigAmong(oracle, before, Sig(oracle, b))
      requires forall c :: c in before ==>
        Sig(oracle, c) in cache && cache[Sig(oracle, c)] == ServedOpinion(oracle, before, c)
      ensures EntryOk(b)
    {
      hide Sig, Opinion, Served;
      var k :| 0 <= k < |before| && Sig(oracle, before[k]) == Sig(oracle, b);
      ServedAlike(oracle, before, before[k], b);
      ServedStays(oracle, before, more, b);
    }

    lemma NewEntry(before: seq<SizedBoard>, more: seq<SizedBoard>, missed: seq<SizedBoard>, b: SizedBoard)
      requires looked == before + more && !SigAmong(oracle, before, Sig(oracle, b)) && b in looked
      requires b in more ==> Served(oracle, more, b) in missed
      requires forall c :: c in missed ==> Sig(oracle, c) in cache && cache[Sig(oracle, c)] == Opinion(oracle, c)
      ensures EntryOk(b)
    {
      hide Sig, Opinion, Served;
      assert b in more;
      ServedLater(oracle, before, more, b);
    }

    lemma AmongBoth(before: seq<SizedBoard>, more: seq<SizedBoard>, missed: seq<SizedBoard>, s: seq<Word>)
      requires looked == before + more && forall b :: b in missed ==> b in more
      requires SigAmong(oracle, before, s) || SigAmong(oracle, missed, s)
      ensures SigAmong(oracle, looked, s)
    {
      hide Sig;
      if SigAmong(oracle, before, s) {
        var k :| 0 <= k < |before| && Sig(oracle, before[k]) == s;
        assert looked[k] == before[k];
      } else {
        var k :| 0 <= k < |missed| && Sig(oracle, missed[k]) == s;
        assert missed[k] in more;
        var j :| 0 <= j < |more| && more[j] == missed[k];
        assert looked[|before| + j] == more[j];
      }
    }

    method MoveOutMisses(leafBoards: seq<SizedBoard>)
      returns (slots: seq<Slot>, missed: seq<SizedBoard>, indices: seq<nat>)
      ensures |slots| == |leafBoards| && |missed| == |indices|
      ensures forall k :: 0 <= k < |missed| ==> indices[k] < |leafBoards| && missed[k] == leafBoards[indices[k]]
      ensures forall k :: 0 <= k < |slots| && k !in indices ==> slots[k] == Present(leafBoards[k])
      ensures forall b :: b in leafBoards ==> Sig(oracle, b) in cache || Served(oracle, leafBoards, b) in missed
      ensures forall k :: 0 <= k < |missed| ==> Sig(oracle, missed[k]) !in cache
      ensures forall j, k :: 0 <= j < k < |missed| ==> Sig(oracle, missed[j]) != Sig(oracle, missed[k])
    {
      hide Sig, Served, SigAmong;
      slots := seq(|leafBoards|, i requires 0 <= i < |leafBoards| => Present(leafBoards[i]));
      missed, indices := [], [];
      for i := 0 to |leafBoards|
        invariant |slots| == |leafBoards| && |missed| == |indices|
        invariant forall k :: 0 <= k < |missed| ==> indices[k] < i && missed[k] == leafBoards[indices[k]]
        invariant forall k :: 0 <= k < |slots| && k !in indices ==> slots[k] == Present(leafBoards[k])
        invariant forall k :: 0 <= k < i ==>
          Sig(oracle, leafBoards[k]) in cache || Served(oracle, leafBoards, leafBoards[k]) in missed
        invariant forall k :: 0 <= k < |missed| ==>
          Sig(oracle, missed[k]) !in cache && Served(oracle, leafBoards, missed[k]) == missed[k]
        invariant forall j, k :: 0 <= j < k < |missed| ==> Sig(oracle, missed[j]) != Sig(oracle, missed[k])
      {
        assert slots[i] == Present(leafBoards[i]);
        var board := slots[i].board;
        if Sig(oracle, board) in cache {
          continue;
        }
        if SigAmong(oracle, missed, Sig(oracle, board)) {
          MissedAlready(leafBoards, missed, board);
          continue;
        }
        FirstMiss(leafBoards, missed, i);
        NotAmong(missed, Sig(oracle, board));
        missed, indices := missed + [board], indices + [i];
        slots := slots[i := MovedOut];
      }
    }

    lemma MissedAlready(leafBoards: seq<SizedBoard>, missed: seq<SizedBoard>, b: SizedBoard)
      requires SigAmong(oracle, missed, Sig(oracle, b)) && b in leafBoards
      requires forall k :: 0 <= k < |missed| ==> Served(oracle, leafBoards, missed[k]) == missed[k]
      ensures Served(oracle, leafBoards, b) in missed
    {
      hide Sig, Served;
      var k :| 0 <= k < |missed| && Sig(oracle, missed[k]) == Sig(oracle, b);
      var j :| 0 <= j < |leafBoards| && leafBoards[j] == b;
      assert Sig(oracle, leafBoards[j]) == Sig(oracle, b);
      ServedAlike(oracle, leafBoards, b, missed[k]);
    }

    /** A leaf that misses the cache and the earlier misses is the first of its
        signature. */
    lemma FirstMiss(leafBoards: seq<SizedBoard>, missed: seq<SizedBoard>, i: nat)
      requires i < |leafBoards| && Sig(oracle, leafBoards[i]) !in cache
      requires !SigAmong(oracle, missed, Sig(oracle, leafBoards[i]))
      requires forall k :: 0 <= k < i ==>
        Sig(oracle, leafBoards[k]) in cache || Served(oracle, leafBoards, leafBoards[k]) in missed
      ensures Served(oracle, leafBoards, leafBoards[i]) == leafBoards[i]
    {
      hide Sig, Served;
      forall j | 0 <= j < i ensures Sig(oracle, leafBoards[j]) != Sig(oracle, leafBoards[i]) {
        if Sig(oracle, leafBoards[j]) !in cache {
          var k :| 0 <= k < |missed| && missed[k] == Served(oracle, leafBoards, leafBoards[j]);
          assert Sig(oracle, missed[k]) == Sig(oracle, leafBoards[j]);
        }
      }
      ServedFirst(oracle, leafBoards, i);
    }

    lemma NotAmong(boards: seq<SizedBoard>, s: seq<Word>)
      requires !SigAmong(oracle, boards, s)
      ensures forall k :: 0 <= k < |boards| ==> Sig(oracle, boards[k]) != s
    {
      hide Sig;
    }

    method MoveBack(leafBoards: seq<SizedBoard>, moved: seq<Slot>, missed: seq<SizedBoard>, indices: seq<nat>)
      returns (boards: seq<SizedBoard>)
      requires |moved| == |leafBoards| && |missed| == |indices|
      requires forall k :: 0 <= k < |missed| ==> indices[k] < |leafBoards| && missed[k] == leafBoards[indices[k]]
      requires forall k :: 0 <= k < |moved| && k !in indices ==> moved[k] == Present(leafBoards[k])
      ensures boards == leafBoards
    {
      var slots := moved;
      for k := 0 to |missed|
        invariant |slots| == |leafBoards|
        invariant forall j :: 0 <= j < |slots| && j !in indices[k..] ==> slots[j] == Present(leafBoards[j])
      {
        assert forall j :: j in indices[k..] ==> j == indices[k] || j in indices[k + 1..];
        slots := slots[indices[k] := Present(missed[k])];
      }
      boards := seq(|slots|, i requires 0 <= i < |slots| && slots[i].Present? => slots[i].board);
    }

    /** Stores the opinion on each missed board; older entries stay. */
    method FillCache(missed: seq<SizedBoard>)
      requires forall i :: 0 <= i < |missed| ==> Sig(oracle, missed[i]) !in cache
      requires forall j, k :: 0 <= j < k < |missed| ==> Sig(oracle, missed[j]) != Sig(oracle, missed[k])
      modifies `cache
      ensures KeepsEntries() && forall s :: s in cache ==> s in old(cache) || SigAmong(oracle, missed, s)
      ensures forall k :: 0 <= k < |missed| ==>
        Sig(oracle, missed[k]) in cache && cache[Sig(oracle, missed[k])] == Opinion(oracle, missed[k])
    {
      hide Sig, Opinion;
      for i := 0 to |missed|
        invariant forall s :: s in old(cache) ==> s in cache && cache[s] == old(cache)[s]
        invariant forall s :: s in cache ==> s in old(cache) || SigAmong(oracle, missed, s)
        invariant forall k :: 0 <= k < i ==>
          Sig(oracle, missed[k]) in cache && cache[Sig(oracle, missed[k])] == Opinion(oracle, missed[k])
      {
        cache := cache[Sig(oracle, missed[i]) := Opinion(oracle, missed[i])];
      }
    }

    // ----- Batches ----------------------------------------------------------

    method ExpandLeaf(leaf: MCTSNode, board: Board, pmf: seq<real>) returns (ghost created: set<MCTSNode>)
      requires TreeOk() && StatsOk() && leaf in nodes && leaf.board == board && |pmf| == NUM_ACTIONS
      modifies `nodes, leaf`isExpanded, leaf`children, leaf`policy
      ensures TreeOk() && StatsOk() && fresh(created) && nodes == old(nodes) + created
      ensures forall nd :: nd in created ==> nd.Untouched()
      ensures leaf.isExpanded && (old(leaf.isExpanded) ==> leaf.children == old(leaf.children))
      ensures !old(leaf.isExpanded) ==> forall i :: 0 <= i < |leaf.children| ==> leaf.children[i] in created
      ensures leaf.policy == if old(leaf.isExpanded) then old(leaf.policy) else pmf
    {
      hide Inv, ApplyCpp, LegalAction, TreeOk, StatsOk, MCTSNode.StatsOk, Shape, MCTSNode.PriorsAre;
      hide MCTSNode.ChildrenMatch;
      ghost var before, was := nodes, leaf.isExpanded;
      TreeFacts();
      LeafBoard(leaf);
      created := leaf.Expand(board, pmf);
      nodes := nodes + created;
      forall nd | nd in created ensures Shape(nd, nodes) && nd.PriorsAre(nd.policy) && nd.StatsOk(virtualLoss) {
        FreshNode(nd);
        FreshStats(nd);
      }
      forall nd | nd in before && nd != leaf ensures Shape(nd, nodes) {
        ShapeGrows(nd, before, nodes);
      }
      if was {
        ShapeGrows(leaf, before, nodes);
      } else {
        LeafShape(leaf, created);
      }
      TreeFromFacts();
    }

    lemma TreeFacts()
      requires TreeOk() && StatsOk()
      ensures forall nd :: nd in nodes ==> Shape(nd, nodes) && nd.PriorsAre(nd.policy) && nd.StatsOk(virtualLoss)
      ensures root != null ==> root in nodes
    {
    }

    lemma TreeFromFacts()
      requires forall nd :: nd in nodes ==> Shape(nd, nodes) && nd.PriorsAre(nd.policy) && nd.StatsOk(virtualLoss)
      requires root != null ==> root in nodes
      ensures TreeOk() && StatsOk()
    {
    }

    lemma LeafBoard(nd: MCTSNode)
      requires Shape(nd, nodes)
      ensures Inv(N, nd.board) && nd.currentPlayer == nd.board.seat
    {
    }

    lemma ShapeGrows(nd: MCTSNode, s: set<MCTSNode>, t: set<MCTSNode>)
      requires Shape(nd, s) && s <= t
      ensures Shape(nd, t)
    {
    }

    lemma FreshNode(nd: MCTSNode)
      requires nd.Untouched()
      ensures Shape(nd, nodes) && nd.PriorsAre(nd.policy)
      ensures nd.visits == 0 && nd.valueSum == 0.0 && nd.backed == [] && nd.pending == 0
    {
      hide Inv;
    }

    lemma LeafShape(nd: MCTSNode, created: set<MCTSNode>)
      requires Inv(N, nd.board) && nd.currentPlayer == nd.board.seat && nd.isExpanded && nd.ChildrenMatch()
      requires created <= nodes && forall i :: 0 <= i < |nd.children| ==> nd.children[i] in created
      ensures Shape(nd, nodes)
    {
      hide Inv, MCTSNode.ChildrenMatch;
    }

    lemma FreshStats(nd: MCTSNode)
      requires nd.visits == 0 && nd.valueSum == 0.0 && nd.backed == [] && nd.pending == 0
      ensures nd.StatsOk(virtualLoss)
    {
    }

    /** How one path of a batch ended. */
    ghost predicate LeafOk(path: seq<MCTSNode>, leaf: Leaf, leafBoards: seq<SizedBoard>)
      requires path != []
    {
      var end := End(path);
      match leaf
      case Terminal(v) => end.board.result != Undetermined && v == ValueForSeat(end.board, end.currentPlayer)
      case Open(i) => end.board.result == Undetermined && 0 <= i < |leafBoards| && leafBoards[i] == end.board
    }

    ghost predicate ValueOk(path: seq<MCTSNode>, value: real)
      requires path != []
      reads `looked
    {
      ValueTaken(oracle, looked, path, value)
    }

    /** An open leaf was expanded with the policy in the cache. */
    ghost predicate PriorsFromCache(nd: MCTSNode)
      reads `cache, nd`isExpanded, nd`policy
    {
      && |nd.board.cells| == N * N && nd.isExpanded && Sig(oracle, nd.board) in cache
      && nd.policy == cache[Sig(oracle, nd.board)].pmf
    }

    ghost predicate LeafReady(nd: MCTSNode)
      reads `cache, nd`isExpanded, nd`policy
    {
      nd.board.result == Undetermined && nd.isExpanded ==> PriorsFromCache(nd)
    }

    ghost predicate PathsReady(paths: seq<seq<MCTSNode>>)
      reads `nodes, `root, `cache, nodes`isExpanded, nodes`policy
    {
      forall k :: 0 <= k < |paths| ==> paths[k] != [] && PathOk(paths[k]) && LeafReady(End(paths[k]))
    }

    /** The paths settled so far got their values, and their open leaves children. */
    ghost predicate Settled(paths: seq<seq<MCTSNode>>, values: seq<real>)
      requires |values| <= |paths|
      reads `looked, (set k | 0 <= k < |values| && paths[k] != [] :: End(paths[k]))`isExpanded
    {
      forall k :: 0 <= k < |values| ==>
        paths[k] != [] && ValueOk(paths[k], values[k]) &&
        (End(paths[k]).board.result != Undetermined || End(paths[k]).isExpanded)
    }

    /** Phase one of a batch: walk down size times, collecting the leaves. */
    method CollectPaths(rootBoard: Board, size: nat, mask: bool)
      returns (paths: seq<seq<MCTSNode>>, leaves: seq<Leaf>, leafBoards: seq<SizedBoard>)
      requires Valid() && root != null && root.board == rootBoard && SomeEligible(mask)
      modifies nodes`visits, nodes`valueSum, nodes`pending
      ensures TreeOk() && StatsOk() && |paths| == |leaves| == size
      ensures forall k :: 0 <= k < size ==>
        paths[k] != [] && Descends(paths[k]) && LeafOk(paths[k], leaves[k], leafBoards)
      ensures forall k :: 0 <= k < size ==> End(paths[k]).board.result != Undetermined || !End(paths[k]).isExpanded
      ensures forall k :: 0 <= k < size && mask && |paths[k]| > 1 ==> paths[k][1].priorProb > 0.0
      ensures root.isExpanded && root.children != [] ==> forall k :: 0 <= k < size ==>
        |paths[k]| > 1 && paths[k][1] in root.children
      ensures (forall k :: 0 <= k < size ==> PathOk(paths[k])) && AllGreedy(old(Snapshot()), paths, mask)
      ensures leafBoards == OpenEnds(paths) && forall b :: b in leafBoards ==> Inv(N, b)
      ensures forall nd :: nd in nodes ==> nd.pending == Outstanding(paths, nd)
    {
      hide LocalOk, MCTSNode.StatsOk, Inv, Outstanding, Descends, SomeEligible, PriorsFromCache, OpenEnds, CacheOk;
      hide AllGreedy, Snapshot, PathIn, StatsOk, TreeOk, Greedy, AtRest;
      ghost var start := Snapshot();
      StartAtRest();
      paths, leaves, leafBoards := [], [], [];
      NoOpenEnds();
      NoneGreedy(start, mask);
      forall nd | nd in nodes ensures Outstanding([], nd) == 0 { NoneOutstanding(nd); }
      for i := 0 to size
        invariant TreeOk() && StatsOk() && |paths| == |leaves| == i
        invariant forall k :: 0 <= k < i ==>
          paths[k] != [] && Descends(paths[k]) && LeafOk(paths[k], leaves[k], leafBoards)
        invariant forall k :: 0 <= k < i ==> End(paths[k]).board.result != Undetermined || !End(paths[k]).isExpanded
        invariant forall k :: 0 <= k < i && mask && |paths[k]| > 1 ==> paths[k][1].priorProb > 0.0
        invariant root.isExpanded && root.children != [] ==> forall k :: 0 <= k < i ==>
          |paths[k]| > 1 && paths[k][1] in root.children
        invariant (forall k :: 0 <= k < i ==> PathOk(paths[k])) && AllGreedy(start, paths, mask) && AtRest(start)
        invariant leafBoards == OpenEnds(paths) && forall b :: b in leafBoards ==> Inv(N, b)
        invariant forall nd :: nd in nodes ==> nd.pending == Outstanding(paths, nd)
      {
        SnapshotIsCharged(start, paths);
        var path, board := SelectPath(rootBoard, mask);
        PathFacts(path);
        AllGreedyNext(start, paths, path, mask);
        forall nd | nd in nodes
          ensures Outstanding(paths + [path], nd) == Outstanding(paths, nd) + if nd in path[1..] then 1 else 0
        {
          OutstandingAppend(paths, path, nd);
        }
        BoardSize(End(path));
        OpenEndsNext(paths, path);
        if board.result != Undetermined {
          leaves := leaves + [Terminal(ValueForSeat(board, End(path).currentPlayer))];
        } else {
          leaves := leaves + [Open(|leafBoards|)];
          leafBoards := leafBoards + [board];
        }
        paths := paths + [path];
      }
    }

    lemma PathFacts(path: seq<MCTSNode>)
      requires Descends(path)
      ensures path != [] && path[0] == root && PathOk(path) && forall j :: 0 <= j < |path| ==> path[j] in nodes
      ensures root.isExpanded && root.children != [] ==> |path| > 1 && path[1] in root.children
    {
    }

    lemma NoneGreedy(start: map<MCTSNode, Stat>, mask: bool)
      ensures AllGreedy(start, [], mask)
    {
    }

    lemma NoOpenEnds()
      ensures OpenEnds([]) == []
    {
    }

    lemma NoneOutstanding(nd: MCTSNode)
      ensures Outstanding([], nd) == 0
    {
    }

    lemma BoardSize(nd: MCTSNode)
      requires TreeOk() && nd in nodes
      ensures |nd.board.cells| == N * N && Inv(N, nd.board)
    {
      assert LocalOk(nd);
    }

    /** One batch. Each path leads down the tree as it was before the batch to a
        leaf of it; the open leaves, and no other boards, are looked up in the
        cache; a path's value is the result of a finished board or what the
        cache serves for an open one; and afterwards no virtual loss is left,
        and every node has taken on exactly the signed values of the paths
        through it. Every path is walked greedily, each after the losses charged
        for those before it. */
    method RunBatch(rootBoard: Board, size: nat, mask: bool)
      returns (ghost paths: seq<seq<MCTSNode>>, ghost values: seq<real>)
      requires Valid() && SoundOracle(oracle) && root != null && root.board == rootBoard && SomeEligible(mask)
      modifies `nodes, `cache, `looked
      modifies nodes`visits, nodes`valueSum, nodes`pending, nodes`backed, nodes`isExpanded, nodes`children, nodes`policy
      ensures Valid() && fresh(nodes - old(nodes)) && old(nodes) <= nodes
      ensures looked == old(looked) + OpenEnds(paths) && KeepsEntries()
      ensures |paths| == |values| == size && Walked(mask, paths, values)
      ensures forall k :: 0 <= k < size ==> paths[k] != [] && forall j :: 0 <= j < |paths[k]| ==>
        paths[k][j] in old(nodes)
      ensures forall k :: 0 <= k < size ==> old(Descends(paths[k]))
      ensures old(AllGreedy(Snapshot(), paths, mask))
      ensures forall nd :: nd in nodes ==>
        nd.backed == (if nd in old(nodes) then old(nd.backed) else []) + BackedBy(paths, values, nd)
      ensures Credited(old(Snapshot()), old(AllBacked()), paths)
      ensures root.visits == old(root.visits) + size
      ensures old(root.isExpanded && root.children != []) ==>
        forall k :: 0 <= k < size ==> |paths[k]| > 1 && paths[k][1] in root.children
      ensures KeepsChildren()
    {
      hide PathIn, Valid, Snapshot, Credited, Walked, Descends, OpenEnds, AllGreedy, BackedBy, SoundOracle;
      ghost var at, start := Snapshot(), AllBacked();
      StartRests();
      paths, values := WalkAndSettle(rootBoard, size, mask);
      CreditFacts(at, start, mask, paths, values);
    }

    /** The same, told by the values that the batch backed up. */
    method WalkAndSettle(rootBoard: Board, size: nat, mask: bool)
      returns (ghost paths: seq<seq<MCTSNode>>, ghost values: seq<real>)
      requires Valid() && SoundOracle(oracle) && root != null && root.board == rootBoard && SomeEligible(mask)
      modifies `nodes, `cache, `looked
      modifies nodes`visits, nodes`valueSum, nodes`pending, nodes`backed, nodes`isExpanded, nodes`children, nodes`policy
      ensures Valid() && fresh(nodes - old(nodes)) && old(nodes) <= nodes
      ensures looked == old(looked) + OpenEnds(paths) && KeepsEntries()
      ensures |paths| == |values| == size && Walked(mask, paths, values)
      ensures forall k :: 0 <= k < size ==> paths[k] != [] && forall j :: 0 <= j < |paths[k]| ==>
        paths[k][j] in old(nodes)
      ensures forall k :: 0 <= k < size ==> old(Descends(paths[k]))
      ensures old(AllGreedy(Snapshot(), paths, mask))
      ensures forall nd :: nd in nodes ==>
        nd.backed == (if nd in old(nodes) then old(nd.backed) else []) + BackedBy(paths, values, nd)
      ensures root.visits == old(root.visits) + size
      ensures old(root.isExpanded && root.children != []) ==>
        forall k :: 0 <= k < size ==> |paths[k]| > 1 && paths[k][1] in root.children
      ensures KeepsChildren()
    {
      hide LocalOk, Inv, Outstanding, BackedBy, Sig, Opinion, Descends, SomeEligible, PathTaken, PriorsFromCache;
      hide MCTSNode.StatsOk, PathIn, LeafOk, LeafReady, CacheOk, PathsReady, Settled, TreeOk, StatsOk, OpenEnds;
      hide AllGreedy, Snapshot, Walked;
      ghost var r := root;
      RootInTree();
      RootVisits(r);
      var walked, leaves, boards := WalkAndLookUp(rootBoard, size, mask);
      paths := walked;
      PathNodes(paths);
      values := BackupAll(walked, leaves, boards);
      StartsAtRoot(paths);
      BackedByAll(paths, values, r);
      RootVisits(r);
      BatchFacts(mask, paths, values);
    }

    /** The paths of a search so far, and what their values are. */
    ghost predicate Walked(mask: bool, paths: seq<seq<MCTSNode>>, values: seq<real>)
      reads `nodes, `root, `looked, nodes`priorProb, nodes`isExpanded, nodes`policy
    {
      && |values| == |paths| && (forall k :: 0 <= k < |paths| ==> PathTaken(paths[k], values[k]))
      && (forall k :: 0 <= k < |paths| && mask && |paths[k]| > 1 ==>
            PathOk(paths[k]) && paths[k][1].priorProb > 0.0)
    }

    /** A path through the tree, the value taken at its end, and the policy its
        end was expanded with. */
    ghost predicate PathTaken(path: seq<MCTSNode>, value: real)
      reads `nodes, `root, `looked, nodes`isExpanded, nodes`policy
    {
      PathOk(path) && ValueTaken(oracle, looked, path, value) && PolicyTaken(oracle, looked, End(path))
    }

    /** Without collisions among the boards that were looked up, every value is the
        outcome of the board at the end of its path, and every open end was
        expanded with the opinion on that very board. */
    lemma {:induction false} OwnOutcomes(mask: bool, paths: seq<seq<MCTSNode>>, values: seq<real>)
      requires Walked(mask, paths, values) && NoCollision(oracle, looked)
      ensures forall k :: 0 <= k < |paths| ==>
        && paths[k] != [] && |End(paths[k]).board.cells| == N * N && values[k] == Outcome(oracle, paths[k])
        && (End(paths[k]).board.result == Undetermined ==>
              End(paths[k]).isExpanded && End(paths[k]).policy == Opinion(oracle, End(paths[k]).board).pmf)
    {
      hide Sig, Opinion, Served, PathIn;
      forall k | 0 <= k < |paths|
        ensures paths[k] != [] && |End(paths[k]).board.cells| == N * N && values[k] == Outcome(oracle, paths[k])
        ensures End(paths[k]).board.result == Undetermined ==>
          End(paths[k]).isExpanded && End(paths[k]).policy == Opinion(oracle, End(paths[k]).board).pmf
      {
        TakenMeans(paths[k], values[k]);
        if End(paths[k]).board.result == Undetermined {
          ServedIsOwn(oracle, looked, End(paths[k]).board);
        }
      }
    }

    /** A search whose signatures tell apart all boards that the rules allow meets
        no collision. */
    lemma ApartMeansNoCollision()
      requires CacheOk() && Apart(oracle)
      ensures NoCollision(oracle, looked)
    {
      hide Sig, Inv, EntryOk;
    }

    lemma StartsAtRoot(paths: seq<seq<MCTSNode>>)
      requires PathsReady(paths)
      ensures forall k :: 0 <= k < |paths| ==> paths[k] != [] && paths[k][0] == root && paths[k][0] in paths[k]
    {
    }

    /** So the account of a search is about the boards at the ends of its paths,
        whatever was searched before. */
    lemma {:induction false} ApartOutcomes(mask: bool, paths: seq<seq<MCTSNode>>, values: seq<real>)
      requires Valid() && Apart(oracle) && Walked(mask, paths, values)
      ensures forall k :: 0 <= k < |paths| ==>
        && paths[k] != [] && |End(paths[k]).board.cells| == N * N && values[k] == Outcome(oracle, paths[k])
        && (End(paths[k]).board.result == Undetermined ==>
              End(paths[k]).isExpanded && End(paths[k]).policy == Opinion(oracle, End(paths[k]).board).pmf)
    {
      hide CacheOk, Walked, NoCollision, Apart, Outcome, Opinion;
      ApartMeansNoCollision();
      OwnOutcomes(mask, paths, values);
    }

    lemma TakenMeans(path: seq<MCTSNode>, value: real)
      requires PathTaken(path, value)
      ensures path != [] && ValueTaken(oracle, looked, path, value) && PolicyTaken(oracle, looked, End(path))
    {
    }

    /** Phase one of a batch, and the look-up of its open leaves. */
    method WalkAndLookUp(rootBoard: Board, size: nat, mask: bool)
      returns (paths: seq<seq<MCTSNode>>, leaves: seq<Leaf>, boards: seq<SizedBoard>)
      requires Valid() && root != null && root.board == rootBoard && SomeEligible(mask)
      modifies `cache, `looked, nodes`visits, nodes`valueSum, nodes`pending
      ensures TreeOk() && StatsOk() && CacheOk() && |paths| == |leaves| == size
      ensures boards == OpenEnds(paths) && looked == old(looked) + boards && KeepsEntries()
      ensures PathsReady(paths) && forall k :: 0 <= k < size ==> paths[k] != [] && LeafOk(paths[k], leaves[k], boards)
      ensures forall k, nd :: 0 <= k < size && nd in paths[k] ==> nd in nodes
      ensures forall k :: 0 <= k < size ==> old(Descends(paths[k]))
      ensures old(AllGreedy(Snapshot(), paths, mask))
      ensures root.isExpanded && root.children != [] ==> forall k :: 0 <= k < size ==>
        |paths[k]| > 1 && paths[k][1] in root.children
      ensures forall k :: 0 <= k < size && mask && |paths[k]| > 1 ==> paths[k][1].priorProb > 0.0
      ensures forall nd :: nd in nodes ==> nd.pending == Outstanding(paths, nd)
    {
      hide LocalOk, Inv, Outstanding, Sig, Opinion, Descends, SomeEligible, PriorsFromCache, OpenEnds;
      hide MCTSNode.StatsOk, TreeOk, StatsOk, PathIn, CacheOk, LeafOk, AllGreedy, Snapshot;
      var leafBoards;
      paths, leaves, leafBoards := CollectPaths(rootBoard, size, mask);
      forall k | 0 <= k < size ensures PathOk(paths[k]) && forall nd :: nd in paths[k] ==> nd in nodes {
        PathFacts(paths[k]);
      }
      boards := EvaluateLeaves(leafBoards);
    }

    lemma BatchFacts(mask: bool, paths: seq<seq<MCTSNode>>, values: seq<real>)
      requires CacheOk() && PathsReady(paths) && |values| == |paths| && Settled(paths, values)
      requires forall k :: 0 <= k < |paths| && mask && |paths[k]| > 1 ==> paths[k][1].priorProb > 0.0
      ensures Walked(mask, paths, values)
    {
      hide PathIn, CacheOk, Sig, ServedOpinion;
      LookedUpIsCached();
      forall k | 0 <= k < |paths| ensures PathOk(paths[k]) && PathTaken(paths[k], values[k]) {
        assert paths[k] != [] && ValueOk(paths[k], values[k]) && LeafReady(End(paths[k]));
      }
    }

    lemma RootVisits(r: MCTSNode)
      requires Valid() && r in nodes
      ensures r.visits == |r.backed|
    {
      assert r.StatsOk(virtualLoss);
    }

    /** Expanded nodes stay expanded with the same children. */
    twostate predicate KeepsChildren()
      reads `nodes, nodes
    {
      forall nd :: nd in old(nodes) && nd in nodes && old(nd.isExpanded) ==>
        nd.isExpanded && nd.children == old(nd.children) && nd.policy == old(nd.policy)
    }

    /** Phase two of a batch: settle the paths in order. */
    method BackupAll(paths: seq<seq<MCTSNode>>, leaves: seq<Leaf>, boards: seq<SizedBoard>)
      returns (ghost values: seq<real>)
      requires TreeOk() && StatsOk() && CacheOk() && SoundOracle(oracle) && root != null && PathsReady(paths)
      requires |leaves| == |paths|
      requires forall k :: 0 <= k < |paths| ==> paths[k] != [] && LeafOk(paths[k], leaves[k], boards)
      requires forall b :: b in boards ==> b in looked
      requires forall nd :: nd in nodes ==> nd.pending == Outstanding(paths, nd)
      modifies `nodes, nodes`visits, nodes`valueSum, nodes`pending, nodes`backed
      modifies nodes`isExpanded, nodes`children, nodes`policy
      ensures Valid() && fresh(nodes - old(nodes)) && old(nodes) <= nodes && |values| == |paths|
      ensures PathsReady(paths) && Settled(paths, values)
      ensures forall nd :: nd in nodes ==>
        nd.backed == (if nd in old(nodes) then old(nd.backed) else []) + BackedBy(paths, values, nd)
      ensures KeepsChildren()
    {
      hide LocalOk, MCTSNode.StatsOk, Inv, Outstanding, BackedBy, Sig, Opinion, CacheOk, LeafOk, Midway;
      hide TreeOk, StatsOk, PathIn, PathsReady, Settled, BackedSince;
      ghost var start := map nd | nd in nodes :: nd.backed;
      values := [];
      MidwayStarts(paths, boards, start);
      for i := 0 to |paths|
        invariant Midway(paths, i, values, boards, start) && |values| == i
        invariant fresh(nodes - old(nodes)) && KeepsChildren()
      {
        var value := SettleNext(paths, i, leaves[i], boards, values, start);
        values := values + [value];
      }
      MidwayEnds(paths, values, boards, start);
    }

    /** Where the settling of a batch stands after i paths. */
    ghost predicate Midway(paths: seq<seq<MCTSNode>>, i: nat, values: seq<real>, boards: seq<SizedBoard>,
                           start: map<MCTSNode, seq<real>>)
      reads this, nodes
    {
      && TreeOk() && StatsOk() && CacheOk() && SoundOracle(oracle) && root != null
      && PathsReady(paths) && i == |values| <= |paths| && Settled(paths, values)
      && BackedSince(start, paths[..i], values) && start.Keys <= nodes
      && (forall k, nd :: 0 <= k < |paths| && nd in paths[k] ==> nd in start)
      && (forall b :: b in boards ==> b in looked)
      && forall nd :: nd in nodes ==> nd.pending == Outstanding(paths[i..], nd)
    }

    lemma MidwayStarts(paths: seq<seq<MCTSNode>>, boards: seq<SizedBoard>, start: map<MCTSNode, seq<real>>)
      requires TreeOk() && StatsOk() && CacheOk() && SoundOracle(oracle) && root != null && PathsReady(paths)
      requires forall b :: b in boards ==> b in looked
      requires forall nd :: nd in nodes ==> nd.pending == Outstanding(paths, nd)
      requires start.Keys == nodes && forall nd :: nd in nodes ==> start[nd] == nd.backed
      ensures Midway(paths, 0, [], boards, start)
    {
      hide Outstanding, BackedBy, Sig, CacheOk, TreeOk, StatsOk, PathIn, PathsReady, Settled, BackedSince, SoundOracle;
      assert paths[0..] == paths && paths[..0] == [];
      PathNodes(paths);
      NothingSettled(paths);
      NothingSince(start);
    }

    lemma MidwayEnds(paths: seq<seq<MCTSNode>>, values: seq<real>, boards: seq<SizedBoard>,
                     start: map<MCTSNode, seq<real>>)
      requires Midway(paths, |paths|, values, boards, start)
      ensures Valid() && |values| == |paths| && PathsReady(paths) && Settled(paths, values) && start.Keys <= nodes
      ensures forall nd :: nd in nodes ==>
        nd.backed == (if nd in start then start[nd] else []) + BackedBy(paths, values, nd)
    {
      hide Outstanding, BackedBy, Sig, CacheOk, TreeOk, StatsOk, PathIn, PathsReady, Settled, BackedSince, SoundOracle;
      assert paths[|paths|..] == [] && paths[..|paths|] == paths;
      SinceStart(start, paths, values);
      forall nd | nd in nodes ensures nd.pending == 0 { NoneOutstanding(nd); }
    }

    /** Since the start every node has taken on the values of the paths through it. */
    ghost predicate BackedSince(start: map<MCTSNode, seq<real>>, paths: seq<seq<MCTSNode>>, values: seq<real>)
      requires |values| == |paths|
      reads `nodes, nodes`backed
    {
      forall nd :: nd in nodes ==> nd.backed == (if nd in start then start[nd] else []) + BackedBy(paths, values, nd)
    }

    /** Every node has gained exactly what the paths through it are worth to it: as
        values backed up, as their sum, and one visit for each. */
    ghost predicate Credited(at: map<MCTSNode, Stat>, start: map<MCTSNode, seq<real>>, paths: seq<seq<MCTSNode>>)
      reads `nodes, `looked, nodes`backed, nodes`valueSum, nodes`visits
    {
      && (forall k :: 0 <= k < |paths| ==> paths[k] != [] && |End(paths[k]).board.cells| == N * N)
      && forall nd :: nd in nodes ==>
        && nd.backed == (if nd in start then start[nd] else []) + Gains(oracle, looked, paths, nd)
        && nd.valueSum == (if nd in at then at[nd].valueSum else 0.0) + Sum(Gains(oracle, looked, paths, nd))
        && nd.visits == (if nd in at then at[nd].visits else 0) + |Gains(oracle, looked, paths, nd)|
    }

    lemma CreditFacts(at: map<MCTSNode, Stat>, start: map<MCTSNode, seq<real>>, mask: bool,
                      paths: seq<seq<MCTSNode>>, values: seq<real>)
      requires Valid() && |values| == |paths| && BackedSince(start, paths, values) && Walked(mask, paths, values)
      requires at.Keys == start.Keys && forall nd :: nd in start ==> at[nd] == Stat(|start[nd]|, Sum(start[nd]))
      ensures Credited(at, start, paths)
    {
      hide Valid, Sum, BackedBy, Gains, PathIn, ValueTaken, PolicyTaken, Walked;
      WalkedFacts(mask, paths, values);
      forall k | 0 <= k < |paths| ensures paths[k] != [] && |End(paths[k]).board.cells| == N * N {
        TakenHasBoard(paths[k], values[k]);
      }
      forall nd | nd in nodes
        ensures BackedBy(paths, values, nd) == Gains(oracle, looked, paths, nd)
        ensures nd.visits == |nd.backed| && nd.valueSum == Sum(nd.backed)
      {
        GainsAreBacked(oracle, looked, paths, values, nd);
        RestingStats(nd);
      }
      forall nd | nd in nodes
        ensures Sum(nd.backed) ==
          (if nd in at then at[nd].valueSum else 0.0) + Sum(Gains(oracle, looked, paths, nd))
      {
        SumConcat(if nd in start then start[nd] else [], Gains(oracle, looked, paths, nd));
        SumOfZeros([]);
      }
    }

    lemma TakenHasBoard(path: seq<MCTSNode>, value: real)
      requires path != [] && ValueTaken(oracle, looked, path, value)
      ensures |End(path).board.cells| == N * N
    {
    }

    lemma RestingStats(nd: MCTSNode)
      requires Valid() && nd in nodes
      ensures nd.visits == |nd.backed| && nd.valueSum == Sum(nd.backed)
    {
      hide Sum, Bounded, TreeOk, CacheOk;
      assert nd.StatsOk(virtualLoss);
    }

    lemma NothingSince(start: map<MCTSNode, seq<real>>)
      requires forall nd :: nd in nodes ==> nd in start && start[nd] == nd.backed
      ensures BackedSince(start, [], [])
    {
    }

    lemma SinceStart(start: map<MCTSNode, seq<real>>, paths: seq<seq<MCTSNode>>, values: seq<real>)
      requires |values| == |paths| && BackedSince(start, paths, values)
      ensures forall nd :: nd in nodes ==>
        nd.backed == (if nd in start then start[nd] else []) + BackedBy(paths, values, nd)
    {
    }

    /** Settles the next path and accounts for it. */
    method SettleNext(paths: seq<seq<MCTSNode>>, i: nat, leaf: Leaf, boards: seq<SizedBoard>, ghost values: seq<real>,
                      ghost start: map<MCTSNode, seq<real>>)
      returns (value: real)
      requires Midway(paths, i, values, boards, start) && i < |paths| && paths[i] != []
      requires LeafOk(paths[i], leaf, boards)
      modifies `nodes, nodes`visits, nodes`valueSum, nodes`pending, nodes`backed
      modifies nodes`isExpanded, nodes`children, nodes`policy
      ensures Midway(paths, i + 1, values + [value], boards, start)
      ensures old(nodes) <= nodes && fresh(nodes - old(nodes)) && KeepsChildren()
    {
      hide LocalOk, MCTSNode.StatsOk, Inv, Outstanding, BackedBy, Sig, Opinion, CacheOk, LeafOk;
      hide TreeOk, StatsOk, PathIn, PathsReady, Settled, BackedSince;
      ghost var before := AllBacked();
      SinceStart(start, paths[..i], values);
      value := SettlePath(paths, i, leaf, boards, values);
      SinceNext(start, before, paths, values, i, value);
    }

    lemma SinceNext(start: map<MCTSNode, seq<real>>, before: map<MCTSNode, seq<real>>, paths: seq<seq<MCTSNode>>,
                    values: seq<real>, i: nat, value: real)
      requires i == |values| < |paths| && start.Keys <= before.Keys
      requires forall nd :: nd in before ==>
        before[nd] == (if nd in start then start[nd] else []) + BackedBy(paths[..i], values, nd)
      requires forall k, nd :: 0 <= k < |paths| && nd in paths[k] ==> nd in before
      requires forall nd :: nd in nodes ==>
        nd.backed == (if nd in before then before[nd] else []) +
                     if nd !in paths[i] then []
                     else [if nd.currentPlayer == End(paths[i]).currentPlayer then value else -value]
      ensures BackedSince(start, paths[..i + 1], values + [value])
    {
      hide BackedBy;
      forall nd | nd in nodes
        ensures nd.backed == (if nd in start then start[nd] else []) + BackedBy(paths[..i + 1], values + [value], nd)
      {
        BackedByNext(paths, values, i, value, nd);
        if nd !in before {
          NotBacked(paths[..i], values, nd);
        }
      }
    }

    lemma PathNodes(paths: seq<seq<MCTSNode>>)
      requires PathsReady(paths)
      ensures forall k, nd :: 0 <= k < |paths| && nd in paths[k] ==> nd in nodes
    {
    }

    lemma NothingSettled(paths: seq<seq<MCTSNode>>)
      ensures Settled(paths, [])
    {
    }

    /** Settles one path: its leaf is expanded if it is open, and its value goes
        to every node on it. */
    method SettlePath(paths: seq<seq<MCTSNode>>, i: nat, leaf: Leaf, boards: seq<SizedBoard>, ghost values: seq<real>)
      returns (value: real)
      requires TreeOk() && StatsOk() && CacheOk() && SoundOracle(oracle) && root != null
      requires PathsReady(paths) && i == |values| < |paths| && paths[i] != []
      requires Settled(paths, values) && LeafOk(paths[i], leaf, boards)
      requires forall b :: b in boards ==> b in looked
      requires forall nd :: nd in nodes ==> nd.pending == Outstanding(paths[i..], nd)
      modifies `nodes, nodes`visits, nodes`valueSum, nodes`pending, nodes`backed
      modifies nodes`isExpanded, nodes`children, nodes`policy
      ensures TreeOk() && StatsOk() && CacheOk() && old(nodes) <= nodes && fresh(nodes - old(nodes))
      ensures PathsReady(paths) && Settled(paths, values + [value])
      ensures forall nd :: nd in nodes ==> nd.pending == Outstanding(paths[i + 1..], nd)
      ensures forall nd :: nd in nodes ==>
        nd.backed == (if nd in old(nodes) then old(nd.backed) else []) +
                     if nd !in paths[i] then []
                     else [if nd.currentPlayer == End(paths[i]).currentPlayer then value else -value]
      ensures KeepsChildren()
    {
      hide LocalOk, MCTSNode.StatsOk, Inv, Outstanding, Sig, Opinion, CacheOk, LeafOk, LeafReady, ValueOk;
      hide TreeOk, StatsOk, PathIn, PathsReady, Settled;
      ghost var before := nodes;
      var path := paths[i];
      PathsReadyFacts(paths);
      SettledFacts(paths, values);
      value := LeafValue(path, leaf, boards);
      forall k | 0 <= k < |paths| ensures PathOk(paths[k]) && LeafReady(End(paths[k])) {
        PathGrows(paths[k], before, nodes, root);
        if End(paths[k]) != End(path) {
          ReadyStays(End(paths[k]));
        }
      }
      MakeReady(paths);
      MakeSettled(paths, values + [value]);
      forall nd | nd in nodes - before ensures Outstanding(paths[i..], nd) == 0 {
        NotOutstanding(paths[i..], nd);
      }
      Backup(path, value);
      forall nd | nd in nodes
        ensures Outstanding(paths[i..], nd) == Outstanding(paths[i + 1..], nd) + if nd in path[1..] then 1 else 0
      {
        OutstandingHead(paths, i, nd);
      }
    }

    lemma PathsReadyFacts(paths: seq<seq<MCTSNode>>)
      requires PathsReady(paths)
      ensures forall k :: 0 <= k < |paths| ==>
        paths[k] != [] && PathOk(paths[k]) && LeafReady(End(paths[k])) && End(paths[k]) in nodes
      ensures forall k, nd :: 0 <= k < |paths| && nd in paths[k] ==> nd in nodes
    {
    }

    lemma MakeReady(paths: seq<seq<MCTSNode>>)
      requires forall k :: 0 <= k < |paths| ==> paths[k] != [] && PathOk(paths[k]) && LeafReady(End(paths[k]))
      ensures PathsReady(paths)
    {
    }

    lemma PathGrows(path: seq<MCTSNode>, s: set<MCTSNode>, t: set<MCTSNode>, r: MCTSNode?)
      requires PathIn(path, s, r) && s <= t
      ensures PathIn(path, t, r)
    {
    }

    lemma SettledFacts(paths: seq<seq<MCTSNode>>, values: seq<real>)
      requires |values| <= |paths| && Settled(paths, values)
      ensures forall k :: 0 <= k < |values| ==>
        paths[k] != [] && ValueOk(paths[k], values[k]) &&
        (End(paths[k]).board.result != Undetermined || End(paths[k]).isExpanded)
    {
    }

    lemma MakeSettled(paths: seq<seq<MCTSNode>>, values: seq<real>)
      requires |values| <= |paths|
      requires forall k :: 0 <= k < |values| ==>
        paths[k] != [] && ValueOk(paths[k], values[k]) &&
        (End(paths[k]).board.result != Undetermined || End(paths[k]).isExpanded)
      ensures Settled(paths, values)
    {
    }

    /** Readiness of a leaf does not depend on statistics. */
    twostate lemma ReadyStays(nd: MCTSNode)
      requires old(LeafReady(nd)) && cache == old(cache) && nd.isExpanded == old(nd.isExpanded)
      requires nd.policy == old(nd.policy)
      ensures LeafReady(nd)
    {
      hide Sig;
    }

    /** The value of a leaf, expanding it first if its board is still open. */
    method LeafValue(path: seq<MCTSNode>, leaf: Leaf, boards: seq<SizedBoard>) returns (value: real)
      requires TreeOk() && StatsOk() && CacheOk() && SoundOracle(oracle) && PathOk(path) && LeafOk(path, leaf, boards)
      requires LeafReady(End(path))
      requires forall b :: b in boards ==> b in looked
      modifies `nodes, nodes`isExpanded, nodes`children, nodes`policy
      ensures TreeOk() && StatsOk() && CacheOk() && -1.0 <= value <= 1.0 && ValueOk(path, value)
      ensures old(nodes) <= nodes && fresh(nodes - old(nodes))
      ensures forall nd :: nd in nodes - old(nodes) ==> nd.pending == 0 && nd.backed == []
      ensures forall nd :: nd in old(nodes) && nd != End(path) ==>
        nd.isExpanded == old(nd.isExpanded) && nd.children == old(nd.children) && nd.policy == old(nd.policy)
      ensures KeepsChildren() && LeafReady(End(path))
      ensures End(path).board.result != Undetermined || End(path).isExpanded
    {
      hide LocalOk, MCTSNode.StatsOk, Inv, Sig, Opinion, ApplyCpp;
      ghost var end := End(path);
      BoardSize(end);
      match leaf {
        case Terminal(v) => value := v;
        case Open(k) =>
          assert boards[k] in boards;
          LookedUpIsCached();
          assert EntryOk(boards[k]);
          var evaluation := cache[Sig(oracle, boards[k])];
          CachedSound(Sig(oracle, boards[k]));
          value := evaluation.value;
          ghost var created := ExpandLeaf(End(path), boards[k], evaluation.pmf);
          if old(end.isExpanded) {
            ReadyStays(end);
          }
      }
    }

    lemma CachedSound(s: seq<Word>)
      requires CacheOk() && SoundOracle(oracle) && s in cache
      ensures Sound(cache[s])
    {
      hide Opinion, Sig, Served;
      var k :| 0 <= k < |looked| && Sig(oracle, looked[k]) == s;
      assert EntryOk(looked[k]);
      OpinionSound(oracle, Served(oracle, looked, looked[k]));
    }

    // ----- Moving on to the next position -------------------------------------

    method Reset()
      requires Valid()
      modifies `root, `nodes, `cache, `looked
      ensures Valid() && root == null && nodes == {} && cache == map[] && looked == []
    {
      root, nodes, cache, looked := null, {}, map[], [];
    }

    /** Follows a legal action of the current board: the child's subtree becomes
        the tree, or the tree is dropped if there is no such child. */
    method SelectAction(a: int, ghost board: Board)
      requires Valid() && Inv(N, board) && LegalAction(N, board, a) && (root != null ==> root.board == board)
      modifies this, nodes`children
      ensures Valid() && nodes <= old(nodes)
      ensures root != null ==> root.board == ApplyCpp(N, board, a)
      ensures if old(root) != null && root == null then cache == map[] && looked == []
              else cache == old(cache) && looked == old(looked)
      ensures old(root) != null && old(root.isExpanded) ==>
        && root != null && root in old(root.children) && root.actionId == a
        && var kept: MCTSNode := root; kept.visits == old(kept.visits) && kept.valueSum == old(kept.valueSum)
      ensures root == old(if root == null then null else ChildFor(root.children, a))
      ensures forall nd :: nd in nodes ==> nd.children == old(nd.children)
    {
      hide Inv, ApplyCpp, LegalAction, Remaining, MCTSNode.StatsOk, LocalOk, CacheOk, MCTSNode.HasChild, ChildFor;
      if root == null {
        return;
      }
      RootChildren(a);
      ghost var r, kids := root, root.children;
      var child := root.DetachChild(a);
      if child == null {
        Reset();
      } else {
        ghost var i :| 0 <= i < |kids| && child == kids[i];
        forall nd | nd in nodes && nd != r ensures LocalOk(nd) {
          StillLocal(nd);
        }
        KeepSubtree(r, child);
      }
    }

    twostate lemma StillLocal(nd: MCTSNode)
      requires nd in nodes && nodes == old(nodes) && old(LocalOk(nd)) && unchanged(nd)
      requires forall c :: c in nodes ==> c.priorProb == old(c.priorProb)
      ensures LocalOk(nd)
    {
      hide Inv, ApplyCpp, LegalAction;
    }

    /** What an expanded root offers. */
    lemma RootChildren(a: int)
      requires TreeOk() && root != null && Inv(N, root.board) && LegalAction(N, root.board, a)
      ensures if root.isExpanded then root.HasChild(a) else root.children == []
      ensures forall i, j :: 0 <= i < j < |root.children| ==> root.children[i].actionId != root.children[j].actionId
      ensures forall i :: 0 <= i < |root.children| ==>
        && root.children[i] in nodes && Remaining(N, root.children[i].board) < Remaining(N, root.board)
        && Shaped(N, root.board) && root.children[i].board == ApplyCpp(N, root.board, root.children[i].actionId)
    {
      hide Inv, LegalAction, Remaining, ApplyCpp;
      assert LocalOk(root);
      InvShaped(N, root.board);
      forall i | 0 <= i < |root.children|
        ensures root.children[i] in nodes && Remaining(N, root.children[i].board) < Remaining(N, root.board)
        ensures Shaped(N, root.board) && root.children[i].board == ApplyCpp(N, root.board, root.children[i].actionId)
      {
        ChildFacts(root, i);
      }
    }

    /** Keeps only the nodes that can still be below the new root. */
    method KeepSubtree(ghost r: MCTSNode, child: MCTSNode)
      requires r in nodes && child in nodes && StatsOk() && CacheOk() && forall nd :: nd in nodes ==> nd.pending == 0
      requires forall nd :: nd in nodes && nd != r ==> LocalOk(nd)
      requires Remaining(N, child.board) < Remaining(N, r.board)
      modifies `root, `nodes
      ensures Valid() && root == child && nodes <= old(nodes) && r !in nodes
    {
      hide Inv, ApplyCpp, LegalAction, Remaining, MCTSNode.StatsOk;
      root := child;
      nodes := set nd | nd in nodes && Remaining(N, nd.board) <= Remaining(N, child.board);
      forall nd | nd in nodes ensures LocalOk(nd) {
        assert old(LocalOk(nd));
        forall i | 0 <= i < |nd.children| ensures nd.children[i] in nodes {
          assert nd.IsChild(nd.children[i]);
          ApplyUsesUpRemaining(N, nd.board, nd.children[i].actionId);
        }
      }
    }

    // ----- Search -----------------------------------------------------------

    /** The policy that the root's children carry into the search. */
    ghost function RootPolicy(rootBoard: Board, setup: RootSetup): seq<real>
      reads `root, (if root == null then {} else {root})`isExpanded, (if root == null then {} else {root})`policy
    {
      if setup.beforeSearch.Replaced? then setup.beforeSearch.pmf
      else if root != null && root.isExpanded then root.policy
      else if setup.atExpansion.Replaced? then setup.atExpansion.pmf
      else oracle.evaluator(rootBoard).pmf
    }

    /** Runs simulations from a position in batches. The tree belongs to that
        position before and after. Unless the solver settles the root or the
        clock runs out first, the search adds the paths it walked, each once,
        with the value of the board at its end for the seat to move there, and
        the policy is the children's share of the visits. */
    method Search(rootBoard: Board, stop: Stop, setup: RootSetup)
      returns (policy: seq<real>, ghost paths: seq<seq<MCTSNode>>, ghost values: seq<real>)
      requires Valid() && SoundOracle(oracle) && batchSize >= 1 && SetupOk(setup) && (stop.Simulations? ==> stop.n >= 1)
      requires Inv(N, rootBoard) && (root != null ==> root.board == rootBoard) && |rootBoard.cells| == N * N
      requires setup.mask ==> OffersMove(rootBoard, RootPolicy(rootBoard, setup))
      modifies this, nodes
      ensures Valid() && fresh(nodes - old(nodes)) && old(nodes) <= nodes
      ensures root != null ==> root.board == rootBoard && root.currentPlayer == rootBoard.seat
      ensures PolicyFor(rootBoard, policy)
      ensures rootBoard.result == Undetermined && (stop != Deadline(0) || root == null || root.isExpanded) ==>
        Sum(policy) == 1.0
      ensures Walked(setup.mask, paths, values) && BackedSince(old(AllBacked()), paths, values)
      ensures looked == old(looked) + OpenEnds(paths) && KeepsEntries()
      ensures Credited(old(Snapshot()), old(AllBacked()), paths)
      ensures stop == Deadline(0) ==> root == old(root) && nodes == old(nodes) && paths == []
      ensures stop == Deadline(0) ==>
        if root == null then EvenPolicy(rootBoard, policy)
        else Spread(NUM_ACTIONS, policy, root.ChildIds(), root.PriorWeights())
      ensures stop != Deadline(0) && SolvedAction(oracle, rootBoard) >= 0 ==>
        root == old(root) && nodes == old(nodes) && paths == [] &&
        policy == SolvedEvaluation(SolvedAction(oracle, rootBoard)).pmf
      ensures stop != Deadline(0) && SolvedAction(oracle, rootBoard) < 0 ==>
        && root != null && Searched(stop, setup.mask, policy, paths, old(AllBacked()))
        && (stop.Simulations? ==> |paths| == stop.n)
        && (stop.Deadline? ==> |paths| == if stop.checks <= 2 then 0 else (stop.checks - 2) * batchSize)
        && root.visits == |paths| + old(if root == null then 0 else root.visits)
        && (stop == Deadline(1) || root.policy == old(RootPolicy(rootBoard, setup)))
        && (old(root) != null ==> root == old(root))
        && (rootBoard.result == Undetermined && stop != Deadline(1) ==>
              Sum(root.ChildVisits()) == old(VisitsBelow(root)) + |paths| as real)
    {
      hide Inv, ApplyCpp, LegalAction, TreeOk, StatsOk, LocalOk, Shape, MCTSNode.StatsOk, CacheOk, PathIn;
      hide OpenEnds;
      hide BackedBy, Spread, Sum, OffersMove, PolicyFor, SolvedAction, SolvedEvaluation, SomeEligible, Walked;
      hide BackedSince, Searched, Credited, Snapshot, EvenPolicy, VisitsBelow, Known;
      ghost var at, start := Snapshot(), AllBacked();
      StartRests();
      paths, values := [], [];
      NoOpenEnds();
      NothingWalked(setup.mask);
      NothingSince(start);
      if root != null {
        RootSeat();
      }
      if stop == Deadline(0) {
        policy := EarlyPolicy(rootBoard);
        CreditFacts(at, start, setup.mask, paths, values);
        return;
      }
      var solved := SolvedAction(oracle, rootBoard);
      if solved >= 0 {
        SolvedIsLegal(rootBoard);
        policy := SolvedEvaluation(solved).pmf;
        CreditFacts(at, start, setup.mask, paths, values);
        return;
      }
      EnsureRoot(rootBoard, setup.atExpansion);
      StillNothing(setup.mask, start);
      policy, paths, values := SearchTree(rootBoard, stop, setup, start);
      CountOfPaths(stop, setup.mask, policy, paths, values, start);
      VisitsSince(stop, setup.mask, policy, paths, start);
      CreditFacts(at, start, setup.mask, paths, values);
    }

    lemma CountOfPaths(stop: Stop, mask: bool, policy: seq<real>, paths: seq<seq<MCTSNode>>, values: seq<real>,
                       start: map<MCTSNode, seq<real>>)
      requires root != null && Searched(stop, mask, policy, paths, start) && Walked(mask, paths, values)
      ensures |values| == |paths| && (stop.Simulations? ==> |paths| == stop.n)
      ensures stop.Deadline? ==> |paths| == if stop.checks <= 2 then 0 else (stop.checks - 2) * batchSize
    {
      hide Spread, PathTaken;
    }

    lemma VisitsSince(stop: Stop, mask: bool, policy: seq<real>, paths: seq<seq<MCTSNode>>,
                      start: map<MCTSNode, seq<real>>)
      requires root != null && Searched(stop, mask, policy, paths, start) && stop != Deadline(0)
      ensures root.board.result == Undetermined && stop != Deadline(1) ==>
        Sum(root.ChildVisits()) == Known(root.children, start) as real + |paths| as real
    {
      hide Spread, Sum;
    }

    /** What is behind the policy that a search returns. */
    ghost function AnswerOf(policy: seq<real>, stop: Stop): Answer
      reads `root, (if root == null then {} else {root})`children
      reads (if root == null then {} else set c | c in root.children)`priorProb
      reads (if root == null then {} else set c | c in root.children)`visits
    {
      if root == null then Answer(policy, [], [])
      else Answer(policy, root.ChildIds(), if CutShort(stop) then root.PriorWeights() else root.VisitWeights())
    }

    lemma SearchAnswers(rootBoard: SizedBoard, stop: Stop, mask: bool, policy: seq<real>, paths: seq<seq<MCTSNode>>,
                        start: map<MCTSNode, seq<real>>)
      requires Valid() && PolicyFor(rootBoard, policy) && stop != Deadline(0)
      requires root != null ==> root.board == rootBoard
      requires SolvedAction(oracle, rootBoard) >= 0 ==> policy == SolvedEvaluation(SolvedAction(oracle, rootBoard)).pmf
      requires SolvedAction(oracle, rootBoard) < 0 ==> root != null && Searched(stop, mask, policy, paths, start)
      ensures Answers(oracle, rootBoard, AnswerOf(policy, stop))
      ensures SolvedAction(oracle, rootBoard) < 0 && rootBoard.result == Undetermined && Budget(stop, batchSize) > 0 ==>
        root.isExpanded && AnswerOf(policy, stop).weights == root.ChildVisits() && Sum(root.ChildVisits()) > 0.0
    {
      hide Valid, PolicyFor, Spread, SolvedEvaluation, SolvedAction, Sum, LegalAction;
      if SolvedAction(oracle, rootBoard) < 0 {
        ChildrenListLegal();
      } else {
        SolvedIsLegal(rootBoard);
      }
    }

    lemma ChildrenListLegal()
      requires Valid() && root != null && root.isExpanded && |root.board.cells| == N * N
      ensures ListsLegal(root.board, root.ChildIds())
    {
      hide Inv, LegalAction, ApplyCpp, MCTSNode.StatsOk, CacheOk;
      assert LocalOk(root);
      var ids := root.ChildIds();
      forall a | LegalAction(N, root.board, a) ensures a in ids {
        assert root.HasChild(a);
        var i :| 0 <= i < |root.children| && root.children[i].actionId == a;
        assert ids[i] == a;
      }
      forall a | a in ids ensures LegalAction(N, root.board, a) {
        var i :| 0 <= i < |ids| && ids[i] == a;
        assert root.IsChild(root.children[i]);
      }
    }

    /** The children of each node. */
    ghost function Kids(): map<MCTSNode, seq<MCTSNode>>
      reads `nodes, nodes`children
    {
      map nd | nd in nodes :: nd.children
    }

    /** The values backed up so far through each node. */
    ghost function AllBacked(): map<MCTSNode, seq<real>>
      reads `nodes, nodes`backed
    {
      map nd | nd in nodes :: nd.backed
    }

    /** What a search that was not settled at once leaves behind. */
    ghost predicate Searched(stop: Stop, mask: bool, policy: seq<real>, paths: seq<seq<MCTSNode>>,
                             start: map<MCTSNode, seq<real>>)
      requires root != null
      reads this, root, root.children
    {
      && root.isExpanded && |paths| == Budget(stop, batchSize)
      && Spread(NUM_ACTIONS, policy, root.ChildIds(),
                if CutShort(stop) then root.PriorWeights() else root.VisitWeights())
      && (!CutShort(stop) && root.board.result == Undetermined ==>
            Sum(root.ChildVisits()) == (Known(root.children, start) + |paths|) as real)
      && (mask && !CutShort(stop) ==> forall c :: c in root.children && c.priorProb <= 0.0 ==>
            c.backed == if c in start then start[c] else [])
    }

    lemma StillNothing(mask: bool, start: map<MCTSNode, seq<real>>)
      requires forall nd :: nd in nodes ==> nd.backed == if nd in start then start[nd] else []
      ensures Walked(mask, [], []) && BackedSince(start, [], [])
    {
    }

    /** The search of a tree whose root exists and is expanded. */
    method SearchTree(rootBoard: Board, stop: Stop, setup: RootSetup, ghost start: map<MCTSNode, seq<real>>)
      returns (policy: seq<real>, ghost paths: seq<seq<MCTSNode>>, ghost values: seq<real>)
      requires Valid() && SoundOracle(oracle) && batchSize >= 1 && SetupOk(setup) && stop != Deadline(0)
      requires root != null && root.board == rootBoard && root.isExpanded && |rootBoard.cells| == N * N
      requires setup.mask && !CutShort(stop) ==> OffersMove(rootBoard, RootPolicy(rootBoard, setup))
      requires start.Keys <= nodes && BackedSince(start, [], []) && Walked(setup.mask, [], [])
      modifies `nodes, `cache, `looked, nodes
      ensures Valid() && fresh(nodes - old(nodes)) && old(nodes) <= nodes
      ensures root.currentPlayer == rootBoard.seat && PolicyFor(rootBoard, policy)
      ensures rootBoard.result == Undetermined ==> Sum(policy) == 1.0
      ensures Walked(setup.mask, paths, values) && BackedSince(start, paths, values)
      ensures looked == old(looked) + OpenEnds(paths) && KeepsEntries()
      ensures root.children == old(root.children)
      ensures Searched(stop, setup.mask, policy, paths, start)
      ensures root.visits == |paths| + old(root.visits)
      ensures CutShort(stop) || root.policy == old(RootPolicy(rootBoard, setup))
    {
      hide Inv, ApplyCpp, LegalAction, TreeOk, StatsOk, LocalOk, Shape, MCTSNode.StatsOk, CacheOk, PathIn;
      hide OpenEnds, Valid;
      hide BackedBy, Spread, Sum, OffersMove, PolicyFor, SomeEligible, Walked, BackedSince, Searched;
      paths, values := [], [];
      NoOpenEnds();
      RootIn();
      RootSeat();
      if rootBoard.result == Undetermined {
        LiveRootHasChild();
      }
      if CutShort(stop) {
        policy := PriorPolicy(rootBoard);
        CutShortSearched(stop, setup.mask, policy, start);
        return;
      }
      policy, paths, values := SearchBatches(rootBoard, stop, setup, start);
    }

    /** The same when the clock leaves time to search. */
    method SearchBatches(rootBoard: Board, stop: Stop, setup: RootSetup, ghost start: map<MCTSNode, seq<real>>)
      returns (policy: seq<real>, ghost paths: seq<seq<MCTSNode>>, ghost values: seq<real>)
      requires Valid() && SoundOracle(oracle) && batchSize >= 1 && SetupOk(setup) && !CutShort(stop)
      requires root != null && root.board == rootBoard && root.isExpanded && |rootBoard.cells| == N * N
      requires setup.mask ==> OffersMove(rootBoard, RootPolicy(rootBoard, setup))
      requires start.Keys <= nodes && BackedSince(start, [], [])
      modifies `nodes, `cache, `looked, nodes
      ensures Valid() && fresh(nodes - old(nodes)) && old(nodes) <= nodes && root.board == rootBoard
      ensures PolicyFor(rootBoard, policy) && (old(root.children) != [] ==> Sum(policy) == 1.0)
      ensures Walked(setup.mask, paths, values) && BackedSince(start, paths, values)
      ensures looked == old(looked) + OpenEnds(paths) && KeepsEntries()
      ensures root.children == old(root.children)
      ensures Searched(stop, setup.mask, policy, paths, start)
      ensures root.visits == |paths| + old(root.visits) && root.policy == old(RootPolicy(rootBoard, setup))
    {
      hide Inv, ApplyCpp, LegalAction, TreeOk, StatsOk, LocalOk, Shape, MCTSNode.StatsOk, CacheOk, PathIn;
      hide OpenEnds, Valid, RootPolicy, SetupOk, CutShort, Budget, ThroughChildren;
      hide BackedBy, Spread, Sum, OffersMove, PolicyFor, SomeEligible, Walked, BackedSince, Searched;
      RootIn();
      PrepareRoot(rootBoard, setup);
      paths, values := RunBatches(rootBoard, stop, setup.mask, start);
      policy := VisitPolicy(rootBoard);
      SearchFacts(stop, setup.mask, policy, paths, values, start);
    }

    /** Gives the root its priors for the search. */
    method PrepareRoot(rootBoard: Board, setup: RootSetup)
      requires Valid() && SetupOk(setup) && root != null && root.board == rootBoard && root.isExpanded
      requires |rootBoard.cells| == N * N
      requires setup.mask ==> OffersMove(rootBoard, RootPolicy(rootBoard, setup))
      modifies nodes`priorProb, nodes`policy
      ensures Valid() && root.policy == old(RootPolicy(rootBoard, setup)) && SomeEligible(setup.mask)
    {
      hide Inv, ApplyCpp, LegalAction, TreeOk, StatsOk, LocalOk, Shape, MCTSNode.StatsOk, CacheOk, OffersMove;
      hide SomeEligible;
      RootIn();
      if setup.beforeSearch.Replaced? {
        SetRootPriors(setup.beforeSearch.pmf);
      }
      if setup.mask {
        MaskLeavesChild(rootBoard);
      } else {
        NoMask();
      }
    }

    lemma CutShortSearched(stop: Stop, mask: bool, policy: seq<real>, start: map<MCTSNode, seq<real>>)
      requires root != null && root.isExpanded && CutShort(stop)
      requires Spread(NUM_ACTIONS, policy, root.ChildIds(), root.PriorWeights())
      ensures Searched(stop, mask, policy, [], start)
    {
      hide Spread;
    }

    lemma NoMask()
      ensures SomeEligible(false)
    {
    }

    /** What the account of a search means at the root. */
    lemma SearchFacts(stop: Stop, mask: bool, policy: seq<real>, paths: seq<seq<MCTSNode>>, values: seq<real>,
                      start: map<MCTSNode, seq<real>>)
      requires Valid() && root != null && root.isExpanded && Walked(mask, paths, values)
      requires |values| == |paths| == Budget(stop, batchSize) && BackedSince(start, paths, values)
      requires !CutShort(stop) && Spread(NUM_ACTIONS, policy, root.ChildIds(), root.VisitWeights())
      requires ThroughChildren(paths)
      ensures Searched(stop, mask, policy, paths, start)
    {
      hide Valid, Sum, BackedBy, PathIn, Walked, Spread;
      if root.board.result == Undetermined {
        LiveRootHasChild();
        VisitsConserved(mask, paths, values, start);
      }
      if mask {
        RootChildIds();
        forall c | c in root.children && c.priorProb <= 0.0 ensures c.backed == if c in start then start[c] else [] {
          MaskedUntouched(paths, values, c);
        }
      }
    }

    lemma SolvedIsLegal(b: Board)
      requires |b.cells| == N * N && SolvedAction(oracle, b) >= 0
      ensures SolvedAction(oracle, b) < NUM_ACTIONS && PolicyFor(b, SolvedEvaluation(SolvedAction(oracle, b)).pmf)
      ensures Sum(SolvedEvaluation(SolvedAction(oracle, b)).pmf) == 1.0
    {
      var a := SolvedAction(oracle, b);
      var zero: seq<real> := seq(NUM_ACTIONS, _ => 0.0);
      SumOfZeros(zero);
      SumUpdate(zero, a, 1.0);
      assert SolvedEvaluation(a).pmf == zero[a := 1.0];
    }

    /** With the mask, some child of the root stays eligible. */
    lemma MaskLeavesChild(rootBoard: Board)
      requires TreeOk() && root != null && root.isExpanded && root.board == rootBoard && |rootBoard.cells| == N * N
      requires OffersMove(rootBoard, root.policy)
      ensures SomeEligible(true)
    {
      hide Inv, ApplyCpp, LegalAction;
      assert LocalOk(root);
      var a :| 0 <= a < |root.policy| && LegalAction(N, rootBoard, a) && root.policy[a] > 0.0;
      assert root.HasChild(a);
      var i :| 0 <= i < |root.children| && root.children[i].actionId == a;
      assert root.children[i] in root.children;
    }

    /** The batches of a search. */
    method RunBatches(rootBoard: Board, stop: Stop, mask: bool, ghost start: map<MCTSNode, seq<real>>)
      returns (ghost paths: seq<seq<MCTSNode>>, ghost values: seq<real>)
      requires Valid() && SoundOracle(oracle) && batchSize >= 1 && root != null && root.board == rootBoard
      requires root.isExpanded
      requires SomeEligible(mask) && start.Keys <= nodes && BackedSince(start, [], [])
      modifies `nodes, `cache, `looked
      modifies nodes`visits, nodes`valueSum, nodes`pending, nodes`backed, nodes`isExpanded, nodes`children, nodes`policy
      ensures Valid() && fresh(nodes - old(nodes)) && old(nodes) <= nodes && root.isExpanded
      ensures root.children == old(root.children) && root.policy == old(root.policy)
      ensures |paths| == Budget(stop, batchSize) && root.visits == old(root.visits) + |paths|
      ensures |values| == |paths| && Walked(mask, paths, values) && BackedSince(start, paths, values)
      ensures looked == old(looked) + OpenEnds(paths) && KeepsEntries()
      ensures ThroughChildren(paths)
    {
      hide Inv, ApplyCpp, LegalAction, TreeOk, StatsOk, LocalOk, Shape, MCTSNode.StatsOk, CacheOk, PathIn;
      hide OpenEnds;
      hide BackedBy, SomeEligible, Walked, Valid, BackedSince;
      paths, values := [], [];
      NoOpenEnds();
      NothingWalked(mask);
      var done, left := 0, if stop.Deadline? && stop.checks > 2 then stop.checks - 2 else 0;
      while if stop.Simulations? then done < stop.n else left > 0
        invariant done + (if stop.Simulations? then 0 else left * batchSize) <= Budget(stop, batchSize)
        invariant stop.Deadline? ==> done + left * batchSize == Budget(stop, batchSize)
        invariant start.Keys <= nodes
        invariant left >= 0 && done == |paths| == |values| && Valid() && fresh(nodes - old(nodes))
        invariant old(nodes) <= nodes
        invariant root.isExpanded && root.children == old(root.children) && root.policy == old(root.policy)
        invariant root.board == rootBoard && root.visits == old(root.visits) + done && SomeEligible(mask)
        invariant Walked(mask, paths, values) && BackedSince(start, paths, values)
        invariant looked == old(looked) + OpenEnds(paths) && KeepsEntries()
        invariant ThroughChildren(paths)
        decreases if stop.Simulations? then stop.n - done else left
      {
        var size := if stop.Deadline? || batchSize < stop.n - done then batchSize else stop.n - done;
        ghost var more, moreValues := OneBatch(rootBoard, size, mask, paths, values, start);
        OpenEndsConcat(paths, more);
        paths, values := paths + more, values + moreValues;
        done := done + size;
        if stop.Deadline? {
          OneBatchLess(left, batchSize);
          left := left - 1;
        }
      }
    }

    lemma OneBatchLess(left: int, size: int)
      ensures (left - 1) * size == left * size - size
    {
    }

    lemma NothingWalked(mask: bool)
      ensures Walked(mask, [], [])
    {
    }

    lemma WalkedConcat(mask: bool, paths: seq<seq<MCTSNode>>, values: seq<real>, more: seq<seq<MCTSNode>>,
                       moreValues: seq<real>)
      requires Walked(mask, paths, values) && Walked(mask, more, moreValues)
      ensures Walked(mask, paths + more, values + moreValues)
    {
      hide PathIn, PathTaken;
    }

    lemma WalkedFacts(mask: bool, paths: seq<seq<MCTSNode>>, values: seq<real>)
      requires Walked(mask, paths, values)
      ensures |values| == |paths| && forall k :: 0 <= k < |paths| ==>
        && PathIn(paths[k], nodes, root) && paths[k] != [] && End(paths[k]) in nodes
        && ValueTaken(oracle, looked, paths[k], values[k]) && PolicyTaken(oracle, looked, End(paths[k]))
      ensures forall k :: 0 <= k < |paths| && mask && |paths[k]| > 1 ==>
        paths[k][1] in nodes && paths[k][1].priorProb > 0.0
    {
      hide ValueTaken, PolicyTaken;
      forall k | 0 <= k < |paths| ensures PathTaken(paths[k], values[k]) {
      }
    }

    twostate lemma PolicyKept(nd: MCTSNode)
      requires KeepsChildren() && nd in nodes && old(PolicyTaken(oracle, looked, nd))
      ensures nd in old(nodes) ==> PolicyTaken(oracle, old(looked), nd)
    {
      hide ServedOpinion;
    }

    /** What was walked stays walked when nodes and look-ups are added. */
    lemma WalkedGrows(mask: bool, paths: seq<seq<MCTSNode>>, values: seq<real>, before: set<MCTSNode>,
                      was: seq<SizedBoard>)
      requires |values| == |paths| && before <= nodes && was <= looked
      requires forall k :: 0 <= k < |paths| ==>
        && PathIn(paths[k], before, root) && paths[k] != []
        && ValueTaken(oracle, was, paths[k], values[k]) && PolicyTaken(oracle, was, End(paths[k]))
      requires forall k :: 0 <= k < |paths| && mask && |paths[k]| > 1 ==> paths[k][1].priorProb > 0.0
      ensures Walked(mask, paths, values)
    {
      hide PathIn, ValueTaken, PolicyTaken;
      var more := looked[|was|..];
      assert looked == was + more;
      forall k | 0 <= k < |paths| ensures PathOk(paths[k]) && PathTaken(paths[k], values[k]) {
        PathGrows(paths[k], before, nodes, root);
        TakenStays(oracle, was, more, paths[k], values[k]);
      }
    }

    /** One batch of a search and what it adds to the account. */
    method OneBatch(rootBoard: Board, size: nat, mask: bool, ghost paths: seq<seq<MCTSNode>>, ghost values: seq<real>,
                    ghost start: map<MCTSNode, seq<real>>)
      returns (ghost more: seq<seq<MCTSNode>>, ghost moreValues: seq<real>)
      requires Valid() && SoundOracle(oracle) && root != null && root.board == rootBoard && root.isExpanded && size >= 1
      requires SomeEligible(mask) && |values| == |paths| && Walked(mask, paths, values)
      requires BackedSince(start, paths, values)
      requires start.Keys <= nodes
      modifies `nodes, `cache, `looked
      modifies nodes`visits, nodes`valueSum, nodes`pending, nodes`backed, nodes`isExpanded, nodes`children, nodes`policy
      ensures Valid() && fresh(nodes - old(nodes)) && old(nodes) <= nodes && root.isExpanded
      ensures root.children == old(root.children) && root.policy == old(root.policy)
      ensures |more| == |moreValues| == size && root.visits == old(root.visits) + size
      ensures Walked(mask, paths + more, values + moreValues) && BackedSince(start, paths + more, values + moreValues)
      ensures looked == old(looked) + OpenEnds(more) && KeepsEntries()
      ensures ThroughChildren(more)
    {
      hide Inv, ApplyCpp, LegalAction, TreeOk, StatsOk, LocalOk, Shape, MCTSNode.StatsOk, CacheOk, PathIn;
      hide OpenEnds;
      hide BackedBy, SomeEligible, Walked, Valid, Descends, ValueTaken, PolicyTaken, Credited, Snapshot, AllGreedy;
      ghost var before, was := nodes, looked;
      RootIn();
      WalkedNodes(mask, paths, values);
      WalkedFacts(mask, paths, values);
      more, moreValues := RunBatch(rootBoard, size, mask);
      forall k | 0 <= k < |paths| ensures PolicyTaken(oracle, was, End(paths[k])) {
        PolicyKept(End(paths[k]));
      }
      WalkedGrows(mask, paths, values, before, was);
      WalkedConcat(mask, paths, values, more, moreValues);
      forall nd | nd in nodes
        ensures BackedBy(paths + more, values + moreValues, nd) ==
          BackedBy(paths, values, nd) + BackedBy(more, moreValues, nd)
      {
        BackedByConcat(paths, values, more, moreValues, nd);
      }
      forall nd | nd in nodes - before ensures BackedBy(paths, values, nd) == [] {
        assert forall k :: 0 <= k < |paths| ==> nd !in paths[k];
        NotBacked(paths, values, nd);
      }
    }

    lemma RootIn()
      requires Valid() && root != null
      ensures root in nodes
    {
    }

    lemma WalkedNodes(mask: bool, paths: seq<seq<MCTSNode>>, values: seq<real>)
      requires Walked(mask, paths, values)
      ensures forall k, nd :: 0 <= k < |paths| && nd in paths[k] ==> nd in nodes
    {
      hide ValueTaken, PolicyTaken;
      forall k, nd | 0 <= k < |paths| && nd in paths[k] ensures nd in nodes {
        assert PathTaken(paths[k], values[k]);
      }
    }

    /** The policy while the clock leaves no time to search: the children's
        priors, or an even spread over the legal actions without a tree. */
    method EarlyPolicy(rootBoard: Board) returns (policy: seq<real>)
      requires Valid() && Inv(N, rootBoard) && |rootBoard.cells| == N * N && (root != null ==> root.board == rootBoard)
      ensures PolicyFor(rootBoard, policy)
      ensures root != null ==> Spread(NUM_ACTIONS, policy, root.ChildIds(), root.PriorWeights())
      ensures root == null ==> EvenPolicy(rootBoard, policy)
      ensures rootBoard.result == Undetermined && (root == null || root.isExpanded) ==> Sum(policy) == 1.0
    {
      hide Valid, Inv, Spread, Sum, PolicyFor, EvenPolicy, LegalAction;
      if root == null {
        policy := UniformPolicy(rootBoard);
      } else {
        policy := PriorPolicy(rootBoard);
        if root.isExpanded && rootBoard.result == Undetermined {
          LiveRootHasChild();
        }
      }
    }

    method UniformPolicy(b: Board) returns (policy: seq<real>)
      requires Inv(N, b) && |b.cells| == N * N
      ensures PolicyFor(b, policy)
      ensures EvenPolicy(b, policy)
      ensures b.result == Undetermined ==> Sum(policy) == 1.0
    {
      hide Inv, LegalAction, Spread, Sum, PolicyFor;
      var legal := ListLegalActions(N, b);
      forall k | 0 <= k < |legal| ensures LegalAction(N, b, legal[k]) && 0 <= legal[k] < NUM_ACTIONS {
        assert legal[k] in legal;
        InBounds(b, legal[k]);
      }
      var ids: seq<int> := seq(|legal|, i requires 0 <= i < |legal| => legal[i]);
      SumOfOnes(|legal|);
      policy := Fill(NUM_ACTIONS, ids, Ones(|legal|), |legal| as real);
      forall a | LegalAction(N, b, a) ensures a in ids {
        assert a in legal;
        var k :| 0 <= k < |legal| && legal[k] == a;
        assert ids[k] == a;
      }
      SpreadIsPolicy(b, policy, ids, Ones(|legal|));
      SpreadOfOnes(b, policy, ids);
      if b.result == Undetermined {
        LiveBoardHasMove(N, b);
        SpreadSumsToOne(NUM_ACTIONS, policy, ids, Ones(|legal|));
      }
    }

    lemma SpreadOfOnes(b: Board, policy: seq<real>, ids: seq<int>)
      requires Spread(NUM_ACTIONS, policy, ids, Ones(|ids|))
      ensures forall i, j :: i in ids && j in ids ==> policy[i] == policy[j]
    {
    }

    lemma SpreadIsPolicy(b: Board, policy: seq<real>, ids: seq<int>, weights: seq<real>)
      requires |b.cells| == N * N && Spread(NUM_ACTIONS, policy, ids, weights)
      requires forall i :: 0 <= i < |ids| ==> LegalAction(N, b, ids[i]) && weights[i] >= 0.0
      ensures PolicyFor(b, policy)
    {
      hide LegalAction, Share;
      forall a | 0 <= a < NUM_ACTIONS ensures policy[a] >= 0.0 && (policy[a] > 0.0 ==> LegalAction(N, b, a)) {
        if a in ids {
          var i :| 0 <= i < |ids| && ids[i] == a;
          ShareSign(weights[i], Sum(weights));
        }
      }
    }

    /** Creates and expands the root where needed, with the evaluator's policy or
        a masked one. */
    method EnsureRoot(rootBoard: Board, priors: Priors)
      requires Valid() && SoundOracle(oracle) && Inv(N, rootBoard) && (root != null ==> root.board == rootBoard)
      requires priors.Replaced? ==> |priors.pmf| == NUM_ACTIONS
      modifies `root, `nodes, nodes`isExpanded, nodes`children, nodes`policy
      ensures Valid() && fresh(nodes - old(nodes)) && old(nodes) <= nodes
      ensures root != null && root.board == rootBoard && root.isExpanded && (old(root) != null ==> root == old(root))
      ensures root.visits == if old(root) == null then 0 else old(root.visits)
      ensures root.policy == if old(root != null && root.isExpanded) then old(if root == null then [] else root.policy)
                             else if priors.Replaced? then priors.pmf else oracle.evaluator(rootBoard).pmf
      ensures forall nd :: nd in nodes - old(nodes) ==> nd.backed == []
      ensures Known(root.children, old(AllBacked())) as real == old(VisitsBelow(root))
    {
      hide Inv, ApplyCpp, LegalAction, CacheOk, TreeOk, StatsOk, Shape, MCTSNode.StatsOk, MCTSNode.PriorsAre, Sum;
      ghost var start := AllBacked();
      if root != null {
        RootIn();
      }
      KnownBelow(root);
      if root == null {
        CreateRoot(rootBoard);
      }
      if !root.isExpanded {
        var evaluation := oracle.evaluator(rootBoard);
        var pmf := if priors.Replaced? then priors.pmf else evaluation.pmf;
        RootIn();
        ghost var created := ExpandLeaf(root, rootBoard, pmf);
        KnownNone(root.children, start);
      }
    }

    /** Visits of a node's children, as a search finds them. */
    static ghost function VisitsBelow(nd: MCTSNode?): real
      reads (if nd == null then {} else {nd})`children
      reads (if nd == null then {} else set c | c in nd.children)`visits
    {
      if nd == null then 0.0 else Sum(nd.ChildVisits())
    }

    lemma KnownBelow(nd: MCTSNode?)
      requires Valid() && (nd != null ==> nd in nodes)
      ensures nd != null ==> Known(nd.children, AllBacked()) as real == VisitsBelow(nd)
      ensures VisitsBelow(nd) >= 0.0 && (nd == null || !nd.isExpanded ==> VisitsBelow(nd) == 0.0)
    {
      hide Inv, ApplyCpp, LegalAction, CacheOk, MCTSNode.StatsOk;
      if nd != null {
        assert LocalOk(nd);
        forall i | 0 <= i < |nd.children|
          ensures nd.children[i] in nodes && nd.children[i].visits == |nd.children[i].backed|
        {
          RootVisits(nd.children[i]);
        }
        KnownVisits(nd.children);
      }
    }

    lemma {:induction false} KnownVisits(kids: seq<MCTSNode>)
      requires forall i :: 0 <= i < |kids| ==> kids[i] in nodes && kids[i].visits == |kids[i].backed|
      ensures Known(kids, AllBacked()) as real == Sum(MCTSNode.VisitsOf(kids))
      decreases |kids|
    {
      if kids != [] {
        var m := |kids| - 1;
        assert MCTSNode.VisitsOf(kids)[..m] == MCTSNode.VisitsOf(kids[..m]);
        KnownVisits(kids[..m]);
      }
    }

    method CreateRoot(rootBoard: Board)
      requires Valid() && Inv(N, rootBoard) && root == null
      modifies `root, `nodes
      ensures Valid() && root != null && fresh(root) && nodes == old(nodes) + {root}
      ensures root.board == rootBoard && root.visits == 0 && root.backed == [] && !root.isExpanded
    {
      hide Inv, ApplyCpp, LegalAction, CacheOk, TreeOk, StatsOk, Shape, MCTSNode.StatsOk, MCTSNode.PriorsAre;
      ghost var before := nodes;
      TreeFacts();
      var r := new MCTSNode(-1, 1.0, rootBoard.seat, rootBoard, null, rootBoard.seat);
      root := r;
      nodes := nodes + {r};
      FreshStats(r);
      FreshNode(r);
      forall nd | nd in before ensures Shape(nd, nodes) {
        ShapeGrows(nd, before, nodes);
      }
      TreeFromFacts();
    }

    /** Gives every child of the root a new prior and touches nothing else. */
    method SetRootPriors(priors: seq<real>)
      requires Valid() && root != null && root.isExpanded && |priors| == NUM_ACTIONS
      modifies nodes`priorProb, root`policy
      ensures Valid() && root.policy == priors
      ensures forall c :: c in root.children ==> 0 <= c.actionId < NUM_ACTIONS && c.priorProb == priors[c.actionId]
      ensures forall nd :: nd in nodes && nd !in root.children ==> nd.priorProb == old(nd.priorProb)
    {
      hide Inv, ApplyCpp, LegalAction, MCTSNode.StatsOk, CacheOk, Shape, MCTSNode.PriorsAre, TreeOk, StatsOk;
      RootIn();
      KidsApart();
      RootChildIds();
      TreeFacts();
      ghost var others := nodes - {root};
      WritePriors(root.children, priors);
      root.policy := priors;
      PriorsWritten(root, priors);
      assert forall nd :: nd in others ==> Shape(nd, nodes) && old(nd.PriorsAre(nd.policy));
      TreeFromFacts();
    }

    lemma PriorsWritten(nd: MCTSNode, priors: seq<real>)
      requires forall c :: c in nd.children ==> 0 <= c.actionId < |priors| && c.priorProb == priors[c.actionId]
      ensures nd.PriorsAre(priors)
    {
    }

    method WritePriors(children: seq<MCTSNode>, priors: seq<real>)
      requires forall c :: c in children ==> 0 <= c.actionId < |priors|
      modifies (set c | c in children)`priorProb
      ensures forall c :: c in children ==> c.priorProb == priors[c.actionId]
    {
      for i := 0 to |children|
        invariant forall k :: 0 <= k < i ==> children[k].priorProb == priors[children[k].actionId]
      {
        children[i].priorProb := priors[children[i].actionId];
      }
    }

    /** No node but the root has the root's children. */
    lemma KidsApart()
      requires TreeOk() && root != null
      ensures forall nd, c :: nd in nodes && nd != root && c in nd.children ==> c !in root.children
    {
      hide Inv, ApplyCpp, LegalAction;
      assert LocalOk(root);
      forall i | 0 <= i < |root.children| ensures root.children[i].parent == root {
        assert root.IsChild(root.children[i]);
      }
      forall nd, c | nd in nodes && nd != root && c in nd.children ensures c !in root.children {
        assert LocalOk(nd);
        var i :| 0 <= i < |nd.children| && nd.children[i] == c;
        assert nd.IsChild(nd.children[i]);
      }
    }

    lemma RootChildIds()
      requires Valid() && root != null && root.isExpanded
      ensures forall c :: c in root.children ==> c in nodes && 0 <= c.actionId < NUM_ACTIONS
    {
      hide Inv, ApplyCpp, LegalAction, MCTSNode.StatsOk, CacheOk;
      assert LocalOk(root);
      forall i | 0 <= i < |root.children|
        ensures root.children[i] in nodes && 0 <= root.children[i].actionId < NUM_ACTIONS
      {
        assert root.IsChild(root.children[i]);
        InvShaped(N, root.board);
        InBounds(root.board, root.children[i].actionId);
      }
    }

    /** The children's shares of the visits; of their priors while no child has
        been visited. */
    method VisitPolicy(rootBoard: Board) returns (policy: seq<real>)
      requires Valid() && root != null && root.board == rootBoard && |rootBoard.cells| == N * N
      ensures PolicyFor(rootBoard, policy)
      ensures Spread(NUM_ACTIONS, policy, root.ChildIds(), root.VisitWeights())
      ensures root.children != [] ==> Sum(policy) == 1.0
    {
      hide Valid, Inv, LegalAction, PolicyFor, Spread, Sum, MCTSNode.PriorWeights;
      ChildrenOfRoot();
      var total := 0;
      SumOfZeros([]);
      for i := 0 to |root.children|
        invariant total as real == Sum(root.ChildVisits()[..i])
      {
        SumNext(root.ChildVisits(), i);
        total := total + root.children[i].visits;
      }
      assert root.ChildVisits()[..|root.children|] == root.ChildVisits();
      if total <= 0 {
        policy := PriorPolicy(rootBoard);
        return;
      }
      policy := Fill(NUM_ACTIONS, root.ChildIds(), root.ChildVisits(), total as real);
      SpreadIsPolicy(rootBoard, policy, root.ChildIds(), root.ChildVisits());
      SpreadSumsToOne(NUM_ACTIONS, policy, root.ChildIds(), root.ChildVisits());
    }

    /** The children's shares of the priors, negative ones cut off; even shares
        if none is positive. */
    method PriorPolicy(rootBoard: Board) returns (policy: seq<real>)
      requires Valid() && root != null && root.board == rootBoard && |rootBoard.cells| == N * N
      ensures PolicyFor(rootBoard, policy)
      ensures Spread(NUM_ACTIONS, policy, root.ChildIds(), root.PriorWeights())
      ensures root.children != [] ==> Sum(policy) == 1.0
    {
      hide Valid, Inv, LegalAction, PolicyFor, Spread, Sum;
      ChildrenOfRoot();
      var sum := 0.0;
      SumOfZeros([]);
      for i := 0 to |root.children|
        invariant sum == Sum(root.ChildPriors()[..i])
      {
        SumNext(root.ChildPriors(), i);
        sum := sum + if root.children[i].priorProb > 0.0 then root.children[i].priorProb else 0.0;
      }
      assert root.ChildPriors()[..|root.children|] == root.ChildPriors();
      if sum > 0.0 {
        policy := Fill(NUM_ACTIONS, root.ChildIds(), root.ChildPriors(), sum);
      } else {
        SumOfOnes(|root.children|);
        policy := Fill(NUM_ACTIONS, root.ChildIds(), Ones(|root.children|), |root.children| as real);
      }
      SpreadIsPolicy(rootBoard, policy, root.ChildIds(), root.PriorWeights());
      if root.children != [] {
        SpreadSumsToOne(NUM_ACTIONS, policy, root.ChildIds(), root.PriorWeights());
      }
    }

    lemma ChildrenOfRoot()
      requires Valid() && root != null && |root.board.cells| == N * N
      ensures Among(root.ChildIds(), NUM_ACTIONS) && Distinct(root.ChildIds())
      ensures forall i :: 0 <= i < |root.children| ==>
        LegalAction(N, root.board, root.ChildIds()[i]) && root.ChildVisits()[i] >= 0.0
    {
      hide Inv, LegalAction, ApplyCpp, MCTSNode.StatsOk, CacheOk;
      assert LocalOk(root);
      forall i | 0 <= i < |root.children|
        ensures LegalAction(N, root.board, root.ChildIds()[i]) && root.ChildVisits()[i] >= 0.0
        ensures 0 <= root.ChildIds()[i] < NUM_ACTIONS
      {
        ChildLegal(i);
        InBounds(root.board, root.children[i].actionId);
      }
    }

    /** A live root that was expanded has children. */
    lemma LiveRootHasChild()
      requires Valid() && root != null && root.isExpanded && root.board.result == Undetermined
      ensures root.children != []
    {
      hide MCTSNode.StatsOk, CacheOk;
      assert LocalOk(root);
      LiveBoardHasMove(N, root.board);
      var a :| LegalAction(N, root.board, a);
      assert root.HasChild(a);
    }

    /** Every path leads through a child of the root, if it has any. */
    ghost predicate ThroughChildren(paths: seq<seq<MCTSNode>>)
      reads `root, (if root == null then {} else {root})`children
    {
      root != null && root.children != [] ==>
        forall k :: 0 <= k < |paths| ==> |paths[k]| > 1 && paths[k][1] in root.children
    }

    /** The visits of the root's children are those from before the search and one
        for every path. */
    lemma {:induction false} VisitsConserved(mask: bool, paths: seq<seq<MCTSNode>>, values: seq<real>,
                                             start: map<MCTSNode, seq<real>>)
      requires Valid() && root != null && root.children != [] && Walked(mask, paths, values)
      requires |values| == |paths| && BackedSince(start, paths, values) && ThroughChildren(paths)
      ensures Sum(root.ChildVisits()) == (Known(root.children, start) + |paths|) as real
    {
      hide Inv, LegalAction, ApplyCpp, CacheOk, MCTSNode.StatsOk, Sum, BackedBy, PathTaken;
      hide TreeOk, StatsOk, Walked;
      var kids := root.children;
      KidsDistinct();
      forall k | 0 <= k < |paths| ensures Hits(kids, paths[k]) == 1 {
        OneChildOnPath(mask, paths, values, k);
      }
      OneEach(kids, paths, values);
      forall i | 0 <= i < |kids| ensures kids[i] in nodes && kids[i].visits == |kids[i].backed| {
        RootVisits(kids[i]);
      }
      VisitsAddUp(kids, start, paths, values);
    }

    lemma KidsDistinct()
      requires Valid() && root != null && root.children != []
      ensures forall i :: 0 <= i < |root.children| ==>
        root.children[i].parent == root != root.children[i] && root.children[i] in nodes
      ensures forall i, j :: 0 <= i < j < |root.children| ==> root.children[i] != root.children[j]
    {
      hide Inv, LegalAction, ApplyCpp, CacheOk, MCTSNode.StatsOk, MCTSNode.HasChild;
      assert LocalOk(root);
      forall i | 0 <= i < |root.children|
        ensures root.children[i].parent == root != root.children[i] && root.children[i] in nodes
      {
        ChildFacts0(root, i);
      }
    }

    /** A path passes through the root's children at its second node only. */
    lemma OneChildOnPath(mask: bool, paths: seq<seq<MCTSNode>>, values: seq<real>, k: nat)
      requires Walked(mask, paths, values) && k < |paths|
      requires root != null && root.children != [] && ThroughChildren(paths)
      requires forall i :: 0 <= i < |root.children| ==> root.children[i].parent == root != root.children[i]
      requires forall i, j :: 0 <= i < j < |root.children| ==> root.children[i] != root.children[j]
      ensures Hits(root.children, paths[k]) == 1
    {
      hide ValueTaken, PolicyTaken, Hits;
      var path, kids := paths[k], root.children;
      assert PathTaken(path, values[k]);
      var i :| 0 <= i < |kids| && kids[i] == path[1];
      forall j | 0 <= j < |kids| && j != i ensures kids[j] !in path {
        if kids[j] in path {
          var m :| 0 <= m < |path| && path[m] == kids[j];
          ChildIsSecond(kids[j], path, m);
        }
      }
      HitsOne(kids, path, i);
    }

    lemma ChildIsSecond(c: MCTSNode, path: seq<MCTSNode>, m: nat)
      requires PathOk(path) && m < |path| && path[m] == c && c.parent == root && c != root
      ensures m == 1
    {
      forall j | 1 < j < |path| ensures path[j].parent != root {
        assert path[j - 1] != path[0];
      }
    }

    /** With the mask, a child without a positive prior lies on no path. */
    lemma MaskedUntouched(paths: seq<seq<MCTSNode>>, values: seq<real>, c: MCTSNode)
      requires Valid() && root != null && Walked(true, paths, values) && c in root.children && c.priorProb <= 0.0
      ensures |values| == |paths| && BackedBy(paths, values, c) == []
    {
      hide Inv, LegalAction, ApplyCpp, CacheOk, ValueTaken, PolicyTaken, MCTSNode.StatsOk, StatsOk, BackedBy, Remaining;
      assert LocalOk(root);
      var i :| 0 <= i < |root.children| && root.children[i] == c;
      ChildFacts0(root, i);
      forall k | 0 <= k < |paths| ensures c !in paths[k] {
        forall j | 0 <= j < |paths[k]| ensures paths[k][j] != c {
          assert PathOk(paths[k]);
          if j > 1 {
            assert paths[k][j].parent == paths[k][j - 1] != paths[k][0];
          }
        }
      }
      NotBacked(paths, values, c);
    }

    lemma ChildFacts0(parent: MCTSNode, i: nat)
      requires Shape(parent, nodes) && parent.isExpanded && i < |parent.children|
      ensures parent.children[i].parent == parent && parent.children[i] != parent
    {
      hide Inv, Remaining, ApplyCpp, LegalAction;
      assert parent.IsChild(parent.children[i]);
      InvShaped(N, parent.board);
      ApplyUsesUpRemaining(N, parent.board, parent.children[i].actionId);
    }

    lemma ChildLegal(i: nat)
      requires Valid() && root != null && i < |root.children|
      ensures |root.board.cells| == N * N && LegalAction(N, root.board, root.children[i].actionId)
      ensures root.children[i].visits >= 0
    {
      assert LocalOk(root) && root.IsChild(root.children[i]);
      VisitsNonNegative(root.children[i]);
    }

    lemma RootSeat()
      requires Valid() && root != null
      ensures root.currentPlayer == root.board.seat && |root.board.cells| == N * N
    {
      assert LocalOk(root);
    }

    lemma VisitsNonNegative(nd: MCTSNode)
      requires Valid() && nd in nodes
      ensures nd.visits >= 0
    {
      assert nd.StatsOk(virtualLoss);
    }
  }
}
