/** The self-play generator: how workers claim games, and how the games against
    the previous champion are spread over all games and over both seats. */
module MixedGames {
  import opened Grid
  import opened Swap2

  // ----- Spreading ----------------------------------------------------

  /** Integer division of the share of the first k games. */
  function Share(games: nat, mixed: nat, k: nat): nat
    requires games > 0
  {
    Quotient(k * mixed, games)
  }

  predicate IsMixed(games: nat, mixed: nat, game: nat)
    requires games > 0
  {
    Share(games, mixed, game + 1) > Share(games, mixed, game)
  }

  /** The number of mixed games among the first k. */
  function CountMixed(games: nat, mixed: nat, k: nat): nat
    requires games > 0
  {
    if k == 0 then 0
    else CountMixed(games, mixed, k - 1) + if IsMixed(games, mixed, k - 1) then 1 else 0
  }

  function Quotient(x: nat, d: nat): nat
    requires d > 0
  {
    x / d
  }

  lemma QuotientSplit(x: nat, d: nat)
    requires d > 0
    ensures 0 <= x - Quotient(x, d) * d < d
  {
  }

  lemma QuotientIs(x: nat, d: nat, q: nat)
    requires d > 0 && q * d <= x < q * d + d
    ensures Quotient(x, d) == q
  {
    hide Quotient;
    QuotientSplit(x, d);
    if Quotient(x, d) < q {
      LaterRow(Quotient(x, d), q, d);
    } else if Quotient(x, d) > q {
      LaterRow(q, Quotient(x, d), d);
    }
  }

  /** Adding y to the dividend adds y / d to the quotient, or one more. */
  lemma QuotientOfSum(x: nat, y: nat, d: nat)
    requires d > 0
    ensures Quotient(x, d) + Quotient(y, d) <= Quotient(x + y, d) <= Quotient(x, d) + Quotient(y, d) + 1
  {
    hide Quotient;
    QuotientSplit(x, d);
    QuotientSplit(y, d);
    var q := Quotient(x, d) + Quotient(y, d);
    assert q * d == Quotient(x, d) * d + Quotient(y, d) * d;
    if x + y < q * d + d {
      QuotientIs(x + y, d, q);
    } else {
      QuotientIs(x + y, d, q + 1);
    }
  }

  lemma ShareOfSum(games: nat, mixed: nat, k: nat, l: nat)
    requires games > 0
    ensures Share(games, mixed, k) + Share(games, mixed, l) <= Share(games, mixed, k + l)
    ensures Share(games, mixed, k + l) <= Share(games, mixed, k) + Share(games, mixed, l) + 1
  {
    hide Quotient;
    assert (k + l) * mixed == k * mixed + l * mixed;
    QuotientOfSum(k * mixed, l * mixed, games);
  }

  /** One more game adds at most one to the share. */
  lemma ShareStep(games: nat, mixed: nat, k: nat)
    requires games > 0 && mixed <= games
    ensures Share(games, mixed, k) <= Share(games, mixed, k + 1) <= Share(games, mixed, k) + 1
  {
    hide Quotient;
    QuotientSplit(k * mixed, games);
    var q := Quotient(k * mixed, games);
    assert (k + 1) * mixed == k * mixed + mixed;
    if (k + 1) * mixed < q * games + games {
      QuotientIs((k + 1) * mixed, games, q);
    } else {
      QuotientIs((k + 1) * mixed, games, q + 1);
    }
  }

  /** Among the first k games exactly floor(k * mixed / games) are mixed. */
  lemma {:induction false} MixedAmongFirst(games: nat, mixed: nat, k: nat)
    requires games > 0 && mixed <= games
    ensures CountMixed(games, mixed, k) == Share(games, mixed, k)
  {
    hide Share;
    if k == 0 {
      ShareOfNone(games, mixed);
    } else {
      MixedAmongFirst(games, mixed, k - 1);
      ShareStep(games, mixed, k - 1);
    }
  }

  /** Exactly the requested number of games is mixed in total. */
  lemma {:induction false} MixedInTotal(games: nat, mixed: nat)
    requires games > 0 && mixed <= games
    ensures CountMixed(games, mixed, games) == mixed
  {
    hide Quotient;
    MixedAmongFirst(games, mixed, games);
    assert games * mixed == mixed * games;
    QuotientIs(games * mixed, games, mixed);
  }

  lemma ShareOfNone(games: nat, mixed: nat)
    requires games > 0
    ensures Share(games, mixed, 0) == 0
  {
  }

  /** So their number is the exact share of k, rounded down. */
  lemma {:induction false} MixedIsShare(games: nat, mixed: nat, k: nat)
    requires games > 0 && mixed <= games
    ensures CountMixed(games, mixed, k) * games <= k * mixed < (CountMixed(games, mixed, k) + 1) * games
  {
    MixedAmongFirst(games, mixed, k);
    QuotientSplit(k * mixed, games);
    hide Quotient;
    var q := CountMixed(games, mixed, k);
    assert (q + 1) * games == q * games + games;
  }

  /** Any l games in a row hold the rounded-down share of mixed games or one
      more, wherever they start. */
  lemma {:induction false} EveryWindowIsFair(games: nat, mixed: nat, k: nat, l: nat)
    requires games > 0 && mixed <= games
    ensures Quotient(l * mixed, games) <= CountMixed(games, mixed, k + l) - CountMixed(games, mixed, k)
    ensures CountMixed(games, mixed, k + l) - CountMixed(games, mixed, k) <= Quotient(l * mixed, games) + 1
  {
    hide Quotient;
    MixedAmongFirst(games, mixed, k);
    MixedAmongFirst(games, mixed, k + l);
    ShareOfSum(games, mixed, k, l);
  }

  // ----- Seats --------------------------------------------------------

  /** The generator's numbering of a mixed game. */
  function Ordinal(games: nat, mixed: nat, game: nat): int
    requires games > 0
  {
    Share(games, mixed, game + 1) - 1
  }

  function ChampionSeat(games: nat, mixed: nat, game: nat): Seat
    requires games > 0
  {
    if Ordinal(games, mixed, game) % 2 == 0 then A else B
  }

  /** The ordinal of a mixed game is the number of mixed games before it. */
  lemma {:induction false} OrdinalIsRank(games: nat, mixed: nat, game: nat)
    requires games > 0 && mixed <= games && IsMixed(games, mixed, game)
    ensures Ordinal(games, mixed, game) == CountMixed(games, mixed, game)
  {
    hide Share;
    ShareStep(games, mixed, game);
    MixedAmongFirst(games, mixed, game);
  }

  lemma {:induction false} CountGrows(games: nat, mixed: nat, j: nat, k: nat)
    requires games > 0 && j <= k
    ensures CountMixed(games, mixed, j) <= CountMixed(games, mixed, k)
    decreases k - j
  {
    hide IsMixed;
    if j < k {
      CountGrows(games, mixed, j, k - 1);
    }
  }

  /** Each of 0 to mixed - 1 is the ordinal of exactly one of the games. */
  lemma {:induction false} OrdinalsAreAPermutation(games: nat, mixed: nat, ordinal: nat)
    requires games > 0 && mixed <= games
    ensures ordinal < mixed <==>
            exists g: nat :: g < games && IsMixed(games, mixed, g) && Ordinal(games, mixed, g) == ordinal
    ensures forall g: nat, h: nat :: IsMixed(games, mixed, g) && IsMixed(games, mixed, h) && g != h ==>
              Ordinal(games, mixed, g) != Ordinal(games, mixed, h)
  {
    hide IsMixed, Ordinal;
    MixedInTotal(games, mixed);
    if ordinal < mixed {
      var g := GameOfRank(games, mixed, games, ordinal);
      OrdinalIsRank(games, mixed, g);
    }
    if exists g: nat :: g < games && IsMixed(games, mixed, g) && Ordinal(games, mixed, g) == ordinal {
      var g: nat :| g < games && IsMixed(games, mixed, g) && Ordinal(games, mixed, g) == ordinal;
      OrdinalIsRank(games, mixed, g);
      CountGrows(games, mixed, g + 1, games);
    }
    forall g: nat, h: nat | IsMixed(games, mixed, g) && IsMixed(games, mixed, h)
                            && Ordinal(games, mixed, g) == Ordinal(games, mixed, h)
      ensures g == h
    {
      OrdinalIsRank(games, mixed, g);
      OrdinalIsRank(games, mixed, h);
      if g < h {
        CountGrows(games, mixed, g + 1, h);
      } else if h < g {
        CountGrows(games, mixed, h + 1, g);
      }
    }
  }

  lemma {:induction false} GameOfRank(games: nat, mixed: nat, k: nat, rank: nat) returns (g: nat)
    requires games > 0 && rank < CountMixed(games, mixed, k)
    ensures g < k && IsMixed(games, mixed, g) && CountMixed(games, mixed, g) == rank
    decreases k
  {
    hide IsMixed;
    if rank < CountMixed(games, mixed, k - 1) {
      g := GameOfRank(games, mixed, k - 1, rank);
    } else {
      g := k - 1;
    }
  }

  /** The mixed games among the first k that put the current champion on a seat. */
  function CountSeat(games: nat, mixed: nat, k: nat, seat: Seat): nat
    requires games > 0
  {
    if k == 0 then 0
    else CountSeat(games, mixed, k - 1, seat)
         + if IsMixed(games, mixed, k - 1) && ChampionSeat(games, mixed, k - 1) == seat then 1 else 0
  }

  /** After any number of games the two seats differ by at most one, and seat A
      is the one that may be ahead. */
  lemma {:induction false} SeatsBalanced(games: nat, mixed: nat, k: nat)
    requires games > 0 && mixed <= games
    ensures CountSeat(games, mixed, k, A) + CountSeat(games, mixed, k, B) == CountMixed(games, mixed, k)
    ensures CountSeat(games, mixed, k, B) <= CountSeat(games, mixed, k, A) <= CountSeat(games, mixed, k, B) + 1
  {
    hide IsMixed, Ordinal;
    if k > 0 {
      SeatsBalanced(games, mixed, k - 1);
      if IsMixed(games, mixed, k - 1) {
        OrdinalIsRank(games, mixed, k - 1);
      }
    }
  }

  // ----- Claiming -----------------------------------------------------

  datatype Worker = Idle | Playing(game: nat) | Exited

  /** One atomic step of one worker. */
  datatype Step = Claim(worker: nat) | Complete(worker: nat) | Fail(worker: nat)

  /** The plan of one game: whom the current champion's network plays. */
  datatype Plan = SelfPlayGame | MixedGame(championSeat: Seat)

  function PlanOf(games: nat, mixed: nat, game: nat): Plan
    requires games > 0
  {
    if IsMixed(games, mixed, game) then MixedGame(ChampionSeat(games, mixed, game)) else SelfPlayGame
  }

  /** The games that the share of the first k counts are the mixed ones, and the
      current champion takes seat A in every other one, from the first on. */
  lemma {:induction false} PlansAlternate(games: nat, mixed: nat, game: nat)
    requires games > 0 && mixed <= games
    ensures var plan := PlanOf(games, mixed, game);
      && (plan.MixedGame? <==> CountMixed(games, mixed, game + 1) == CountMixed(games, mixed, game) + 1)
      && (plan.MixedGame? ==> plan.championSeat == if CountMixed(games, mixed, game) % 2 == 0 then A else B)
  {
    hide IsMixed, Ordinal;
    if IsMixed(games, mixed, game) {
      OrdinalIsRank(games, mixed, game);
    }
  }

  /** All shared counters together, with the worker that claimed each game and
      the games that were played to the end. */
  datatype State = State(
    workers: seq<Worker>, nextGame: nat, completedGames: nat, stop: bool, claimedBy: seq<nat>, finished: set<nat>)

  /** What one step does to the whole state. */
  function Next(games: nat, s: State, step: Step): State {
    var i := step.worker;
    if i >= |s.workers| then s
    else
      match step
      case Claim(_) =>
        if !s.workers[i].Idle? then s
        else if s.stop then s.(workers := s.workers[i := Exited])
        else if s.nextGame >= games then s.(workers := s.workers[i := Exited], nextGame := s.nextGame + 1)
        else
          s.(workers := s.workers[i := Playing(s.nextGame)],
             nextGame := s.nextGame + 1, claimedBy := s.claimedBy + [i])
      case Complete(_) =>
        if !s.workers[i].Playing? then s
        else s.(workers := s.workers[i := Idle], completedGames := s.completedGames + 1,
                finished := s.finished + {s.workers[i].game})
      case Fail(_) =>
        if !s.workers[i].Playing? then s else s.(workers := s.workers[i := Exited], stop := true)
  }

  function RunAll(games: nat, s: State, schedule: seq<Step>): State {
    if schedule == [] then s
    else Next(games, RunAll(games, s, schedule[..|schedule| - 1]), schedule[|schedule| - 1])
  }

  lemma {:induction false} StopStays(games: nat, s: State, schedule: seq<Step>)
    requires s.stop
    ensures RunAll(games, s, schedule).stop && RunAll(games, s, schedule).claimedBy == s.claimedBy
    decreases |schedule|
  {
    if schedule != [] {
      StopStays(games, s, schedule[..|schedule| - 1]);
    }
  }

  /** After a worker has failed no game is claimed any more, whatever the others do. */
  lemma {:induction false} NoClaimAfterFailure(games: nat, s: State, i: nat, schedule: seq<Step>)
    requires i < |s.workers| && s.workers[i].Playing?
    ensures var t := RunAll(games, Next(games, s, Fail(i)), schedule);
      t.stop && t.claimedBy == s.claimedBy
  {
    StopStays(games, Next(games, s, Fail(i)), schedule);
  }

  class GameGenerator {
    const games: nat
    const mixed: nat
    var workers: seq<Worker>
    var nextGame: nat
    var completedGames: nat
    var stop: bool
    /** What the worker that claimed game g was told to play. */
    var plans: seq<Plan>
    ghost var claimedBy: seq<nat>
    ghost var finished: set<nat>

    ghost function View(): State
      reads this
    {
      State(workers, nextGame, completedGames, stop, claimedBy, finished)
    }

    ghost predicate Valid()
      reads this
    {
      && games > 0 && mixed <= games
      && |claimedBy| == |plans| == (if nextGame < games then nextGame else games)
      && (forall i :: 0 <= i < |workers| && workers[i].Playing? ==>
            workers[i].game < |claimedBy| && claimedBy[workers[i].game] == i && workers[i].game !in finished)
      && (forall g :: 0 <= g < |claimedBy| ==>
            g in finished || stop || (claimedBy[g] < |workers| && workers[claimedBy[g]] == Playing(g)))
      && (forall g :: g in finished ==> g < |claimedBy|)
      && completedGames == |finished|
      && (forall i :: 0 <= i < |workers| && workers[i].Exited? ==> stop || nextGame >= games)
      && forall g :: 0 <= g < |plans| ==> plans[g] == PlanOf(games, mixed, g)
    }

    constructor (games: nat, mixed: nat, workerCount: nat)
      requires games > 0 && mixed <= games
      ensures Valid() && this.games == games && this.mixed == mixed
      ensures View() == State(seq(if workerCount < games then workerCount else games, _ => Idle), 0, 0, false, [], {})
    {
      this.games, this.mixed := games, mixed;
      workers := seq(if workerCount < games then workerCount else games, _ => Idle);
      nextGame, completedGames, stop := 0, 0, false;
      claimedBy, plans, finished := [], [], {};
    }

    /** What a worker computes for the game it claimed. */
    method PlanGame(game: nat) returns (plan: Plan)
      requires games > 0 && mixed <= games
      ensures plan == PlanOf(games, mixed, game)
    {
      var mixedBefore := game * mixed / games;
      var mixedThrough := (game + 1) * mixed / games;
      if mixedThrough > mixedBefore {
        var mixedOrdinal := mixedThrough - 1;
        plan := MixedGame(if mixedOrdinal % 2 == 0 then A else B);
      } else {
        plan := SelfPlayGame;
      }
    }

    /** An idle worker takes the next index, or exits when there is none left or
        another worker has failed. */
    method ClaimGame(i: nat)
      requires Valid() && i < |workers|
      modifies this
      ensures Valid() && View() == Next(games, old(View()), Claim(i))
    {
      hide PlanOf;
      if !workers[i].Idle? {
        return;
      }
      if stop {
        workers := workers[i := Exited];
        return;
      }
      var game := nextGame;
      nextGame := nextGame + 1;
      if game >= games {
        workers := workers[i := Exited];
        return;
      }
      var plan := PlanGame(game);
      workers := workers[i := Playing(game)];
      claimedBy := claimedBy + [i];
      plans := plans + [plan];
    }

    /** A worker writes its examples and counts the game. */
    method CompleteGame(i: nat)
      requires Valid() && i < |workers|
      modifies this
      ensures Valid() && View() == Next(games, old(View()), Complete(i))
    {
      hide PlanOf;
      if workers[i].Playing? {
        finished := finished + {workers[i].game};
        completedGames := completedGames + 1;
        workers := workers[i := Idle];
      }
    }

    /** A worker throws: everybody is told to stop. */
    method FailGame(i: nat)
      requires Valid() && i < |workers|
      modifies this
      ensures Valid() && View() == Next(games, old(View()), Fail(i))
    {
      hide PlanOf;
      if workers[i].Playing? {
        stop := true;
        workers := workers[i := Exited];
      }
    }

    /** Any interleaving of the workers: no index is claimed twice, and when all
        workers have left without a failure every game was played to the end by
        exactly one of them, as planned. */
    method RunWorkers(schedule: seq<Step>)
      requires Valid() && workers != []
      modifies this
      ensures Valid() && View() == RunAll(games, old(View()), schedule)
      ensures (forall i :: 0 <= i < |workers| ==> workers[i] == Exited) && !stop ==>
                |claimedBy| == |plans| == completedGames == games && forall g: nat :: g in finished <==> g < games
    {
      hide PlanOf, Next;
      for n := 0 to |schedule|
        invariant Valid() && View() == RunAll(games, old(View()), schedule[..n])
        invariant |workers| == |old(workers)|
      {
        hide Valid;
        assert schedule[..n + 1][..n] == schedule[..n];
        Perform(schedule[n]);
      }
      assert schedule[..|schedule|] == schedule;
      if (forall i :: 0 <= i < |workers| ==> workers[i] == Exited) && !stop {
        assert workers[0] == Exited;
        SizeOfRange(finished, games);
      }
    }

    method Perform(step: Step)
      requires Valid()
      modifies this
      ensures Valid() && View() == Next(games, old(View()), step) && |workers| == |old(workers)|
    {
      hide Valid;
      if step.worker < |workers| {
        match step
        case Claim(i) => ClaimGame(i);
        case Complete(i) => CompleteGame(i);
        case Fail(i) => FailGame(i);
      }
    }
  }

  lemma {:induction false} SizeOfRange(s: set<nat>, n: nat)
    requires forall g: nat :: g in s <==> g < n
    ensures |s| == n
  {
    if n > 0 {
      SizeOfRange(s - {n - 1}, n - 1);
      assert s == s - {n - 1} + {n - 1};
    } else {
      assert s == {};
    }
  }
}
