# Swap2 Gomoku: a verified model

A Dafny 4.11 model of the hard parts of a Swap2 Gomoku system: the C++ engine
(rules board, threat solver, batched tree search, self-play, training data), the
C++ match client, and the Python referee (rules board, match server, rating
engine). Objects that the system updates in place are classes whose methods are
proved against functions of the old state; what those functions mean for the
game, for every run and for every interleaving, is proved as lemmas.

`dafny verify dfyconfig.toml` checks everything.

## What is proved

**The exact-five rule** (`grid.dfy`). A run of exactly five wins, six or more
does not, told on rows, columns and diagonals. The last-move test, by counting the runs through one square, agrees
with a scan of the whole board; a stone of one colour changes the other colour's
winning squares only by occupying one.

**The threat solver** (`vcf_theory.dfy`, `vcf_solver.dfy`, `vcf_game.dfy`,
`defender_stone.dfy`). A win by continuous fours is defined as a game against
every legal reply, without reference to the search. The in-place make/unmake
search returns a line only if that win exists, whatever the node budget and the
hash keys; if the budget is not exceeded and no two positions met share a hash,
an empty answer means that no such win exists and any other answer is the one line
that is first at each of its turns, so the counter-win filter, the distance-four
prune, the created-threat scan and the failed-position cache change nothing. The position and its hash are restored on every return. On the rules
board the first ply of a returned line wins the game by force, overlines and
draws included.

**The two rules boards** (`swap2.dfy`, `engine_board.dfy`, `referee_rules.dfy`,
`engines_agree.dfy`). One invariant for all five phases, for every legal run; the
stored result agrees with the whole board; `Retract` restores every field at
every step of every run; the incremental signature equals the one computed from
scratch, each of whose bits counts stones and fields; each control action is told
by its number, colours and seat; every run ends within n*n placements and two control actions; and the
C++ and Python engines accept the same histories and agree on every field that a
client can see.

**The tree search and its drivers** (`opinions.dfy`, `mcts.dfy`, `policies.dfy`,
`root_priors.dfy`, `self_play.dfy`, `match_client.dfy`, `solved_root.dfy`). Every
simulation of a batch walks greedily from child to child, after the losses charged
for the walks before it, down to a leaf; exactly the open leaves are looked up in
the cache; a value is the result of a finished board or the opinion on the first
board looked up with the leaf's signature, which is the leaf itself if and only if
no earlier one shares its signature; and a search adds to every node exactly what
the walks through it are worth to the seat to move there, one for a game won and
minus one for a game lost, with no virtual loss left over and one visit to one
child of the root per simulation, on top of those of the part of the tree that the
driver kept. The policy is the children's share
of the visits and sums to one; the client plays a most visited action, and
self-play records with each position the policy that its action came from. With a
solver that keeps its contract the action played at a solved root wins by force.
Mask and noise together leave the search a child to select, and without noise a
search from an empty tree gives no unsafe move any weight.

**The match referee** (`referee_steps.dfy`, `referee_runs.dfy`,
`referee_verdicts.dfy`, `referee_examples.dfy`, `match_referee.dfy`, `elo.dfy`,
`match_loop.dfy`). What can
be seen of the server, its games, connections, messages, journalled results and
rating writes, is a deterministic machine; the server, with its objects and
failing writes, is proved to be in exactly the state of that machine after every
sequence of steps. What each step makes of each game and announces about it is told
once more without that machine: who loses, why, and by which result, a late player
and a resigning one included. Of every run: histories only grow, finished games never change,
and no connected player loses by disconnection. A disconnect grace ends early, a
game has an absent player without a pending forfeit, and the clock stops, each
under an exact condition that runs from the empty server meet. Besides, a game's
board is the replay of its history except for a forfeited result, the journal is
exactly that history, and each game is announced finished and rated at most once.
Each rating row gives the winner points by its literal factor and score. The
rating table is the fold of its rows exactly if no update that stopped
half-way was made durable. What the referee sends is understood by the client, and
what the client answers is accepted.

**Real arithmetic and concurrency** (`half_float.dfy`, `batching.dfy`,
`mixed_games.dfy`, `packed_board.dfy`). Binary32 to binary16 conversion rounds
to nearest, ties to even, and keeps the order of signed numbers; batching loses
and reorders nothing and gives every request the answer it would have got alone;
mixed games are spread evenly over games and seats.

## How it is modelled

- A machine word of a hash is the set of its one-bits; keys are arbitrary.
- Floating-point numbers of the search and of the ratings are reals; the power
  function in the expected score is an arbitrary function into (0, 1). Only the
  half-float conversion works on bits.
- The evaluator and the network are functions from boards to a policy of the
  right length and a value in [-1, 1]. Clock readings, random draws, root priors
  after noise or masking, and how far each store write gets are parameters; a
  deadline is the number of clock checks that come before it.
- The order in which the server visits its games is that of their creation, as in a
  Python dictionary.
- The rating engine uses the connection of the server's store, as in deployment:
  a journal write of any game commits or rolls back what it left pending.
- A handler runs under one lock, so it is one step; a sequence of steps is any
  interleaving. A wait that releases the lock ends a step.
- The referee's board side is a parameter n >= 5; the engine's is 15.

## Where code and documentation disagree

- The comment at `engine/src/vcf_solver.cpp:420-424` says that a defender stone
  cannot create a forcing line for the attacker. Under exact-five it can:
  `DefenderStone.DefenderStoneExposes` gives a position, and
  `DefenderStone.StoneLosesTheGame` a legal game in which it decides. One more
  stone takes away a winning square exactly under the condition of
  `DefenderStone.OneMoreStone`; a stone at the end of no five that the defender
  could still make is harmless, `DefenderStone.RemoteStoneExposesNothing`.
- The protocol document (section 2.2, on winning) describes a five during the
  opening as a draw, and `protocol/python/gomoku_match/board.py:393-396` has the
  branch. No five can occur there: `Swap2.LastMoveMatchesWholeBoard`.
- `engine/src/self_play.cpp:101-104` allows for five control actions; a run has
  at most two: `Swap2.RunsEnd`, `SelfPlay.RunGame`.
- `engine/src/self_play.cpp:69-75` draws from [0, total). A draw of exactly zero
  picks the first legal action even if its weight is zero; every other draw picks
  an action of positive weight: `SelfPlay.SampleAction`.
- Root noise runs after the defensive mask (`engine/src/mcts.cpp:326-329`) and
  gives a masked move a positive prior exactly when its own noise is positive:
  `RootPriors.AddDirichletNoise`.
- `engine/src/batched_blocking_queue.h:49-53` promises an empty batch only after
  shutdown. That holds exactly when the batch size is positive:
  `Batching.BatchedBlockingQueue.DrainBatch`.
- The grace period is meant to let a player come back
  (`protocol/python/gomoku_match/server.py:371-376`). It is not absolute: before its
  end a pending forfeit comes true exactly if the turn comes to a player without a
  connection, by a stored move that leaves the board open or by the first turn of
  the game (`RefereeRuns.GraceIsCutExactly`, in runs `RefereeRuns.GraceInRuns`).
  `RefereeExamples.GraceDoesNotProtect` is a run from the empty server: the opener's
  third stone at time 1 ends a game whose forfeit is due at time 60000.
- Nor does every absent player have a forfeit pending. A game loses that exactly if
  it is created with an absent player, if a player returns while the opponent is
  away, which lifts the opponent's forfeit too, or if a departure is cut short by a
  failing write before it reaches the game (`RefereeRuns.WatchIsLostExactly`, in runs
  `RefereeRuns.WatchInRuns`). A run for each: `RefereeExamples.OpenedUnwatched`,
  `RefereeExamples.ReturnedUnwatched`, `RefereeExamples.DroppedUnwatched`.
- The ratings are meant to follow from their audit rows. A rating update writes
  three times and commits, without a rollback on failure
  (`protocol/python/gomoku_match/elo.py:258-299`), the server swallows the
  exception (`protocol/python/gomoku_match/server.py:907-908`), and the next
  journal write commits what is pending: `Elo.HalfWriteBecomesDurable` gives the
  run, and `Elo.FoldExactlyWithoutHalfWrites` the exact condition.
- A store write that fails in a clock tick ends the clock thread: the exception
  leaves the loop at `protocol/python/gomoku_match/server.py:924-959`, which has no
  handler. The clock runs on exactly after ticks whose results the journal takes
  (`RefereeRuns.AfterLobby`); games stay playable without it, but none ends by timeout
  any more (`RefereeRuns.NoTimeoutWithoutClock`). `RefereeExamples.ClockStops` is a
  run that gets there.
- The evaluation cache is keyed by signature alone (`engine/src/mcts.cpp:396-450`), so
  a board can be served another board's opinion: exactly if an earlier board with its
  signature was looked up since the cache was emptied, `Opinions.OwnOpinionExactly`.

## Model

| member | source | states |
|---|---|---|
| `Grid.CountInDirection` | engine/src/vcf_solver.cpp:24-35 | The loop returns the exact length of the run that starts one step away: that many stones follow and the next square is not one |
| `Grid.FiveMeans` | engine/src/vcf_solver.cpp:97-125 | A colour has an exact five if and only if, by columns and rows of the board, five stones of it stand in a row, a column or a diagonal and neither neighbour of the stretch is another |
| `Grid.RunsDecideFive` | engine/src/vcf_solver.cpp:127-140 | The two run lengths add up to five with the square itself if and only if some exact five on that line contains the square |
| `Grid.LastMoveDecides` | engine/src/board.cpp:303-333 | On a board without a five, a new stone makes a five anywhere on the board if and only if the last-move test on its own square finds one |
| `Grid.FiveContains` | engine/src/vcf_solver.cpp:183-228 | An exact five that appears with a stone contains that stone |
| `Grid.OtherColourKeepsFives` | engine/src/vcf_solver.cpp:382-386 | A stone of one colour neither makes nor breaks an exact five of the other |
| `Grid.OtherColourTakesOneSquare` | engine/src/vcf_solver.cpp:266-271 | A stone of one colour changes the winning squares of the other exactly by the square it occupies |
| `VcfTheory.ForcedLineWins` | engine/src/vcf_solver.cpp:249-330 | The first move of a forced line wins against every legal reply at every turn, not only those shown |
| `VcfTheory.SingleThreatReduces` | engine/src/vcf_solver.cpp:308-318 | With one winning square the attack wins if and only if the position after the one blocking reply is won |
| `VcfTheory.CounterWinRefutes` | engine/src/vcf_solver.cpp:277-283 | An attack that leaves the defender a winning square elsewhere does not win |
| `VcfTheory.CreatedWinsAreAllWins` | engine/src/vcf_solver.cpp:183-228 | After an attack from a position without an attacker win, the fast scan along the lines of the attack finds exactly the winning squares of the full scan |
| `VcfTheory.IsolatedMoveThreatensNothing` | engine/src/vcf_solver.cpp:230-245 | A move with no friendly stone within line distance four creates no winning square and starts no win: the prune is lossless, gapped shapes included |
| `VcfTheory.ScannedWins` | engine/src/vcf_solver.cpp:259-295 | After the filters the scanned squares are all winning squares of the attacker, and the defender has none |
| `VcfTheory.AttackOutcome` | engine/src/vcf_solver.cpp:293-311 | No winning square means the attack fails, one means it forces exactly that reply, two or more mean it wins |
| `VcfTheory.FirstLineIsOne` | engine/src/vcf_solver.cpp:249-330 | There is at most one forced line that takes the first winning square, or the first move that wins, at each of its turns |
| `VcfTheory.QuietMoveKeepsLive` | engine/src/vcf_solver.cpp:382-386 | A move that is no winning square leaves both colours without an exact five anywhere |
| `VcfTheory.ForcedPairKeepsLive` | engine/src/vcf_solver.cpp:382-386 | An attack and its forced reply leave both colours without an exact five, so no five ever appears during the search |
| `VcfSolver.MakesExactFive` | engine/src/vcf_solver.cpp:127-140 | True if and only if the cell is empty and a stone there is part of an exact five |
| `VcfSolver.WinningMoves` | engine/src/vcf_solver.cpp:142-150 | Exactly the winning squares, in ascending order without repetition |
| `VcfSolver.HasExactFive` | engine/src/vcf_solver.cpp:97-125 | True if and only if the whole board holds an exact five of the colour |
| `VcfSolver.HasStoneWithinLineDistance4` | engine/src/vcf_solver.cpp:234-245 | True if and only if a stone of the colour lies within four steps on one of the four lines |
| `VcfSolver.FindCreatedWinningMoves` | engine/src/vcf_solver.cpp:189-228 | Exactly the squares that complete a five together with the stone just placed, without repetition |
| `VcfSolver.MakeMove` | engine/src/vcf_solver.cpp:85-89 | Places one stone and keeps the running hash equal to the hash of the position, which is what `Zobrist.HashBits` says |
| `VcfSolver.UnmakeMove` | engine/src/vcf_solver.cpp:91-95 | Restores the position and its hash |
| `VcfSolver.HashPosition` | engine/src/vcf_solver.cpp:65-74 | The hash of the position: each of its bits is set if and only if an odd number of stones have it in their key (`Zobrist.HashBits`) |
| `VcfSolver.Enter` | engine/src/vcf_solver.cpp:251-255 | The budget test and the failed-position lookup: pruned if and only if the budget is used up or the hash is recorded; a pruned position has no win as long as the budget lasts and no hashes collide |
| `VcfSolver.TryAttack` | engine/src/vcf_solver.cpp:274-326 | One candidate attack: a returned line is forced, wins and, while budget and hashes are reliable, goes on with the first line after its reply; no line means this attack does not win; position and hash are restored, visits and visited positions stay within the attack's part of the forcing tree |
| `VcfSolver.Search` | engine/src/vcf_solver.cpp:249-330 | A returned line is forced; while budget and hashes are reliable it is the first line, and no line means no win; a position searched in vain is recorded; position, hash and cache consistency are kept on every return path |
| `VcfSolver.SolveVCF` | engine/src/vcf_solver.cpp:376-402 | Sound for every budget and key table; if the budget was not exceeded and no two positions met share a hash, the answer is empty exactly if there is no win, and otherwise the one first line; the positions met belong to the tree of forced continuations, whose size bounds the visits; empty for positions with a five or without a mover |
| `Zobrist.HashAfterPlacing` | engine/src/vcf_solver.cpp:65-95 | XORing one key into the hash of a position gives the hash of the position with that stone, and back |
| `Zobrist.HashBits` | engine/src/vcf_solver.cpp:65-74 | A bit of the hash is set if and only if an odd number of cells hold a black stone whose black key has it or a white stone whose white key has it |
| `VcfGame.StandardMove` | engine/src/board.cpp:193-209 | A standard placement wins for the mover if and only if the solver calls its square a winning square; otherwise, while a cell is left, the other seat is to move |
| `VcfGame.VcfMoveWinsGame` | engine/src/vcf_solver.cpp:404-408 | A move that wins by continuous fours wins the game by force: the mover can answer every legal action of the opponent up to its own win |
| `VcfGame.LineReplays` | engine/src/vcf_solver.cpp:249-330 | Every ply of a line is legal on the rules board when its turn comes |
| `VcfGame.SolveBoard` | engine/src/vcf_solver.cpp:338-408 | Empty outside live standard positions; a returned line replays legally and its first ply wins the game by force for the seat to move |
| `DefenderStone.DefenderStoneExposes` | engine/src/vcf_solver.cpp:420-424 | A concrete position without an attacker win by fours that has one after a further defender stone: the comment's claim is false |
| `DefenderStone.BeforeArises` | engine/src/vcf_solver.cpp:420-424 | That position arises after nine legal stones, with the defender to move |
| `DefenderStone.StoneLosesTheGame` | engine/src/vcf_solver.cpp:404-424 | In that game the defender could win at once, and the further stone gives the attacker a forced win of the game |
| `DefenderStone.OneMoreStone` | engine/src/vcf_solver.cpp:420-424 | After one more stone of its owner a square still wins if and only if some five of it does not end next to the stone, or the two stones complete a five together |
| `DefenderStone.RemoteStoneExposesNothing` | engine/src/vcf_solver.cpp:420-424 | A defender stone that completes no five and stands at the end of none that the defender could still make gives the attacker no new win by fours |
| `Swap2.ApplyTouchesOneCell` | engine/src/board.cpp:184-246 | An action changes at most its own cell |
| `Swap2.Initial` | engine/src/board.cpp:142-158 | The initial board satisfies the invariant for every side from five up |
| `Swap2.ApplyKeepsInv` | engine/src/board.cpp:184-301 | Every legal action of every phase keeps stone counts, phase table, seats and the agreement of the result with the whole board |
| `Swap2.FiveNeedsFive` | protocol/python/gomoku_match/board.py:388-396 | A colour with an exact five has at least five stones, so none is possible in the opening |
| `Swap2.StandardResult` | engine/src/board.cpp:193-209 | The result set by a standard placement agrees with a scan of the whole board for both colours |
| `Swap2.LastMoveMatchesWholeBoard` | engine/src/board.cpp:193-209 | On every legal run the result is a win if and only if the board holds a five, the winner's seat holds that colour, a draw is a full board without a five, and black is ahead by nought or one stone |
| `Swap2.RetractUndoesApply` | engine/src/board.cpp:347-413 | Retracting a legal action restores every field, after wins and draws too |
| `Swap2.RetractRestoresEveryStep` | engine/src/board.cpp:347-413 | Retracting any tail of a run gives back the board before it |
| `Swap2.ChildSeatIsNextSeat` | engine/src/board.cpp:248-275 | The predicted seat of a child is the seat that the action yields |
| `Swap2.ControlMeans` | engine/src/board.cpp:210-243 | Each control action, by its number: the chooser holds the colour named and the other seat the other one, standard play begins with white and the seat that holds it; or the second player goes on to place two stones |
| `Swap2.LegalMeans` | engine/src/board.cpp:160-182 | What is legal on a live reachable board, by stones placed and phase: the empty cells, the first three controls after three stones, the last two after five |
| `Swap2.LiveBoardHasMove` | engine/src/board.cpp:160-182 | Every undetermined reachable board has a legal action |
| `Swap2.ApplyUsesUpRemaining` | engine/src/board.cpp:184-246 | Every action uses up one of the finitely many actions that can still follow |
| `Swap2.RunsEnd` | engine/src/self_play.cpp:101-106 | Every run is at most n*n placements and two control actions long and cannot be continued exactly when it has a result |
| `Swap2.SplitRun` | engine/src/match_client.cpp:393-404 | Applying a run in two parts is applying it at once |
| `Swap2.ListLegalActions` | engine/src/board.cpp:160-182 | Exactly the legal actions in ascending order |
| `EngineBoard.ToggleAround` | engine/src/board.cpp:184-246 | Toggling the touched keys out before a change and in after it turns the signature of the old board into that of the new one |
| `EngineBoard.TransposedRunsAgree` | engine/src/board.cpp:184-246 | Runs that agree on stones, phase and seat A's colour agree on the whole state and its signature, whatever the order of their moves |
| `EngineBoard.SignatureBits` | engine/src/board.cpp:415-426 | A bit of the signature is set if and only if an odd number of stones and scalar fields have it in their key |
| `EngineBoard.FieldChangesSignature` | engine/src/board.cpp:415-426 | Changing one scalar field changes the signature by the keys of its old and its new value |
| `Opinions.SigOfObject` | engine/src/mcts.cpp:391-400 | What the cache is keyed by is the signature that the engine's board object keeps up to date |
| `EngineBoard.Board15.constructor` | engine/src/board.cpp:142-158 | The initial board with the signature computed from scratch |
| `EngineBoard.Board15.CheckWin` | engine/src/board.cpp:303-333 | True if and only if an exact five runs through the cell |
| `EngineBoard.Board15.TransitionPhase` | engine/src/board.cpp:277-301 | The phase table as a function of the old state |
| `EngineBoard.Board15.ToggleHash` | engine/src/board.cpp:415-426 | XORs the keys of the touched cell and of all scalar fields |
| `EngineBoard.Board15.GetLegalActions` | engine/src/board.cpp:160-182 | Exactly the legal actions in ascending order |
| `EngineBoard.Board15.Apply` | engine/src/board.cpp:184-246 | The board becomes the specified successor, by the literal table of the control actions too; nothing happens on a finished board, and the signature stays the one computed from scratch |
| `EngineBoard.Board15.Retract` | engine/src/board.cpp:347-413 | The specified predecessor with its signature |
| `EngineBoard.ApplyThenRetract` | engine/src/board.cpp:184-413 | Applying and retracting a legal action in place restores the board and its signature |
| `RefereeRules.RefereeBoard.constructor` | protocol/python/gomoku_match/board.py:142-167 | An empty board with an empty history |
| `RefereeRules.RefereeBoard.LegalSet` | protocol/python/gomoku_match/board.py:335-356 | Exactly the legal actions of the phase |
| `RefereeRules.RefereeBoard.Apply` | protocol/python/gomoku_match/board.py:228-246 | A legal action gives the specified successor, by the literal table of the control actions too, and is appended to the history; an illegal one changes nothing |
| `RefereeRules.RefereeBoard.ApplyPlacement` | protocol/python/gomoku_match/board.py:248-286 | The placement branches of the phase machine with the terminal check |
| `RefereeRules.RefereeBoard.CheckTerminalAfterPlacement` | protocol/python/gomoku_match/board.py:366-398 | The result after a placement: a win for the seat of the stone on an exact five, a draw on a full board |
| `RefereeRules.RefereeBoard.ApplyControl` | protocol/python/gomoku_match/board.py:288-333 | The control branches of the phase machine: who holds which colour, who is to move, and in which phase, for each of the five actions |
| `RefereeRules.ControlMeansPy` | protocol/python/gomoku_match/board.py:288-333 | The same table of control actions for the referee's board as for the engine's |
| `RefereeRules.RefereeBoard.Replay` | protocol/python/gomoku_match/board.py:400-402 | Applies exactly the legal prefix of a list and stops at the first illegal action |
| `RefereeRules.RefereeBoard.Restore` | protocol/python/gomoku_match/server.py:994-1017 | Puts a snapshot back, history included |
| `RefereeRules.ReplayAppends` | protocol/python/gomoku_match/board.py:400-402 | Replaying a history with one more action is one more step of the replay |
| `EnginesAgree.StepAgrees` | protocol/python/gomoku_match/board.py:228-396 | From agreeing reachable boards the two engines accept the same actions and reach agreeing boards |
| `EnginesAgree.ReplaysAgree` | engine/src/match_client.cpp:393-404 | Any list is accepted by both engines or by neither |
| `EnginesAgree.EnginesSimulateEachOther` | engine/src/match_client.cpp:393-404 | After any accepted list both engines have the same cells, legal actions, seat colours and result, and the same seat and stone to move while undetermined |
| `MatchClient.ReconstructBoard` | engine/src/match_client.cpp:393-404 | Accepts exactly the legal runs and returns the board they reach |
| `MatchClient.AcceptedIsLegalRun` | engine/src/match_client.cpp:393-404 | A history is accepted if and only if every action was legal when played |
| `MatchClient.BestLegalAction` | engine/src/match_client.cpp:406-417 | A legal action of greatest probability, the smallest one among equals; none only if no legal action has one above minus one |
| `MatchClient.MatchGame.Synchronise` | engine/src/match_client.cpp:475-483 | Whatever list arrives, afterwards the tree belongs to the position after that list; it is the part of the old tree below the new moves, with its statistics and its cache, if the list goes on from the moves seen and the tree reaches that far, and otherwise empty |
| `MatchClient.MatchGame.HandleTurn` | engine/src/match_client.cpp:462-520 | Rejects exactly illegal histories and wrong seats; on a live board it plays the best legal action of the policy that the search answered with, after simulations on an unsolved board a most visited one, whose subtree with just those visits is kept; the visits behind that answer are those of the part of the tree reused plus one per simulation; it stays in step with the server's moves |
| `MatchClient.BestIsMostVisited` | engine/src/match_client.cpp:406-417 | The best action of a policy made of shares is a most visited one, the smallest among equals |
| `MatchLoop.HistoryRebuilds` | engine/src/match_client.cpp:393-404 | In a coherent server every game of the engine's side has a history that the client rebuilds to the server's board, up to the result of a forfeit |
| `MatchLoop.TurnIsUnderstood` | engine/src/match_client.cpp:469-473 | For a running game the client computes the seat that the server sends, and finds a legal action |
| `MatchLoop.AnswerIsAccepted` | protocol/python/gomoku_match/server.py:609-639 | An action that is legal on the client's board is accepted by the server from the player on the clock |
| `Mcts.MCTSNode.Expand` | engine/src/mcts.cpp:184-206 | Creates once exactly one child per legal action, each for the board and the seat that its action yields, with the prior of that action |
| `Mcts.MCTSNode.DetachChild` | engine/src/mcts.h:63-72 | Removes and returns the first child with the action, or reports that there is none |
| `Mcts.MCTSNode.AddVirtualLoss` | engine/src/mcts.cpp:213-221 | Charges one loss from the selector's side; statistics stay backed-up values plus outstanding losses |
| `Mcts.MCTSNode.RevertVirtualLoss` | engine/src/mcts.cpp:223-227 | Takes exactly one charged loss back |
| `Mcts.MCTSNode.Update` | engine/src/mcts.cpp:208-211 | Adds one backed-up value |
| `Mcts.SumBounded` | engine/src/mcts.cpp:208-211 | Sums of values in [-1, 1] are bounded by their number |
| `Mcts.ValueWithinVisits` | engine/src/mcts.cpp:208-227 | At any moment of a batch the value sum is within the visit count |
| `Mcts.VirtualLossNeverAttracts` | engine/src/mcts.cpp:13-27 | A virtual loss never raises the selection value of a child, whether or not the seat changes on the edge |
| `Mcts.ChargeNeverAttracts` | engine/src/mcts.cpp:213-221 | The loss that selection charges, from the selecting node's side, never makes the child more attractive to it |
| `Mcts.PriorAttracts` | engine/src/mcts.cpp:13-27 | A greater prior makes a child strictly more attractive, as long as exploration counts at all |
| `Mcts.ValueAttracts` | engine/src/mcts.cpp:13-27 | A greater value sum makes a visited child more attractive where the seat stays and less where it changes |
| `Mcts.MCTS.AttractionMeans` | engine/src/mcts.cpp:13-27 | The selection value of a child is its mean value, taken for the seat to move at the node and nothing without visits, plus its prior times the square root over one more than its visits |
| `Mcts.MCTS.ComparedMeans` | engine/src/mcts.cpp:352-373 | The same by given statistics, as the walks of a batch are compared |
| `Mcts.MCTS.SelectPath` | engine/src/mcts.cpp:346-389 | Walks from the root from child to child to a node without children, without repetition, charging every edge once; every step goes to an admitted child of greatest selection value, by the statistics at the start and the losses charged on the way; the leaf's node stands for the board reached; with the mask the first step has a positive prior |
| `Mcts.MCTS.ChooseChild` | engine/src/mcts.cpp:352-373 | A child of greatest selection value among those the mask admits |
| `Mcts.MCTS.StepDown` | engine/src/mcts.cpp:352-379 | One step of the walk: no admitted child was more attractive, and only the child taken is charged |
| `Mcts.MCTS.MoveOutMisses` | engine/src/mcts.cpp:391-416 | Moves out exactly one leaf per signature that is not in the cache, the first with it, and remembers where it came from |
| `Mcts.MCTS.FillCache` | engine/src/mcts.cpp:418-450 | Every missed leaf gets the solver's or the evaluator's opinion on that very leaf; older entries stay and no other is added |
| `Mcts.MCTS.MoveBack` | engine/src/mcts.cpp:452-456 | The leaves are the original ones again |
| `Mcts.MCTS.EvaluateLeaves` | engine/src/mcts.cpp:391-458 | Looks up exactly the given leaves: afterwards there is one entry per signature ever looked up, the opinion on the first board with it; older entries stay, and the leaves are the original ones again |
| `Mcts.MCTS.WalkAndLookUp` | engine/src/mcts.cpp:340-458 | A batch of walks, each from the root to a leaf of the tree as it stood and each greedy after the losses of those before it; exactly the boards of the open ends are looked up, in order, and older cache entries stay |
| `Mcts.MCTS.LeafValue` | engine/src/mcts.cpp:461-472 | A finished board gives its result for the seat to move; an open leaf is expanded with the cached policy and gives the cached value |
| `Mcts.MCTS.SettlePath` | engine/src/mcts.cpp:460-483 | One path: its leaf is expanded, its losses are reverted, and each of its nodes gains the leaf value if it has the leaf's seat to move and the negated value otherwise |
| `Mcts.MCTS.Backup` | engine/src/mcts.cpp:474-482 | Takes the losses of one path back; every node on it gains the value if its seat is the leaf's and the negated value otherwise, in its list of values, its sum and its visits |
| `Mcts.MCTS.BackupAll` | engine/src/mcts.cpp:460-483 | After all paths every node has gained exactly one value per path through it, that of the path's own leaf with the sign of the node's seat, and no loss is outstanding |
| `Mcts.MCTS.RunBatch` | engine/src/mcts.cpp:331-486 | Each of the batch's paths led greedily from child to child to a leaf of the tree before the batch; exactly the open ends were looked up; every node gains, in values, sum and visits, one for a path won by its seat, minus one for a path lost, nothing for a draw, and at an open end the value served there, negated for the other seat; no loss stays |
| `Mcts.GainsAreBacked` | engine/src/mcts.cpp:460-483 | The values backed up along some paths are what those paths are worth to the node: the result of the game at the end, or the served opinion, from its own side |
| `Mcts.MCTS.CreditFacts` | engine/src/mcts.cpp:460-483 | An account of walks and values fixes the value sums and visits of all nodes by the results at the ends of the walks |
| `Mcts.MCTS.OwnOutcomes` | engine/src/mcts.cpp:461-472 | Without collisions among the boards looked up, every value of a search is the outcome of the board at the end of its path, and every open end was expanded with the opinion on that very board |
| `Mcts.MCTS.ApartOutcomes` | engine/src/mcts.cpp:461-472 | If signatures tell apart all boards that the rules allow, this holds of every search |
| `Opinions.OpinionMeans` | engine/src/mcts.cpp:439-450 | A line of the solver with a legal first move gives a leaf the full value and all the probability to that move; otherwise the opinion is the evaluator's |
| `Opinions.OwnOpinionExactly` | engine/src/mcts.cpp:391-458 | A board looked up for the first time is served its own opinion, then and later, if and only if no board with its signature was looked up before |
| `Opinions.ServedStays` | engine/src/mcts.cpp:391-458 | What is served for a board that was looked up never changes by further look-ups |
| `Opinions.ServedLater` | engine/src/mcts.cpp:391-458 | What is served under a new signature comes from the boards that are added |
| `Mcts.MCTS.EnsureRoot` | engine/src/mcts.cpp:293-311 | A root for this board exists and is expanded; statistics and the children of an expanded root are untouched |
| `Mcts.MCTS.SetRootPriors` | engine/src/mcts.cpp:540-572 | Replaces the priors of the root's children and nothing else |
| `Mcts.MCTS.Search` | engine/src/mcts.cpp:251-505 | The tree stays with the board; N simulations, or the batches before the deadline, add exactly that many such paths to every node and to the cache, worth one for a path won, minus one for a path lost and the served value at an open end; the visits of the root's children are those found plus one per simulation; a solved root is answered without search, a deadline already past by the priors or evenly; the policy is the share of the visits, sums to one and gives weight to legal moves only |
| `Mcts.MCTS.RunBatches` | engine/src/mcts.cpp:332-486 | Batches until the budget or the deadline ends, the last one cut to what is left of a simulation count; the paths walked are accounted for with their values, expansions and look-ups, all of them through the root's children |
| `Mcts.MCTS.MaskedUntouched` | engine/src/mcts.cpp:356-360 | With the mask a child of the root without a positive prior lies on no path |
| `Mcts.MCTS.MaskLeavesChild` | engine/src/mcts.cpp:356-360 | If the masked policy offers a legal move, some child stays eligible |
| `Mcts.MCTS.EarlyPolicy` | engine/src/mcts.cpp:281-284 | A deadline that has passed at the start is answered by the shares of the priors of the tree, or with the same for every legal action without one |
| `Mcts.MCTS.UniformPolicy` | engine/src/mcts.cpp:59-67 | Equal shares of one among the legal actions |
| `Mcts.MCTS.SelectAction` | engine/src/mcts.cpp:507-520 | The subtree of the action played becomes the tree, with its statistics and children, and belongs to the next board; without such a child there is no tree; the cache stays, or is emptied together with the tree |
| `Mcts.MCTS.Reset` | engine/src/mcts.cpp:522-528 | Drops the tree and empties the cache |
| `Mcts.MCTS.VisitPolicy` | engine/src/mcts.cpp:488-504 | Each child's action has its share of the children's visits, or of the priors if there are none, all others nothing; the shares sum to one |
| `Mcts.MCTS.VisitsConserved` | engine/src/mcts.cpp:488-493 | The visits of the root's children are those from before the search plus one for every path |
| `Mcts.MCTS.SearchAnswers` | engine/src/mcts.cpp:488-505 | The answer of a search outlives the tree: the solver's action, or shares among exactly the legal actions; after simulations the weights are the visits |
| `Mcts.MCTS.PriorPolicy` | engine/src/mcts.cpp:69-92 | Each child's action has its share of the priors cut off at zero, equal shares if none is positive; the shares sum to one |
| `Policies.SpreadSumsToOne` | engine/src/mcts.cpp:69-92 | Shares of a positive total add up to one over all action ids |
| `Policies.Fill` | engine/src/mcts.cpp:495-499 | Writing the shares entry by entry gives every listed action its share and all others nothing |
| `RootPriors.MaskPolicyToSafeActions` | engine/src/mcts.cpp:94-129 | If the analysis names a legal safe move, unsafe legal moves lose their prior, safe ones share it in proportion to what they had, evenly if they had none, and sum to one, illegal entries stay and some legal move keeps a positive prior; otherwise nothing changes |
| `RootPriors.MaskedSum` | engine/src/mcts.cpp:119-128 | The scaled priors add up to their total weight divided by the scale |
| `RootPriors.AddDirichletNoise` | engine/src/mcts.cpp:136-164 | Each legal entry is the mixture of its prior and its share of the noise; illegal entries and the total stay, a positive legal move remains if there was one or the total was not negative; a zero prior becomes positive exactly where the noise is positive; invalid settings change nothing |
| `RootPriors.PositiveTotalOffersMove` | engine/src/mcts.cpp:356-360 | A positive total over the legal moves leaves selection an eligible child |
| `RootPriors.SetUpRoot` | engine/src/mcts.cpp:293-330 | At expansion the masked priors, before the search their mixture with the noise, entry by entry: a safe legal move, or a legal move of positive prior, leaves selection a child, and without noise nothing else does; without noise unsafe moves have no prior |
| `RootPriors.DefendedSearch` | engine/src/mcts.cpp:293-330 | A search with such a root needs no more than that; from an empty tree and without noise an unsolved search gives weight to safe moves only |
| `SelfPlay.SampleAction` | engine/src/self_play.cpp:45-77 | A legal action whenever there is one: the one in whose stretch of the cumulative weights the draw falls, or the one of the drawn index if nothing has weight; of positive weight for every draw but zero, which picks the first legal action |
| `SelfPlay.PickByWeight` | engine/src/self_play.cpp:70-76 | The action in whose stretch of the cumulative weights the draw falls; of positive weight for every draw but zero |
| `SelfPlay.StretchLength` | engine/src/self_play.cpp:57-76 | The stretch of an action with weight is as long as its weight, the others have none, and the first begins at zero |
| `SelfPlay.DrawnHasWeight` | engine/src/self_play.cpp:70-76 | A draw above zero from a policy with weight picks an action with weight |
| `SelfPlay.AdvanceAll` | engine/src/self_play.cpp:136-138 | Every evaluator's tree follows the action to the next board: the child for the action becomes its root, with its visits; a tree without that child is dropped |
| `SelfPlay.PlayPly` | engine/src/self_play.cpp:121-138 | One ply: the evaluator to move adds as many visits to those known as it runs simulations, unless the board is solved; its next root keeps the visits of the action played, and the other trees follow untouched |
| `SelfPlay.RunGame` | engine/src/self_play.cpp:86-156 | Every action is legal and follows, by draw or as the best one, from the policy recorded with its position; that policy is what the search of the evaluator to move answered there, over at least as many visits as simulations unless solved, and sums to one; all trees stay with the game, and the game ends in a win or a draw before the guard |
| `SolvedRoot.SolverAnswers` | engine/src/vcf_solver.cpp:338-408 | The threat solver keeps the contract asked of a solver: the line it returns is legal and its first move wins the game by force |
| `SolvedRoot.SolvedActionWins` | engine/src/mcts.cpp:286-291 | With a solver that keeps its contract the root counts as solved exactly when there is a line, and the solved action wins the game by force |
| `SolvedRoot.SolvedOpinionIsWin` | engine/src/mcts.cpp:441-450 | An opinion that the solver overrides stands for a forced win of the seat to move |
| `SolvedRoot.SolvedAnswerWins` | engine/src/match_client.cpp:495-501 | The best action of a solved answer is the solver's and wins the game by force |
| `SolvedRoot.SolvedPlyWins` | engine/src/self_play.cpp:126-135 | In a self-play game every ply at a position with a solver line wins by force, unless a sampled draw of zero misses it |
| `SelfPlay.KeptExactly` | engine/src/self_play.cpp:185-199 | The kept positions are exactly the last ones that the filter admits, in order |
| `SelfPlay.LastOnesKept` | engine/src/self_play.cpp:185-199 | Kept are the last so many positions of the game that the filter admits, or all if the number is zero |
| `SelfPlay.LabelPositions` | engine/src/self_play.cpp:185-207 | One example per kept position, in order, labelled one if the mover won, minus one if the other seat did, zero otherwise |
| `PackedBoard.PackBoard` | engine/src/game_data.cpp:36-50 | Bit by bit the nine planes of the board, and zeros behind them |
| `PackedBoard.PlanesMean` | engine/src/game_data.cpp:8-50 | Plane by plane, what the bits say: stones of the colour to move, black if none is, stones of the other colour, the colour to move, the phase |
| `PackedBoard.PackingLosesNothing` | engine/src/game_data.cpp:8-50 | The packed form determines stones, phase and stone to place |
| `HalfFloat.FloatToHalf` | engine/src/game_data.cpp:52-105 | Every finite number goes to a nearest binary16 number, ties to even, overflow to infinity; sign, infinities and NaNs are kept |
| `HalfFloat.ValuesMean` | engine/src/game_data.cpp:52-105 | What the bits of the two formats stand for: even steps among the subnormals, twice the value one exponent up, and one is one in both |
| `HalfFloat.NaNsMean` | engine/src/game_data.cpp:61-66 | A number is a NaN if and only if its bits without the sign exceed those of infinity |
| `HalfFloat.ConvertFinite` | engine/src/game_data.cpp:67-105 | The branches for normal, subnormal, tiny and huge numbers, mantissa carry included, all round to nearest even |
| `HalfFloat.RoundingIsMonotone` | engine/src/game_data.cpp:52-105 | Any rounding to nearest even keeps the order of magnitudes |
| `HalfFloat.ConversionIsMonotone` | engine/src/game_data.cpp:52-105 | Of two converted numbers, signed and infinite ones included, the smaller does not become the greater |
| `HalfFloat.ExactIsKept` | engine/src/game_data.cpp:52-105 | A number that binary16 can represent converts to itself |
| `HalfFloat.NeighbourIsNearest` | engine/src/game_data.cpp:75-100 | The better of two neighbours is nearest among all binary16 magnitudes |
| `HalfFloat.NormalRounds` | engine/src/game_data.cpp:88-105 | Dropping thirteen bits with the tie rule is rounding to nearest even, carry into the exponent included |
| `HalfFloat.SubnormalRounds` | engine/src/game_data.cpp:75-86 | The variable shift with the tie rule is rounding to nearest even among subnormals |
| `MatchReferee.Game.TryMove` | protocol/python/gomoku_match/board.py:228-246 | A move is accepted if and only if it is legal on the running board, and keeps board and history in lockstep |
| `MatchReferee.MatchServer.FinishGame` | protocol/python/gomoku_match/server.py:879-909 | Finishes a game once: result, reason, journal row, rating step and announcement; a second call changes nothing; it raises exactly if the journal fails, which suppresses rating and announcement and rolls pending ratings back |
| `MatchReferee.MatchServer.PlayMove` | protocol/python/gomoku_match/server.py:640-667 | Board, history and journal grow together exactly if the move is legal and the journal takes it; a failing journal write rolls the board back to the snapshot |
| `MatchReferee.MatchServer.SubmitMove` | protocol/python/gomoku_match/server.py:609-678 | Accepts exactly legal moves by the player on the clock of a running game that the journal takes; then this game advances as specified, with its announcements; all others are refused with the reason and change nothing |
| `MatchReferee.MatchServer.SendYourTurn` | protocol/python/gomoku_match/server.py:829-865 | The player to move is put on the clock and told, or loses at once without a connection, by the verdict of the code when one player holds both seats |
| `MatchReferee.MatchServer.AfterMove` | protocol/python/gomoku_match/server.py:668-678 | A decided board finishes the game with that result; otherwise the next player gets a fresh deadline and the turn, or loses for want of a connection |
| `MatchReferee.MatchServer.Resign` | protocol/python/gomoku_match/server.py:680-699 | Exactly a participant of a running game loses it, and no other game changes; all other requests are refused with the reason and without effect |
| `MatchReferee.MatchServer.ClockTick` | protocol/python/gomoku_match/server.py:924-959 | Two passes over the games in their order, first those past their deadline, then those past their grace, each ended, journalled, rated and announced as specified, up to the first failing journal write, which stops the clock for good; who loses says `RefereeVerdicts.LateMoverLoses` |
| `MatchReferee.MatchServer.Expired` | protocol/python/gomoku_match/server.py:929-943 | The two lists hold exactly the running games past their deadline and past their grace, in order |
| `MatchReferee.MatchServer.TimeOutAll` | protocol/python/gomoku_match/server.py:944-952 | The first pass over its list is the specified sweep of all games |
| `MatchReferee.MatchServer.EndGraceAll` | protocol/python/gomoku_match/server.py:953-959 | The second pass likewise; games that the first one ended are skipped |
| `MatchReferee.MatchServer.Disconnect` | protocol/python/gomoku_match/server.py:355-396 | The connection is forgotten, then the player's running games are visited in order: each gets a pending forfeit or ends at once against the player, with its journal row, rating and announcement, up to the first failing journal write |
| `MatchReferee.MatchServer.DropPlayer` | protocol/python/gomoku_match/server.py:355-396 | The same for one game |
| `MatchReferee.MatchServer.Register` | protocol/python/gomoku_match/server.py:515-566 | Exactly when a registration is accepted; a returning player keeps the id, the pending forfeits of that player's games are lifted, and where it is the player's turn the clock starts anew and the turn is sent again, in the order of the games |
| `MatchReferee.MatchServer.ResumeAll` | protocol/python/gomoku_match/server.py:533-561 | All games of a returning player as the specified sweep, messages included |
| `MatchReferee.MatchServer.CreateMatch` | protocol/python/gomoku_match/server.py:287-326 | Exactly two known names and a side of at least five give a new game on an empty board, last in the order; it is announced exactly if the store takes it; a creation settles pending ratings like every journal write |
| `MatchReferee.MatchServer.FirstTurn` | protocol/python/gomoku_match/server.py:287-326 | The first player is on the clock and told, or has lost to the opponent for want of a connection; no other game changes |
| `MatchReferee.MatchServer.Serve` | protocol/python/gomoku_match/server.py:400-466 | Whatever the interleaving of steps, the server is in exactly the state of the specified machine after the same steps: games, order, connections, clock, messages, journalled results and rating writes |
| `MatchReferee.MatchServer.Perform` | protocol/python/gomoku_match/server.py:400-466 | One step of any kind takes the server to exactly the specified next state, whatever becomes of its writes |
| `MatchReferee.MatchServer.SettleRatings` | protocol/python/gomoku_match/persistence.py:116-124 | A journal write commits, or on failure rolls back, what rating updates left pending |
| `RefereeSteps.SweepMeans` | protocol/python/gomoku_match/server.py:377-396 | A sweep over the games changes exactly those before the first failing write and that one, each on its own, and raises exactly if there is such a failure |
| `RefereeSteps.SweepKept` | protocol/python/gomoku_match/server.py:929-959 | Sweeping only the games listed beforehand comes to the same as sweeping all |
| `RefereeRuns.AfterMeans` | protocol/python/gomoku_match/server.py:355-959 | What each step makes of each single game |
| `RefereeRuns.AfterLobby` | protocol/python/gomoku_match/server.py:355-566 | What each step makes of connections, live players, names and the clock, and which game it opens |
| `RefereeRuns.TickMeans` | protocol/python/gomoku_match/server.py:924-959 | The two passes of a tick come to one verdict per game, the deadline first |
| `RefereeRuns.AfterMakesProgress` | protocol/python/gomoku_match/server.py:609-699 | No step removes a game, shortens a history or changes a finished game |
| `RefereeRuns.RunMakesProgress` | protocol/python/gomoku_match/server.py:609-699 | Nor does any stretch of any run |
| `RefereeRuns.AfterKeepsOrderly` | protocol/python/gomoku_match/server.py:355-566 | Connections and live players stay in one-to-one correspondence, a running game has no result, and a pending forfeit stays that of an absent player |
| `RefereeRuns.OnlyAbsentPlayersLose` | protocol/python/gomoku_match/server.py:829-959 | No step makes a player with a live connection lose by disconnection |
| `RefereeRuns.NoConnectedPlayerIsForfeited` | protocol/python/gomoku_match/server.py:355-959 | So it is at every step of every run in which new players get new ids |
| `RefereeRuns.GraceIsCutExactly` | protocol/python/gomoku_match/server.py:829-842 | Before its end a pending forfeit comes true if and only if a stored move that leaves the board open, or the first turn of the game, puts a player without a connection on the clock |
| `RefereeRuns.GraceInRuns` | protocol/python/gomoku_match/server.py:829-842 | So it is at every step of every run in which new players get new ids |
| `RefereeRuns.WatchIsLostExactly` | protocol/python/gomoku_match/server.py:533-545 | An absent player of a game with a grace period has no forfeit pending after a step if and only if the step opened the game so, brought the opponent of an absent player back, or was a departure cut short before the game |
| `RefereeRuns.WatchInRuns` | protocol/python/gomoku_match/server.py:355-545 | Throughout a run every absent player has a forfeit pending if and only if no step of it is of these kinds |
| `RefereeRuns.NoTimeoutWithoutClock` | protocol/python/gomoku_match/server.py:924-959 | Once the clock thread has ended, no running game ever ends by timeout |
| `RefereeVerdicts.StepEffect` | protocol/python/gomoku_match/server.py:355-959 | What each step makes of each running game, in plain terms: the new position and deadline, the pending forfeit, or who loses and why |
| `RefereeVerdicts.EffectsInRuns` | protocol/python/gomoku_match/server.py:355-959 | So it is at every step of every run |
| `RefereeVerdicts.LateMoverLoses` | protocol/python/gomoku_match/server.py:924-959 | In a tick that the journal keeps up with, a game ends by timeout exactly if its deadline has passed, and the player to move loses it; otherwise it ends exactly if its grace is over, against the absent seat |
| `RefereeVerdicts.LateMoverLosesInRuns` | protocol/python/gomoku_match/server.py:944-952 | So it is at every such tick of every run |
| `RefereeVerdicts.ResigningPlayerLoses` | protocol/python/gomoku_match/server.py:680-699 | The player who resigns has lost the game |
| `RefereeVerdicts.OpeningMeans` | protocol/python/gomoku_match/server.py:287-324 | When a creation opens a game, and with which players, side, times and position |
| `RefereeVerdicts.AcceptedExactly` | protocol/python/gomoku_match/server.py:609-667 | A move is played exactly if the registered player to move sends a legal action to a running game and the journal takes it |
| `RefereeVerdicts.RefusalSays` | protocol/python/gomoku_match/server.py:609-699 | Which of the checks a refusal reports, for moves and resignations |
| `RefereeVerdicts.StepTells` | protocol/python/gomoku_match/server.py:829-909 | What each step announces about each game: its end with its result exactly when it ends and the journal takes it, and the turn to the player to move exactly when it is due |
| `RefereeVerdicts.ToldInRuns` | protocol/python/gomoku_match/server.py:829-909 | So it is at every step of every run |
| `RefereeVerdicts.MoveSettles` | protocol/python/gomoku_match/server.py:640-667 | A move that the journal takes commits pending ratings first, one that it fails to take rolls them back and does nothing else |
| `RefereeVerdicts.EndSettles` | protocol/python/gomoku_match/server.py:879-909 | A resignation commits what is pending and then rates the game with the result against the player who resigned, or only rolls back if the journal fails |
| `RefereeExamples.GraceDoesNotProtect` | protocol/python/gomoku_match/server.py:829-842 | A run from the empty server: a game ends by disconnection at time 1, its forfeit being due at time 60000 |
| `RefereeExamples.OpenedUnwatched` | protocol/python/gomoku_match/server.py:295-313 | A run in which a game is opened with a player who has gone |
| `RefereeExamples.ReturnedUnwatched` | protocol/python/gomoku_match/server.py:533-545 | A run in which both players go and the one who returns lifts the forfeit of the other |
| `RefereeExamples.DroppedUnwatched` | protocol/python/gomoku_match/server.py:377-396 | A run in which a failing write in one game keeps the next one from getting its forfeit |
| `RefereeExamples.ClockStops` | protocol/python/gomoku_match/server.py:924-959 | A run in which a deadline passes while the journal takes nothing, and the clock is over |
| `MatchReferee.ServerAgrees` | protocol/python/gomoku_match/server.py:640-667 | In every reachable server a game is finished if and only if its board has a result, its board is the replay of its history up to that result, the journal is exactly that history, it was announced finished and rated at most once, and the rating table is the fold of its rows if and only if the rating writes of the steps so far made no half-written update durable |
| `Elo.RatingIsSumOfDeltas` | protocol/python/gomoku_match/elo.py:221-313 | Every rating is the initial one plus the sum of the player's audit rows, and games played is their number |
| `Elo.MatchIsZeroSum` | protocol/python/gomoku_match/elo.py:221-313 | With equal factors one match takes from one player what it gives to the other |
| `Elo.RateMatchMeans` | protocol/python/gomoku_match/elo.py:106-131 | The row of a match, on literals: the factors 40, 20 and 10 from 0, 30 and 100 games on, a point for the winner and half of it for a draw, the ratings before and after |
| `Elo.WinnerGains` | protocol/python/gomoku_match/elo.py:258-266 | The winner gains points and the loser loses some; after a draw a player gains exactly if less than a half was expected |
| `Elo.RowMeans` | protocol/python/gomoku_match/elo.py:258-299 | Each audit row was computed from the sum of the earlier rows of both players and from how many those are |
| `Elo.LastRowCounts` | protocol/python/gomoku_match/elo.py:258-299 | The last row sets both players' ratings, counts one game for each and leaves all others |
| `Elo.BackfillInOrder` | protocol/python/gomoku_match/elo.py:315-348 | A replay of two lists is the replay of the first and then, unless that failed, of the second |
| `Elo.BackfillExtends` | protocol/python/gomoku_match/elo.py:315-348 | A replay only appends rows, each genuine, still at most one per game |
| `Elo.BackfillRatesAll` | protocol/python/gomoku_match/elo.py:315-348 | A replay reaches the end exactly when it leaves every finished game of the list rated |
| `Elo.BackfillAgainAddsNothing` | protocol/python/gomoku_match/elo.py:315-348 | A repeated replay adds no row |
| `Elo.EloEngine.UpdateAfterMatch` | protocol/python/gomoku_match/elo.py:221-313 | Refuses exactly self-matches, open games and rated ones, without change; otherwise writes both ratings, the row and the commit, as far as they succeed; the row scores the result from the ratings that the players had; what was written stays pending, and the step is logged |
| `Elo.EloEngine.WriteSteps` | protocol/python/gomoku_match/elo.py:258-299 | The tables after any number of the four writes |
| `Elo.EloEngine.Commit` | protocol/python/gomoku_match/persistence.py:116-124 | What is pending becomes durable; the tables stay those of the logged steps |
| `Elo.EloEngine.Rollback` | protocol/python/gomoku_match/persistence.py:116-124 | What is pending is gone; the tables stay those of the logged steps |
| `Elo.NextKeepsInv` | protocol/python/gomoku_match/elo.py:258-299 | Every update and journal write, failing or not, keeps the account of credited games and rows |
| `Elo.FoldExactlyWithoutHalfWrites` | protocol/python/gomoku_match/elo.py:258-299 | After any run the durable table is the fold of the durable rows if and only if no update that stopped between its writes was followed by a commit before a rollback; no game ever has two rows |
| `Elo.HalfWriteBecomesDurable` | protocol/python/gomoku_match/elo.py:258-299 | A run in which a rating changes durably without a row: the second write fails and the next journal write commits the first |
| `Elo.EloEngine.ReplayFromStore` | protocol/python/gomoku_match/elo.py:315-348 | Without failing writes it adds exactly the rows of the specified walk and returns how many; a failing write ends it |
| `Batching.BatchedBlockingQueue.Push` | engine/src/batched_blocking_queue.h:41-47 | Appends one item |
| `Batching.BatchedBlockingQueue.AwaitItem` | engine/src/batched_blocking_queue.h:54-59 | The first wait ends the call exactly when the queue is shut down and drained, and blocks exactly when it is empty and open |
| `Batching.BatchedBlockingQueue.DrainBatch` | engine/src/batched_blocking_queue.h:61-72 | The oldest items leave in order, as many as the cap allows; delivered batches and queue together are the pushes; the batch is empty exactly if the cap is not positive |
| `Batching.BatchedBlockingQueue.Shutdown` | engine/src/batched_blocking_queue.h:77-83 | Closes the queue and keeps its items |
| `Batching.OwnRows` | engine/src/batch_inference_executor.cpp:44-50 | The slice of a request out of the mapped concatenation is the map of its own rows |
| `Batching.SliceOutputs` | engine/src/batch_inference_executor.cpp:41-51 | The running offset cuts out exactly each request's stretch of the outputs |
| `Batching.RunBatch` | engine/src/batch_inference_executor.cpp:11-53 | One result per request; with a row-wise model each is what the request would have got alone, row by row the policy and the value of its input; an error only if the model returns other than two tensors |
| `Batching.BatchInferenceExecutor.SubmitRequest` | engine/src/batch_inference_executor.cpp:84-90 | A new request at the end of the queue |
| `Batching.BatchInferenceExecutor.InferenceLoopStep` | engine/src/batch_inference_executor.cpp:95-109 | One step of the inference thread: answers never change, it stops only with every request answered, and after shutdown each step makes progress |
| `Batching.BatchInferenceExecutor.AnswerBatch` | engine/src/batch_inference_executor.cpp:100-108 | Sets every promise of the batch, each for the first time, to the answer for its own input |
| `Batching.BatchInferenceExecutor.Serve` | engine/src/batch_inference_executor.cpp:84-109 | Under any interleaving requests are answered in order of submission, each with its own answer, and none is lost |
| `Batching.BatchInferenceExecutor.Destroy` | engine/src/batch_inference_executor.cpp:76-79 | Shutdown and join end, with every submitted request answered |
| `MixedGames.MixedAmongFirst` | engine/src/gomoku_game_generator.cpp:234-239 | Among the first k games exactly floor(k * m / G) are mixed |
| `MixedGames.MixedIsShare` | engine/src/gomoku_game_generator.cpp:234-239 | The number of mixed games among the first k is the exact share of k, rounded down |
| `MixedGames.MixedInTotal` | engine/src/gomoku_game_generator.cpp:184-186 | Exactly m of the G games are mixed |
| `MixedGames.EveryWindowIsFair` | engine/src/gomoku_game_generator.cpp:234-239 | Any l games in a row hold floor(l * m / G) mixed games or one more |
| `MixedGames.OrdinalIsRank` | engine/src/gomoku_game_generator.cpp:240-241 | The ordinal of a mixed game is the number of mixed games before it |
| `MixedGames.OrdinalsAreAPermutation` | engine/src/gomoku_game_generator.cpp:240-241 | Each of 0 to m - 1 is the ordinal of exactly one game |
| `MixedGames.SeatsBalanced` | engine/src/gomoku_game_generator.cpp:241-243 | After any number of games the champion's seats differ by at most one |
| `MixedGames.PlansAlternate` | engine/src/gomoku_game_generator.cpp:234-243 | A game is planned as a mixed one exactly if the count of mixed games goes up with it, and the champion takes seat A in every other one, from the first on |
| `MixedGames.GameGenerator.PlanGame` | engine/src/gomoku_game_generator.cpp:234-243 | The worker's integer divisions give the plan of the game it claimed |
| `MixedGames.GameGenerator.ClaimGame` | engine/src/gomoku_game_generator.cpp:217-221 | One atomic claim of one worker as a function of the whole state |
| `MixedGames.GameGenerator.CompleteGame` | engine/src/gomoku_game_generator.cpp:261-277 | A finished game is counted once and the worker is free again |
| `MixedGames.GameGenerator.FailGame` | engine/src/gomoku_game_generator.cpp:279-285 | A failing worker leaves and stops the others |
| `MixedGames.NoClaimAfterFailure` | engine/src/gomoku_game_generator.cpp:217-293 | Once a worker has failed no game is claimed any more, whatever the other workers do |
| `MixedGames.GameGenerator.RunWorkers` | engine/src/gomoku_game_generator.cpp:217-293 | Under any interleaving no index is claimed twice, and if all workers leave without failure every game was played exactly once, as planned |

## Left out

- AnalyzeVCFDefense (`engine/src/vcf_solver.cpp:410-505`): only its comment is judged; which defensive moves it returns is not modelled.
- FindWinningMovesAround (`engine/src/vcf_solver.cpp:155-181`): used by that analysis only.
- VcfSolver.SolveVCF: the visit counter is unbounded, so an overflow of the C++ int is not modelled; the keys are arbitrary instead of the generated table.
- DefenderStone.RemoteStoneExposesNothing: one direction only; a stone at the end of a possible five of the defender may or may not expose, depending on the whole tree of fours.
- EngineBoard.Board15.Apply: called with the action ids 0 to 229; the C++ code does not check the range.
- Mcts.MCTS.Search: the root's priors are a parameter, set up in RootPriors; with the mask some legal move must have a positive prior, as the code has no child to select otherwise. Invalid stopping criteria, which raise an exception, are left out.
- Mcts.MCTS.ApartOutcomes: that no two reachable boards share a signature is a hypothesis on the key table; a table of a few 64-bit lanes cannot meet it for all boards, so Mcts.MCTS.OwnOutcomes asks it of the boards looked up only.
- Mcts.MCTS.ChooseChild: which of several equally attractive children is taken is left open, whether the first or a random one. The square root in the selection value is an arbitrary function.
- Mcts.MCTS.SelectPath: boards are copied values there.
- Mcts.MCTS.EvaluateLeaves: a wrong number of results from the evaluator, which raises an exception, is not modelled.
- MatchClient.MatchGame.HandleTurn: after the error "no legal action" the tree is already advanced while the list of known moves is not; the invariant is not promised then, since the game is over.
- SelfPlay.SampleAction: the fallback to the last legal action guards against rounding and cannot be reached in real arithmetic.
- SelfPlay.RunGame: changing the noise settings after some plies is covered by the free choice of root priors.
- MatchReferee.MatchServer.Serve: ids are uuids in the code; here a creation under the id of another game does nothing, the id of a game rated before the server started is not used again, and RefereeRuns.NoConnectedPlayerIsForfeited takes new player ids to be new.
- RootPriors.DefendedSearch: what an expanded root's children hold as priors is the policy given to it; that the mask is applied once per root is left to the caller.
- MatchReferee.MatchServer.CreateMatch: in the programmatic call the store write, the announcement and the first turn follow outside the lock; here the first two belong to the same step and the first turn is a step of its own.
- MatchReferee.MatchServer.SubmitMove: parsing of labels and the resulting bad-request answers are left out.
- Elo.EloEngine.Rollback: SQLite may roll a failing transaction back on its own; that is a rollback step here.
- Elo.RatingIsSumOfDeltas: ratings are reals and the expected score is any function into (0, 1).
- Batching.BatchInferenceExecutor.Serve: requests submitted after the thread has stopped are never answered; casts between float formats belong to the model function; a model that raises ends the process and is not modelled.
- PackedBoard.PackingLosesNothing: the seat to move is not part of the packed form.
- HalfFloat.FloatToHalf: writing the two bytes and the order of the record are left out.
- Handshake, authentication, subscriptions, queries, event delivery to closed transports, the plugin's own rules copy, the user interface, the network and its training: plumbing or other subjects.
