/** Ratings kept beside the journal, on its database connection: one audit row
    per rated game, and a table that is the fold of those rows unless a rating
    write fails half-way and a later commit makes the half durable. */
module Elo {
  import opened Swap2

  datatype Option<+T> = None | Some(value: T)

  datatype Rating = Rating(rating: real, games: nat)

  type Table = map<string, Rating>

  datatype Row = Row(
    gameId: string, nameA: string, nameB: string,
    preA: real, postA: real, preB: real, postB: real, kA: real, kB: real, scoreA: real, result: Result)

  /** A finished match as the journal lists it. */
  datatype Match = Match(gameId: string, nameA: string, nameB: string, result: Result)

  function KFactorFor(games: nat): real {
    if games < 30 then 40.0 else if games < 100 then 20.0 else 10.0
  }

  function ScoreAFor(r: Result): real
    requires r != Undetermined
  {
    match r
    case PlayerAWin => 1.0
    case PlayerBWin => 0.0
    case Draw => 0.5
  }

  function Lookup(initial: real, t: Table, name: string): Rating {
    if name in t then t[name] else Rating(initial, 0)
  }

  /** The audit row of a match rated against table t; expected is the abstract
      win probability of A. */
  function RateMatch(expected: (real, real) -> real, initial: real, t: Table, m: Match): Row
    requires m.result != Undetermined
  {
    var a, b := Lookup(initial, t, m.nameA), Lookup(initial, t, m.nameB);
    var e, s := expected(a.rating, b.rating), ScoreAFor(m.result);
    var kA, kB := KFactorFor(a.games), KFactorFor(b.games);
    Row(m.gameId, m.nameA, m.nameB, a.rating, a.rating + kA * (s - e),
        b.rating, b.rating + kB * ((1.0 - s) - (1.0 - e)), kA, kB, s, m.result)
  }

  function Credit(initial: real, t: Table, row: Row): Table {
    t[row.nameA := Rating(row.postA, Lookup(initial, t, row.nameA).games + 1)]
     [row.nameB := Rating(row.postB, Lookup(initial, t, row.nameB).games + 1)]
  }

  /** The table that the rows produce from nothing. */
  function Fold(initial: real, rows: seq<Row>): Table {
    if rows == [] then map[] else Credit(initial, Fold(initial, rows[..|rows| - 1]), rows[|rows| - 1])
  }

  /** Every row was computed from the table as it stood before it. */
  ghost predicate Genuine(expected: (real, real) -> real, initial: real, rows: seq<Row>) {
    forall k :: 0 <= k < |rows| ==> GenuineRow(expected, initial, rows[..k], rows[k])
  }

  ghost predicate GenuineRow(expected: (real, real) -> real, initial: real, before: seq<Row>, row: Row) {
    && row.result != Undetermined && row.nameA != row.nameB
    && row == RateMatch(expected, initial, Fold(initial, before), Match(row.gameId, row.nameA, row.nameB, row.result))
  }

  predicate Rated(rows: seq<Row>, gameId: string) {
    exists k :: 0 <= k < |rows| && rows[k].gameId == gameId
  }

  ghost predicate OneRowPerGame(rows: seq<Row>) {
    forall j, k :: 0 <= j < k < |rows| ==> rows[j].gameId != rows[k].gameId
  }

  // ----- What the rows say about a player -----------------------------

  function Involves(row: Row, name: string): bool {
    row.nameA == name || row.nameB == name
  }

  /** Number of rows that name a player. */
  function GamesOf(rows: seq<Row>, name: string): nat {
    if rows == [] then 0
    else GamesOf(rows[..|rows| - 1], name) + if Involves(rows[|rows| - 1], name) then 1 else 0
  }

  function Delta(row: Row, name: string): real {
    if row.nameB == name then row.postB - row.preB else if row.nameA == name then row.postA - row.preA else 0.0
  }

  /** Sum of a player's rating changes. */
  function DeltasOf(rows: seq<Row>, name: string): real {
    if rows == [] then 0.0
    else DeltasOf(rows[..|rows| - 1], name) + Delta(rows[|rows| - 1], name)
  }

  /** A player's rating is the initial rating plus the changes of the player's
      own rows, and the games counter counts exactly those rows. */
  lemma {:induction false} RatingIsSumOfDeltas(expected: (real, real) -> real, initial: real, rows: seq<Row>,
                                               name: string)
    requires Genuine(expected, initial, rows)
    ensures Lookup(initial, Fold(initial, rows), name).rating == initial + DeltasOf(rows, name)
    ensures Lookup(initial, Fold(initial, rows), name).games == GamesOf(rows, name)
    decreases |rows|
  {
    hide Credit, Lookup, Delta, Involves, RateMatch;
    if rows == [] {
      assert Lookup(initial, map[], name) == Rating(initial, 0) by { LookupNothing(initial, name); }
    } else {
      var m := |rows| - 1;
      GenuinePrefix(expected, initial, rows, m);
      RatingIsSumOfDeltas(expected, initial, rows[..m], name);
      assert GenuineRow(expected, initial, rows[..m], rows[m]);
      CreditAddsDelta(expected, initial, Fold(initial, rows[..m]), rows[m], name);
    }
  }

  lemma LookupNothing(initial: real, name: string)
    ensures Lookup(initial, map[], name) == Rating(initial, 0)
  {
  }

  lemma {:induction false} CreditAddsDelta(expected: (real, real) -> real, initial: real, t: Table, row: Row,
                                           name: string)
    requires row.result != Undetermined && row.nameA != row.nameB
    requires row == RateMatch(expected, initial, t, Match(row.gameId, row.nameA, row.nameB, row.result))
    ensures Lookup(initial, Credit(initial, t, row), name) ==
            Rating(Lookup(initial, t, name).rating + Delta(row, name),
                   Lookup(initial, t, name).games + if Involves(row, name) then 1 else 0)
  {
    hide KFactorFor, ScoreAFor;
    assert row.preA == Lookup(initial, t, row.nameA).rating && row.preB == Lookup(initial, t, row.nameB).rating;
  }

  lemma {:induction false} GenuinePrefix(expected: (real, real) -> real, initial: real, rows: seq<Row>, m: nat)
    requires Genuine(expected, initial, rows) && m <= |rows|
    ensures Genuine(expected, initial, rows[..m])
  {
    forall k | 0 <= k < m ensures GenuineRow(expected, initial, rows[..m][..k], rows[..m][k]) {
      assert rows[..m][..k] == rows[..k];
    }
  }

  // ----- What a row does to its players ---------------------------------

  /** The factor of a player's row, by the number of the player's games before. */
  predicate FactorIs(k: real, games: nat) {
    && (games < 30 ==> k == 40.0) && (30 <= games < 100 ==> k == 20.0) && (100 <= games ==> k == 10.0)
  }

  /** A row moves both ratings by their factors times what the result exceeds the
      expected score by: one for a win, nothing for a loss, one half for a draw. */
  ghost predicate Scored(expected: (real, real) -> real, row: Row) {
    var e := expected(row.preA, row.preB);
    && row.kA > 0.0 && row.kB > 0.0 && row.result != Undetermined
    && (row.result == PlayerAWin ==>
          row.postA == row.preA + row.kA * (1.0 - e) && row.postB == row.preB - row.kB * (1.0 - e))
    && (row.result == PlayerBWin ==> row.postA == row.preA - row.kA * e && row.postB == row.preB + row.kB * e)
    && (row.result == Draw ==>
          row.postA == row.preA + row.kA * (0.5 - e) && row.postB == row.preB - row.kB * (0.5 - e))
  }

  lemma {:induction false} RateMatchMeans(expected: (real, real) -> real, initial: real, t: Table, m: Match)
    requires m.result != Undetermined
    ensures var row := RateMatch(expected, initial, t, m);
      && Scored(expected, row) && row.gameId == m.gameId && row.result == m.result
      && row.nameA == m.nameA && row.nameB == m.nameB
      && row.preA == (if m.nameA in t then t[m.nameA].rating else initial)
      && row.preB == (if m.nameB in t then t[m.nameB].rating else initial)
      && FactorIs(row.kA, if m.nameA in t then t[m.nameA].games else 0)
      && FactorIs(row.kB, if m.nameB in t then t[m.nameB].games else 0)
  {
  }

  /** The winner gains and the loser loses; a draw favours the player of whom less
      was expected. */
  lemma {:induction false} WinnerGains(expected: (real, real) -> real, row: Row)
    requires Scored(expected, row) && 0.0 < expected(row.preA, row.preB) < 1.0
    ensures row.result == PlayerAWin ==> row.postA > row.preA && row.postB < row.preB
    ensures row.result == PlayerBWin ==> row.postA < row.preA && row.postB > row.preB
    ensures row.result == Draw ==>
      && (row.postA > row.preA <==> expected(row.preA, row.preB) < 0.5)
      && (row.postB > row.preB <==> expected(row.preA, row.preB) > 0.5)
  {
    var e := expected(row.preA, row.preB);
    PositiveProduct(row.kA, e);
    PositiveProduct(row.kB, e);
    PositiveProduct(row.kA, 1.0 - e);
    PositiveProduct(row.kB, 1.0 - e);
    PositiveProduct(row.kA, 0.5 - e);
    PositiveProduct(row.kB, 0.5 - e);
  }

  lemma PositiveProduct(k: real, x: real)
    requires k > 0.0
    ensures k * x > 0.0 <==> x > 0.0
    ensures k * x < 0.0 <==> x < 0.0
  {
    if x > 0.0 {
      assert k * x > 0.0;
    } else if x < 0.0 {
      assert k * (-x) > 0.0;
    }
  }

  /** Every genuine row starts from what the rows before it say about its players,
      takes their factors from the number of their games, and scores its result. */
  lemma {:induction false} RowMeans(expected: (real, real) -> real, initial: real, rows: seq<Row>, k: nat)
    requires Genuine(expected, initial, rows) && k < |rows|
    ensures var row := rows[k];
      && Scored(expected, row)
      && row.preA == initial + DeltasOf(rows[..k], row.nameA) && row.preB == initial + DeltasOf(rows[..k], row.nameB)
      && FactorIs(row.kA, GamesOf(rows[..k], row.nameA)) && FactorIs(row.kB, GamesOf(rows[..k], row.nameB))
  {
    hide RateMatch, Scored, FactorIs, Fold, Genuine;
    assert GenuineRow(expected, initial, rows[..k], rows[k]) by { GenuineAt(expected, initial, rows, k); }
    var t, row := Fold(initial, rows[..k]), rows[k];
    GenuinePrefix(expected, initial, rows, k);
    RatingIsSumOfDeltas(expected, initial, rows[..k], row.nameA);
    RatingIsSumOfDeltas(expected, initial, rows[..k], row.nameB);
    RateMatchMeans(expected, initial, t, Match(row.gameId, row.nameA, row.nameB, row.result));
  }

  lemma GenuineAt(expected: (real, real) -> real, initial: real, rows: seq<Row>, k: nat)
    requires Genuine(expected, initial, rows) && k < |rows|
    ensures GenuineRow(expected, initial, rows[..k], rows[k])
  {
  }

  /** In the table that the rows make, the last row's players have the ratings of
      that row and one game more; nobody else is touched. */
  lemma {:induction false} LastRowCounts(initial: real, rows: seq<Row>)
    requires rows != [] && rows[|rows| - 1].nameA != rows[|rows| - 1].nameB
    ensures var row, t, u := rows[|rows| - 1], Fold(initial, rows[..|rows| - 1]), Fold(initial, rows);
      && u.Keys == t.Keys + {row.nameA, row.nameB}
      && u[row.nameA] == Rating(row.postA, (if row.nameA in t then t[row.nameA].games else 0) + 1)
      && u[row.nameB] == Rating(row.postB, (if row.nameB in t then t[row.nameB].games else 0) + 1)
      && forall name :: name in t && name != row.nameA && name != row.nameB ==> u[name] == t[name]
  {
  }

  /** The points one side gains the other side loses, weighted by the K-factors;
      with equal K-factors a match is zero-sum. */
  lemma {:induction false} MatchIsZeroSum(expected: (real, real) -> real, initial: real, rows: seq<Row>, k: nat)
    requires Genuine(expected, initial, rows) && k < |rows|
    ensures rows[k].kB * (rows[k].postA - rows[k].preA) == -rows[k].kA * (rows[k].postB - rows[k].preB)
    ensures rows[k].kA == rows[k].kB ==> rows[k].postA + rows[k].postB == rows[k].preA + rows[k].preB
  {
    hide Fold, RateMatch;
    var row := rows[k];
    assert GenuineRow(expected, initial, rows[..k], row);
    var m := Match(row.gameId, row.nameA, row.nameB, row.result);
    RateMatchIsZeroSum(expected, initial, Fold(initial, rows[..k]), m);
  }

  lemma RateMatchIsZeroSum(expected: (real, real) -> real, initial: real, t: Table, m: Match)
    requires m.result != Undetermined
    ensures var row := RateMatch(expected, initial, t, m);
      && row.kB * (row.postA - row.preA) == -row.kA * (row.postB - row.preB)
      && (row.kA == row.kB ==> row.postA + row.postB == row.preA + row.preB)
  {
    hide KFactorFor, ScoreAFor;
    var row := RateMatch(expected, initial, t, m);
    var x, kA, kB := row.scoreA - expected(row.preA, row.preB), row.kA, row.kB;
    assert row.postA - row.preA == kA * x;
    assert row.postB - row.preB == kB * (-x);
    Opposite(kA, kB, x);
  }

  lemma Opposite(i: real, j: real, x: real)
    ensures j * (i * x) == -i * (j * (-x))
    ensures i == j ==> i * x + j * (-x) == 0.0
  {
    assert j * (-x) == -(j * x);
    assert -i * (j * (-x)) == i * (j * x);
  }

  // ----- The engine ---------------------------------------------------

  /** What a walk over the journal adds to the rows, and whether it reaches the end. */
  function Backfill(expected: (real, real) -> real, initial: real, rows: seq<Row>,
                    matches: seq<Match>): (seq<Row>, bool)
    decreases |matches|
  {
    if matches == [] then (rows, true)
    else if matches[0].result == Undetermined || Rated(rows, matches[0].gameId) then
      Backfill(expected, initial, rows, matches[1..])
    else if matches[0].nameA == matches[0].nameB then (rows, false)
    else
      Backfill(expected, initial, rows + [RateMatch(expected, initial, Fold(initial, rows), matches[0])], matches[1..])
  }

  /** A walk only appends rows; if those before were genuine and one per game, so
      are all of them afterwards. */
  lemma {:induction false} BackfillExtends(expected: (real, real) -> real, initial: real, rows: seq<Row>,
                                           matches: seq<Match>)
    ensures rows <= Backfill(expected, initial, rows, matches).0
    ensures forall id :: Rated(rows, id) ==> Rated(Backfill(expected, initial, rows, matches).0, id)
    ensures Genuine(expected, initial, rows) && OneRowPerGame(rows) ==>
      var rows' := Backfill(expected, initial, rows, matches).0;
      Genuine(expected, initial, rows') && OneRowPerGame(rows')
    decreases |matches|
  {
    hide RateMatch, Genuine, Fold;
    if matches != [] {
      BackfillExtends(expected, initial, rows, matches[1..]);
      if matches[0].result != Undetermined && !Rated(rows, matches[0].gameId) && matches[0].nameA != matches[0].nameB {
        var row := RateMatch(expected, initial, Fold(initial, rows), matches[0]);
        RateMatchKeepsNames(expected, initial, Fold(initial, rows), matches[0]);
        if Genuine(expected, initial, rows) && OneRowPerGame(rows) {
          GenuineAppends(expected, initial, rows, row);
        }
        BackfillExtends(expected, initial, rows + [row], matches[1..]);
      }
    }
  }

  lemma GenuineAppends(expected: (real, real) -> real, initial: real, rows: seq<Row>, row: Row)
    requires Genuine(expected, initial, rows) && GenuineRow(expected, initial, rows, row)
    ensures Genuine(expected, initial, rows + [row])
  {
    hide RateMatch, Fold, GenuineRow;
    var more := rows + [row];
    forall k | 0 <= k < |more| ensures GenuineRow(expected, initial, more[..k], more[k]) {
      if k < |rows| {
        assert more[..k] == rows[..k];
      } else {
        assert more[..k] == rows;
      }
    }
  }

  /** A walk reaches the end exactly when it leaves every finished match rated. */
  lemma {:induction false} BackfillRatesAll(expected: (real, real) -> real, initial: real, rows: seq<Row>,
                                            matches: seq<Match>)
    ensures var (rows', ok) := Backfill(expected, initial, rows, matches);
      ok <==> forall m :: m in matches && m.result != Undetermined ==> Rated(rows', m.gameId)
    decreases |matches|
  {
    if matches != [] {
      var m := matches[0];
      assert matches == [m] + matches[1..];
      if m.result == Undetermined || Rated(rows, m.gameId) {
        BackfillRatesAll(expected, initial, rows, matches[1..]);
        BackfillExtends(expected, initial, rows, matches[1..]);
      } else if m.nameA != m.nameB {
        var row := RateMatch(expected, initial, Fold(initial, rows), m);
        assert (rows + [row])[|rows|].gameId == m.gameId;
        BackfillRatesAll(expected, initial, rows + [row], matches[1..]);
        BackfillExtends(expected, initial, rows + [row], matches[1..]);
      }
    }
  }

  /** The walk goes through the list from the front: two stretches of it are walked
      one after the other. */
  lemma {:induction false} BackfillInOrder(expected: (real, real) -> real, initial: real, rows: seq<Row>,
                                           first: seq<Match>, second: seq<Match>)
    ensures Backfill(expected, initial, rows, first + second) ==
      var (rows', ok) := Backfill(expected, initial, rows, first);
      if ok then Backfill(expected, initial, rows', second) else (rows', false)
    decreases |first|
  {
    hide RateMatch, Rated, Fold;
    if first == [] {
      assert first + second == second;
    } else {
      var m := first[0];
      assert (first + second)[0] == m && (first + second)[1..] == first[1..] + second;
      if m.result == Undetermined || Rated(rows, m.gameId) {
        BackfillInOrder(expected, initial, rows, first[1..], second);
      } else if m.nameA != m.nameB {
        BackfillInOrder(expected, initial, rows + [RateMatch(expected, initial, Fold(initial, rows), m)], first[1..],
                        second);
      }
    }
  }

  /** Once every finished match is rated, walking the journal again adds nothing. */
  lemma {:induction false} BackfillAgainAddsNothing(expected: (real, real) -> real, initial: real, rows: seq<Row>,
                                                    matches: seq<Match>)
    requires forall m :: m in matches && m.result != Undetermined ==> Rated(rows, m.gameId)
    ensures Backfill(expected, initial, rows, matches) == (rows, true)
    decreases |matches|
  {
    if matches != [] {
      BackfillAgainAddsNothing(expected, initial, rows, matches[1..]);
    }
  }

  // ----- One connection, two writers ------------------------------------

  datatype Tables = Tables(ratings: Table, rows: seq<Row>)

  /** What the connection sees, pending writes included, and what the last commit
      made durable. */
  datatype Store = Store(view: Tables, saved: Tables)

  /** A rating update of which the given number of steps succeed (rating of A,
      rating of B, audit row, commit), and a journal write of the server on the
      same connection, which ends in a commit or in a rollback. */
  datatype DbStep = Rate(m: Match, steps: nat) | JournalCommit | JournalRollback

  predicate Rateable(t: Tables, m: Match) {
    m.nameA != m.nameB && m.result != Undetermined && !Rated(t.rows, m.gameId)
  }

  /** The tables after the first steps of an update. */
  function AfterSteps(initial: real, t: Tables, row: Row, steps: nat): Tables {
    var a := Rating(row.postA, Lookup(initial, t.ratings, row.nameA).games + 1);
    var b := Rating(row.postB, Lookup(initial, t.ratings, row.nameB).games + 1);
    if steps == 0 then t
    else if steps == 1 then t.(ratings := t.ratings[row.nameA := a])
    else if steps == 2 then t.(ratings := t.ratings[row.nameA := a][row.nameB := b])
    else Tables(t.ratings[row.nameA := a][row.nameB := b], t.rows + [row])
  }

  function Next(expected: (real, real) -> real, initial: real, s: Store, step: DbStep): Store {
    match step
    case JournalCommit => Store(s.view, s.view)
    case JournalRollback => Store(s.saved, s.saved)
    case Rate(m, steps) =>
      if !Rateable(s.view, m) then s
      else
        var t := AfterSteps(initial, s.view, RateMatch(expected, initial, s.view.ratings, m), steps);
        Store(t, if steps >= 4 then t else s.saved)
  }

  /** dirty: a rating update stopped half-way since the last commit or rollback.
      spoiled: such a half was committed. */
  datatype Flags = Flags(dirty: bool, spoiled: bool)

  function NextFlags(s: Store, f: Flags, step: DbStep): Flags {
    match step
    case JournalCommit => Flags(false, f.spoiled || f.dirty)
    case JournalRollback => Flags(false, f.spoiled)
    case Rate(m, steps) =>
      if !Rateable(s.view, m) || steps == 0 || steps == 3 then f
      else if steps >= 4 then Flags(false, f.spoiled || f.dirty)
      else Flags(true, f.spoiled)
  }

  /** The table is the fold of the audit rows. */
  predicate Folds(initial: real, t: Tables) {
    t.ratings == Fold(initial, t.rows)
  }

  ghost predicate Sound(expected: (real, real) -> real, initial: real, t: Tables) {
    Folds(initial, t) && Genuine(expected, initial, t.rows)
  }

  /** Games that a player was credited with but that have no audit row. */
  function Excess(initial: real, t: Tables, name: string): int {
    Lookup(initial, t.ratings, name).games - GamesOf(t.rows, name)
  }

  ghost predicate ProperRows(rows: seq<Row>) {
    OneRowPerGame(rows) && forall k :: 0 <= k < |rows| ==> rows[k].nameA != rows[k].nameB
  }

  /** What every run keeps. */
  ghost predicate DbInv(expected: (real, real) -> real, initial: real, s: Store, f: Flags) {
    && ProperRows(s.view.rows) && ProperRows(s.saved.rows)
    && (forall name :: 0 <= Excess(initial, s.saved, name) <= Excess(initial, s.view, name))
    && (!f.spoiled ==> Sound(expected, initial, s.saved))
    && (!f.spoiled && !f.dirty ==> Sound(expected, initial, s.view))
    && (f.spoiled ==> exists name :: Excess(initial, s.saved, name) > 0)
    && (f.dirty ==> exists name :: Excess(initial, s.view, name) > 0)
  }

  /** A fold credits each player with exactly the player's rows. */
  lemma {:induction false} FoldCountsRows(initial: real, rows: seq<Row>, name: string)
    requires ProperRows(rows)
    ensures Lookup(initial, Fold(initial, rows), name).games == GamesOf(rows, name)
    decreases |rows|
  {
    if rows != [] {
      FoldCountsRows(initial, rows[..|rows| - 1], name);
    }
  }

  /** So an uncovered credit shows in the table, and no uncovered credit is left
      where the table is the fold. */
  lemma {:induction false} FoldsIffCovered(expected: (real, real) -> real, initial: real, s: Store, f: Flags)
    requires DbInv(expected, initial, s, f)
    ensures Folds(initial, s.saved) <==> !f.spoiled
    ensures Folds(initial, s.view) <==> !f.spoiled && !f.dirty
  {
    hide Fold, Lookup, GamesOf, Genuine;
    if f.spoiled {
      var name :| Excess(initial, s.saved, name) > 0;
      FoldCountsRows(initial, s.saved.rows, name);
      FoldCountsRows(initial, s.view.rows, name);
    }
    if f.dirty {
      var name :| Excess(initial, s.view, name) > 0;
      FoldCountsRows(initial, s.view.rows, name);
    }
  }

  /** What an update that stops after the given number of steps credits without a row. */
  function Uncovered(m: Match, steps: nat, name: string): nat {
    if steps == 1 && name == m.nameA then 1
    else if steps == 2 && (name == m.nameA || name == m.nameB) then 1
    else 0
  }

  lemma {:induction false} ExcessAfterSteps(expected: (real, real) -> real, initial: real, t: Tables, m: Match,
                                            steps: nat, name: string)
    requires Rateable(t, m)
    ensures var t' := AfterSteps(initial, t, RateMatch(expected, initial, t.ratings, m), steps);
      Excess(initial, t', name) == Excess(initial, t, name) +
        Uncovered(m, steps, name)
  {
    hide KFactorFor, ScoreAFor;
    var row := RateMatch(expected, initial, t.ratings, m);
    assert (t.rows + [row])[..|t.rows|] == t.rows;
  }

  lemma {:induction false} CompletedIsSound(expected: (real, real) -> real, initial: real, t: Tables, m: Match,
                                            steps: nat)
    requires Rateable(t, m) && Sound(expected, initial, t) && (steps == 0 || steps >= 3)
    ensures Sound(expected, initial, AfterSteps(initial, t, RateMatch(expected, initial, t.ratings, m), steps))
  {
    hide KFactorFor, ScoreAFor, Genuine;
    var row := RateMatch(expected, initial, t.ratings, m);
    RateMatchKeepsNames(expected, initial, t.ratings, m);
    if steps >= 3 {
      GenuineAppends(expected, initial, t.rows, row);
      assert (t.rows + [row])[..|t.rows|] == t.rows;
    }
  }

  lemma {:induction false} RowsStayProper(expected: (real, real) -> real, initial: real, t: Tables, m: Match,
                                          steps: nat)
    requires Rateable(t, m) && ProperRows(t.rows)
    ensures ProperRows(AfterSteps(initial, t, RateMatch(expected, initial, t.ratings, m), steps).rows)
  {
    RateMatchKeepsNames(expected, initial, t.ratings, m);
    hide RateMatch, Lookup;
  }

  /** Every step keeps the account. */
  lemma {:induction false} NextKeepsInv(expected: (real, real) -> real, initial: real, s: Store, f: Flags, step: DbStep)
    requires DbInv(expected, initial, s, f)
    ensures DbInv(expected, initial, Next(expected, initial, s, step), NextFlags(s, f, step))
  {
    hide Fold, Genuine, Lookup, GamesOf, RateMatch, Sound, Excess, ProperRows, AfterSteps;
    match step
    case JournalCommit =>
      if f.spoiled {
        var name :| Excess(initial, s.saved, name) > 0;
        assert Excess(initial, s.view, name) > 0;
      }
    case JournalRollback =>
    case Rate(m, steps) =>
      if Rateable(s.view, m) {
        RateKeepsInv(expected, initial, s, f, m, steps);
      }
  }

  lemma {:induction false} RateKeepsInv(expected: (real, real) -> real, initial: real, s: Store, f: Flags, m: Match,
                                        steps: nat)
    requires DbInv(expected, initial, s, f) && Rateable(s.view, m)
    ensures DbInv(expected, initial, Next(expected, initial, s, Rate(m, steps)), NextFlags(s, f, Rate(m, steps)))
  {
    hide Fold, Genuine, Lookup, GamesOf, RateMatch, Sound, Excess, ProperRows, AfterSteps;
    var t := AfterSteps(initial, s.view, RateMatch(expected, initial, s.view.ratings, m), steps);
    forall name
      ensures Excess(initial, t, name) == Excess(initial, s.view, name) +
        Uncovered(m, steps, name)
    {
      ExcessAfterSteps(expected, initial, s.view, m, steps, name);
    }
    RowsStayProper(expected, initial, s.view, m, steps);
    if Sound(expected, initial, s.view) && (steps == 0 || steps >= 3) {
      CompletedIsSound(expected, initial, s.view, m, steps);
    }
    if f.dirty {
      var name :| Excess(initial, s.view, name) > 0;
      assert Excess(initial, t, name) > 0;
    }
    if f.spoiled {
      var name :| Excess(initial, s.saved, name) > 0;
      assert Excess(initial, t, name) > 0;
    }
    if steps == 1 || steps == 2 {
      assert Excess(initial, t, m.nameA) > 0;
    }
  }

  /** A run from empty tables. */
  function RunDb(expected: (real, real) -> real, initial: real, steps: seq<DbStep>): (Store, Flags) {
    if steps == [] then (Store(Tables(map[], []), Tables(map[], [])), Flags(false, false))
    else
      var (s, f) := RunDb(expected, initial, steps[..|steps| - 1]);
      (Next(expected, initial, s, steps[|steps| - 1]), NextFlags(s, f, steps[|steps| - 1]))
  }

  /** After any run of rating updates and journal writes, with failures anywhere,
      the durable table is the fold of the durable rows if and only if no update
      that failed after its first write was followed by a commit before a
      rollback; and the connection sees a fold if and only if, besides, no such
      half is pending. No game ever has two rows. */
  lemma {:induction false} FoldExactlyWithoutHalfWrites(expected: (real, real) -> real, initial: real,
                                                        steps: seq<DbStep>)
    ensures var (s, f) := RunDb(expected, initial, steps);
      && DbInv(expected, initial, s, f)
      && OneRowPerGame(s.view.rows) && OneRowPerGame(s.saved.rows)
      && (Folds(initial, s.saved) <==> !f.spoiled)
      && (Folds(initial, s.view) <==> !f.spoiled && !f.dirty)
    decreases |steps|
  {
    hide Fold, Lookup, GamesOf, Next, NextFlags;
    var (s, f) := RunDb(expected, initial, steps);
    if steps != [] {
      var (s0, f0) := RunDb(expected, initial, steps[..|steps| - 1]);
      FoldExactlyWithoutHalfWrites(expected, initial, steps[..|steps| - 1]);
      NextKeepsInv(expected, initial, s0, f0, steps[|steps| - 1]);
    } else {
      EmptyDb(expected, initial);
    }
    FoldsIffCovered(expected, initial, s, f);
  }

  lemma EmptyDb(expected: (real, real) -> real, initial: real)
    ensures DbInv(expected, initial, Store(Tables(map[], []), Tables(map[], [])), Flags(false, false))
  {
  }

  /** A failing run: the second write of an update fails, and the next journal
      write of any game commits the first. One player's rating has changed, and
      there is no audit row. */
  lemma HalfWriteBecomesDurable(expected: (real, real) -> real, initial: real, m: Match)
    requires m.nameA != m.nameB && m.result != Undetermined
    ensures var (s, f) := RunDb(expected, initial, [Rate(m, 1), JournalCommit]);
      s.saved.rows == [] && m.nameA in s.saved.ratings && m.nameB !in s.saved.ratings && !Folds(initial, s.saved)
  {
    hide KFactorFor, ScoreAFor;
    var run := [Rate(m, 1), JournalCommit];
    assert run[..1] == [Rate(m, 1)];
    assert [Rate(m, 1)][..0] == [];
    var empty := Store(Tables(map[], []), Tables(map[], []));
    assert RunDb(expected, initial, []) == (empty, Flags(false, false));
    RateMatchKeepsNames(expected, initial, map[], m);
    assert RunDb(expected, initial, [Rate(m, 1)]).0 == Next(expected, initial, empty, Rate(m, 1));
  }

  datatype Update = Applied(row: Row) | Refused | Failed

  class EloEngine {
    const expected: (real, real) -> real
    const initialRating: real
    var ratings: Table
    var matchRatings: seq<Row>
    /** The tables as last committed. */
    var saved: Tables
    /** Every update and journal write so far, with how far it got. */
    ghost var log: seq<DbStep>

    ghost function Db(): Store
      reads this
    {
      Store(Tables(ratings, matchRatings), saved)
    }

    /** The tables are what those steps make of empty ones. */
    ghost predicate Valid()
      reads this
    {
      Db() == RunDb(expected, initialRating, log).0
    }

    ghost function Account(): Flags
      reads this
    {
      RunDb(expected, initialRating, log).1
    }

    lemma Logged(before: seq<DbStep>, step: DbStep)
      requires log == before + [step]
      ensures RunDb(expected, initialRating, log) ==
        var (s, f) := RunDb(expected, initialRating, before);
        (Next(expected, initialRating, s, step), NextFlags(s, f, step))
    {
      hide Next, NextFlags;
      assert log[..|log| - 1] == before;
    }

    /** The game has a row, pending or durable. */
    predicate RatedAnywhere(id: string)
      reads this
    {
      Rated(matchRatings, id) || Rated(saved.rows, id)
    }

    constructor (expected: (real, real) -> real, initialRating: real)
      ensures Valid() && matchRatings == saved.rows == [] && log == [] && Account() == Flags(false, false)
    {
      this.expected, this.initialRating := expected, initialRating;
      ratings, matchRatings, saved, log := map[], [], Tables(map[], []), [];
    }

    /** A journal write of the server commits whatever is pending. */
    method Commit()
      requires Valid()
      modifies this
      ensures Valid() && log == old(log) + [JournalCommit]
      ensures forall id :: RatedAnywhere(id) ==> old(RatedAnywhere(id))
    {
      hide RunDb, Rated;
      log := log + [JournalCommit];
      Logged(old(log), JournalCommit);
      saved := Tables(ratings, matchRatings);
    }

    /** A failing journal write rolls it back. */
    method Rollback()
      requires Valid()
      modifies this
      ensures Valid() && log == old(log) + [JournalRollback]
      ensures forall id :: RatedAnywhere(id) ==> old(RatedAnywhere(id))
    {
      hide RunDb, Rated;
      log := log + [JournalRollback];
      Logged(old(log), JournalRollback);
      ratings, matchRatings := saved.ratings, saved.rows;
    }

    /** The two ratings, the audit row and the commit, as far as they succeed. */
    method WriteSteps(row: Row, steps: nat) returns (done: bool)
      modifies `ratings, `matchRatings, `saved
      ensures Tables(ratings, matchRatings) == AfterSteps(initialRating, old(Tables(ratings, matchRatings)), row, steps)
      ensures saved == if steps >= 4 then Tables(ratings, matchRatings) else old(saved)
      ensures done <==> steps >= 4
    {
      hide Lookup;
      var gamesA, gamesB :=
        Lookup(initialRating, ratings, row.nameA).games, Lookup(initialRating, ratings, row.nameB).games;
      if steps == 0 {
        return false;
      }
      ratings := ratings[row.nameA := Rating(row.postA, gamesA + 1)];
      if steps == 1 {
        return false;
      }
      ratings := ratings[row.nameB := Rating(row.postB, gamesB + 1)];
      if steps == 2 {
        return false;
      }
      matchRatings := matchRatings + [row];
      if steps == 3 {
        return false;
      }
      saved := Tables(ratings, matchRatings);
      return true;
    }

    /** Rates a finished match; refuses self-matches, unfinished results and games
        that already have a row. The update stops after the given number of
        steps, and nothing is rolled back then. */
    method UpdateAfterMatch(m: Match, steps: nat) returns (u: Update)
      requires Valid()
      modifies this
      ensures Valid() && log == old(log) + [Rate(m, steps)]
      ensures u.Refused? <==>
        m.nameA == m.nameB || m.result == Undetermined || exists r :: r in old(matchRatings) && r.gameId == m.gameId
      ensures u.Failed? <==> !u.Refused? && steps < 4
      ensures u.Applied? ==>
        u.row == old(RateMatch(expected, initialRating, ratings, m)) && matchRatings == old(matchRatings) + [u.row]
      ensures u.Applied? ==>
        && Scored(expected, u.row) && m.nameA in ratings && m.nameB in ratings
        && u.row.preA == (if m.nameA in old(ratings) then old(ratings)[m.nameA].rating else initialRating)
        && u.row.preB == (if m.nameB in old(ratings) then old(ratings)[m.nameB].rating else initialRating)
        && ratings[m.nameA].rating == u.row.postA && ratings[m.nameB].rating == u.row.postB
        && saved == Tables(ratings, matchRatings)
      ensures forall id :: RatedAnywhere(id) ==> old(RatedAnywhere(id)) || id == m.gameId
    {
      hide RunDb, RateMatch, Genuine, Fold, Scored, FactorIs;
      log := log + [Rate(m, steps)];
      Logged(old(log), Rate(m, steps));
      if m.nameA == m.nameB || m.result == Undetermined || Rated(matchRatings, m.gameId) {
        return Refused;
      }
      var row := RateMatch(expected, initialRating, ratings, m);
      RateMatchKeepsNames(expected, initialRating, ratings, m);
      RateMatchMeans(expected, initialRating, ratings, m);
      var done := WriteSteps(row, steps);
      if !done {
        return Failed;
      }
      return Applied(row);
    }

    /** Backfills the rows of finished matches in journal order. Matches with a
        row are skipped; a self-match or a failing write ends the walk with an
        error. */
    method ReplayFromStore(matches: seq<Match>, steps: nat -> nat) returns (applied: nat, ok: bool)
      requires Valid()
      modifies this
      ensures Valid() && |matchRatings| >= |old(matchRatings)| + applied
      ensures old(Account()) == Flags(false, false) && (forall i :: steps(i) >= 4) ==>
        && (matchRatings, ok) == old(Backfill(expected, initialRating, matchRatings, matches))
        && |matchRatings| == |old(matchRatings)| + applied && Account() == Flags(false, false)
    {
      hide RateMatch, RunDb, DbInv, Fold, Genuine;
      applied := 0;
      for i := 0 to |matches|
        invariant Valid() && |matchRatings| >= |old(matchRatings)| + applied
        invariant old(Account()) == Flags(false, false) && (forall i :: steps(i) >= 4) ==>
            && Backfill(expected, initialRating, matchRatings, matches[i..])
               == old(Backfill(expected, initialRating, matchRatings, matches))
            && Account() == Flags(false, false) && |matchRatings| == |old(matchRatings)| + applied
      {
        var m := matches[i];
        assert matches[i..][0] == m && matches[i..][1..] == matches[i + 1..];
        if m.result == Undetermined || Rated(matchRatings, m.gameId) {
          continue;
        }
        FoldExactlyWithoutHalfWrites(expected, initialRating, log);
        ghost var before := log;
        var u := UpdateAfterMatch(m, steps(i));
        Logged(before, Rate(m, steps(i)));
        if !u.Applied? {
          return applied, false;
        }
        applied := applied + 1;
      }
      return applied, true;
    }
  }

  lemma RateMatchKeepsNames(expected: (real, real) -> real, initial: real, t: Table, m: Match)
    requires m.result != Undetermined
    ensures var row := RateMatch(expected, initial, t, m);
      Match(row.gameId, row.nameA, row.nameB, row.result) == m
  {
  }
}
