/** The Elos of the players and the replays of their games. The expectation that one player
    beats another is a parameter: all that matters of it is that it lies strictly between 0
    and 1 and that the two sides' expectations add up to 1. */
module Ratings {
  import opened Results
  import opened Scoring

  datatype GameResult = GameResult(gameId: int, white: int, black: int, mode: int, result: ReplayResult)

  datatype UserMode = UserMode(user: int, mode: int)

  datatype Rating = Rating(elo: real, wins: nat, losses: nat, draws: nat)

  datatype Replay = Replay(id: int, game: GameResult, winDiff: real, loseDiff: real, whiteElo: real, blackElo: real)

  /** The tables: replay IDs count up from 1. */
  datatype Database = Database(ratings: map<UserMode, Rating>, replays: seq<Replay>)

  datatype ChangeSet = ChangeSet(replayId: int, winId: int, loseId: int, winDiff: real, loseDiff: real,
                                 whiteEloNext: real, blackEloNext: real, alreadyExists: bool)

  datatype Upsert = Upsert(user: int, mode: int, elo: real, wins: nat, losses: nat, draws: nat)

  const START_ELO := 1000.0

  ghost predicate IsExpectation(p: (real, real) -> real) {
    forall a, b :: 0.0 < p(a, b) < 1.0 && p(a, b) + p(b, a) == 1.0
  }

  predicate IsGuest(id: int) { id < 0 }

  predicate IsRated(g: GameResult) { !IsGuest(g.white) && !IsGuest(g.black) }

  function NoChange(): ChangeSet { ChangeSet(0, 0, 0, 0.0, 0.0, 0.0, 0.0, false) }

  function WinnerOf(g: GameResult): int { if g.result == WhiteWin then g.white else g.black }

  function LoserOf(g: GameResult): int { if g.result == WhiteWin then g.black else g.white }

  function CreateChangeSet(g: GameResult, whiteElo: real, blackElo: real, p: (real, real) -> real): (ChangeSet, seq<Upsert>) {
    if IsGuest(g.white) || IsGuest(g.black) then (NoChange(), [])
    else if g.result == Draw then
      (NoChange().(whiteEloNext := whiteElo, blackEloNext := blackElo),
       [Upsert(g.white, g.mode, whiteElo, 0, 0, 1), Upsert(g.black, g.mode, blackElo, 0, 0, 1)])
    else
      var whiteWins := g.result == WhiteWin;
      var winElo, loseElo := if whiteWins then whiteElo else blackElo, if whiteWins then blackElo else whiteElo;
      var winNext := winElo + 30.0 * (1.0 - p(loseElo, winElo));
      var loseNext := loseElo + (-30.0 * p(winElo, loseElo));
      (ChangeSet(0, WinnerOf(g), LoserOf(g), winNext - winElo, loseNext - loseElo,
                 if whiteWins then winNext else loseNext, if whiteWins then loseNext else winNext, false),
       [Upsert(WinnerOf(g), g.mode, winNext, 1, 0, 0), Upsert(LoserOf(g), g.mode, loseNext, 0, 1, 0)])
  }

  function EloIn(ratings: map<UserMode, Rating>, user: int, mode: int): real {
    if UserMode(user, mode) in ratings then ratings[UserMode(user, mode)].elo else START_ELO
  }

  function Upserted(ratings: map<UserMode, Rating>, u: Upsert): map<UserMode, Rating> {
    var k := UserMode(u.user, u.mode);
    if k in ratings then
      var r := ratings[k];
      ratings[k := Rating(u.elo, r.wins + u.wins, r.losses + u.losses, r.draws + u.draws)]
    else ratings[k := Rating(u.elo, u.wins, u.losses, u.draws)]
  }

  predicate HasReplay(replays: seq<Replay>, gameId: int) { exists i :: 0 <= i < |replays| && replays[i].game.gameId == gameId }

  function ReplayId(replays: seq<Replay>, gameId: int): int
    requires HasReplay(replays, gameId)
    decreases |replays|
  {
    if replays[0].game.gameId == gameId then replays[0].id
    else
      assert HasReplay(replays[1..], gameId) by {
        var i :| 0 <= i < |replays| && replays[i].game.gameId == gameId;
        assert replays[1..][i - 1].game.gameId == gameId;
      }
      ReplayId(replays[1..], gameId)
  }

  function ReplayOf(g: GameResult, c: ChangeSet, id: int): Replay {
    Replay(id, g, c.winDiff, c.loseDiff, c.whiteEloNext, c.blackEloNext)
  }

  /** The transaction for one finished game: nothing new if its replay is there already. */
  function ResultInserted(db: Database, g: GameResult, p: (real, real) -> real): (Database, ChangeSet) {
    if HasReplay(db.replays, g.gameId) then (db, NoChange().(replayId := ReplayId(db.replays, g.gameId), alreadyExists := true))
    else
      var (changes, upserts) := CreateChangeSet(g, EloIn(db.ratings, g.white, g.mode), EloIn(db.ratings, g.black, g.mode), p);
      var ratings := if upserts == [] then db.ratings else Upserted(Upserted(db.ratings, upserts[0]), upserts[1]);
      var id := |db.replays| + 1;
      (Database(ratings, db.replays + [ReplayOf(g, changes, id)]), changes.(replayId := id))
  }

  // ----- what the replays say of the ratings -----

  /** The changes of a mode's Elos by the replays, winner and loser. */
  function Diffs(replays: seq<Replay>, mode: int): seq<Credit>
    decreases |replays|
  {
    if replays == [] then []
    else Diffs(replays[..|replays| - 1], mode) + DiffsOf(replays[|replays| - 1], mode)
  }

  predicate IsDecisive(g: GameResult, mode: int) { IsRated(g) && g.mode == mode && g.result != Draw }

  function DiffsOf(r: Replay, mode: int): seq<Credit> {
    if !IsDecisive(r.game, mode) then []
    else [Credit(WinnerOf(r.game), r.winDiff), Credit(LoserOf(r.game), r.loseDiff)]
  }

  /** One mark per won game, to its winner; and per lost game, to its loser. */
  function WinMarks(replays: seq<Replay>, mode: int): seq<Credit>
    decreases |replays|
  {
    if replays == [] then []
    else WinMarks(replays[..|replays| - 1], mode)
         + (if IsDecisive(replays[|replays| - 1].game, mode) then [Credit(WinnerOf(replays[|replays| - 1].game), 1.0)] else [])
  }

  function LossMarks(replays: seq<Replay>, mode: int): seq<Credit>
    decreases |replays|
  {
    if replays == [] then []
    else LossMarks(replays[..|replays| - 1], mode)
         + (if IsDecisive(replays[|replays| - 1].game, mode) then [Credit(LoserOf(replays[|replays| - 1].game), 1.0)] else [])
  }

  predicate IsDraw(g: GameResult, mode: int) { IsRated(g) && g.mode == mode && g.result == Draw }

  /** One mark per drawn game, to both players. */
  function DrawMarks(replays: seq<Replay>, mode: int): seq<Credit>
    decreases |replays|
  {
    if replays == [] then []
    else DrawMarks(replays[..|replays| - 1], mode) + DrawMarksOf(replays[|replays| - 1].game, mode)
  }

  function DrawMarksOf(g: GameResult, mode: int): seq<Credit> {
    if !IsDraw(g, mode) then [] else [Credit(g.white, 1.0), Credit(g.black, 1.0)]
  }

  /** The Elo that the replays give a player. */
  function EloBy(replays: seq<Replay>, user: int, mode: int): real { START_ELO + Score(Diffs(replays, mode), user) }

  /** The row's changes are those that the expectation gives for the Elos by the rows before,
      and it carries the Elos of its two players from then on, zeros if one is a guest. */
  ghost predicate RowOk(before: seq<Replay>, r: Replay, p: (real, real) -> real) {
    var g := r.game;
    var e := p(EloBy(before, WinnerOf(g), g.mode), EloBy(before, LoserOf(g), g.mode));
    && g.white != g.black
    && (IsRated(g) && g.result != Draw ==> r.winDiff == 30.0 * e && r.loseDiff == -30.0 * e)
    && (!IsRated(g) || g.result == Draw ==> r.winDiff == 0.0 && r.loseDiff == 0.0)
    && (IsRated(g) ==>
          r.whiteElo == EloBy(before + [r], g.white, g.mode) && r.blackElo == EloBy(before + [r], g.black, g.mode))
    && (!IsRated(g) ==> r.whiteElo == 0.0 && r.blackElo == 0.0)
  }

  ghost predicate RowsOk(replays: seq<Replay>, p: (real, real) -> real) {
    forall i :: 0 <= i < |replays| ==> RowOk(replays[..i], replays[i], p)
  }

  ghost predicate OncePerGame(replays: seq<Replay>) {
    && (forall i :: 0 <= i < |replays| ==> replays[i].id == i + 1)
    && (forall i, j :: 0 <= i < j < |replays| ==> replays[i].game.gameId != replays[j].game.gameId)
  }

  /** A player's rating is what the replays add up to. */
  ghost predicate RatingOk(ratings: map<UserMode, Rating>, replays: seq<Replay>, k: UserMode) {
    if k in ratings then
      && ratings[k].elo == EloBy(replays, k.user, k.mode)
      && ratings[k].wins as real == Score(WinMarks(replays, k.mode), k.user)
      && ratings[k].losses as real == Score(LossMarks(replays, k.mode), k.user)
      && ratings[k].draws as real == Score(DrawMarks(replays, k.mode), k.user)
    else
      && EloBy(replays, k.user, k.mode) == START_ELO
      && Score(WinMarks(replays, k.mode), k.user) == 0.0
      && Score(LossMarks(replays, k.mode), k.user) == 0.0
      && Score(DrawMarks(replays, k.mode), k.user) == 0.0
  }

  /** The ratings follow from the replays, in which every game is recorded once. */
  ghost predicate DatabaseOk(db: Database, p: (real, real) -> real) {
    && OncePerGame(db.replays) && RowsOk(db.replays, p)
    && forall k :: RatingOk(db.ratings, db.replays, k)
  }

  lemma ScoreOfTwo(cs: seq<Credit>, a: Credit, b: Credit, u: int)
    ensures Score(cs + [a], u) == Score(cs, u) + (if a.user == u then a.amount else 0.0)
    ensures Score(cs + [a, b], u) == Score(cs, u) + (if a.user == u then a.amount else 0.0) + (if b.user == u then b.amount else 0.0)
  {
    assert (cs + [a])[..|cs|] == cs;
    assert (cs + [a, b])[..|cs| + 1] == cs + [a];
  }

  /** What one more row changes of the sums. */
  lemma OneMoreRow(replays: seq<Replay>, r: Replay, user: int, mode: int)
    ensures EloBy(replays + [r], user, mode) == EloBy(replays, user, mode)
              + (if IsDecisive(r.game, mode) && WinnerOf(r.game) == user then r.winDiff else 0.0)
              + (if IsDecisive(r.game, mode) && LoserOf(r.game) == user then r.loseDiff else 0.0)
    ensures Score(WinMarks(replays + [r], mode), user) == Score(WinMarks(replays, mode), user)
              + (if IsDecisive(r.game, mode) && WinnerOf(r.game) == user then 1.0 else 0.0)
    ensures Score(LossMarks(replays + [r], mode), user) == Score(LossMarks(replays, mode), user)
              + (if IsDecisive(r.game, mode) && LoserOf(r.game) == user then 1.0 else 0.0)
    ensures Score(DrawMarks(replays + [r], mode), user) == Score(DrawMarks(replays, mode), user)
              + (if IsDraw(r.game, mode) && r.game.white == user then 1.0 else 0.0)
              + (if IsDraw(r.game, mode) && r.game.black == user then 1.0 else 0.0)
  {
    hide Score;
    var rs := replays + [r];
    assert rs[..|rs| - 1] == replays;
    var ds, ws, ls := Diffs(replays, mode), WinMarks(replays, mode), LossMarks(replays, mode);
    if IsDecisive(r.game, mode) {
      ScoreOfTwo(ds, Credit(WinnerOf(r.game), r.winDiff), Credit(LoserOf(r.game), r.loseDiff), user);
      ScoreOfTwo(ws, Credit(WinnerOf(r.game), 1.0), Credit(LoserOf(r.game), 1.0), user);
      ScoreOfTwo(ls, Credit(LoserOf(r.game), 1.0), Credit(LoserOf(r.game), 1.0), user);
    } else {
      assert ds + [] == ds && ws + [] == ws && ls + [] == ls;
    }
    var marks := DrawMarks(replays, mode);
    if IsDraw(r.game, mode) {
      ScoreOfTwo(marks, Credit(r.game.white, 1.0), Credit(r.game.black, 1.0), user);
    } else {
      assert marks + [] == marks;
    }
  }

  lemma RowOkAfter(replays: seq<Replay>, r: Replay, p: (real, real) -> real)
    requires RowsOk(replays, p) && RowOk(replays, r, p)
    ensures RowsOk(replays + [r], p)
  {
    hide RowOk;
    var rs := replays + [r];
    forall i | 0 <= i < |rs|
      ensures RowOk(rs[..i], rs[i], p)
    {
      if i < |replays| {
        assert rs[..i] == replays[..i] && rs[i] == replays[i];
      } else {
        assert rs[..i] == replays;
      }
    }
  }

  lemma EloByRatings(db: Database, user: int, mode: int)
    requires RatingOk(db.ratings, db.replays, UserMode(user, mode))
    ensures EloIn(db.ratings, user, mode) == EloBy(db.replays, user, mode)
  {
  }

  /** The new row carries the changes that its players' Elos ask for. */
  lemma NewRowOk(db: Database, g: GameResult, p: (real, real) -> real, id: int)
    requires IsExpectation(p) && g.white != g.black
    requires RatingOk(db.ratings, db.replays, UserMode(g.white, g.mode))
    requires RatingOk(db.ratings, db.replays, UserMode(g.black, g.mode))
    ensures var c := CreateChangeSet(g, EloIn(db.ratings, g.white, g.mode), EloIn(db.ratings, g.black, g.mode), p).0;
            RowOk(db.replays, ReplayOf(g, c, id), p)
  {
    hide RatingOk, EloBy, IsExpectation, EloIn;
    EloByRatings(db, g.white, g.mode);
    EloByRatings(db, g.black, g.mode);
    var w, l := EloBy(db.replays, WinnerOf(g), g.mode), EloBy(db.replays, LoserOf(g), g.mode);
    Complement(p, w, l);
    var c := CreateChangeSet(g, EloIn(db.ratings, g.white, g.mode), EloIn(db.ratings, g.black, g.mode), p).0;
    EloAfterRow(db.replays, ReplayOf(g, c, id), g.white, g.mode);
    EloAfterRow(db.replays, ReplayOf(g, c, id), g.black, g.mode);
  }

  lemma EloAfterRow(replays: seq<Replay>, r: Replay, user: int, mode: int)
    ensures EloBy(replays + [r], user, mode) == EloBy(replays, user, mode)
              + (if IsDecisive(r.game, mode) && WinnerOf(r.game) == user then r.winDiff else 0.0)
              + (if IsDecisive(r.game, mode) && LoserOf(r.game) == user then r.loseDiff else 0.0)
  {
    hide EloBy, Score, WinMarks, LossMarks, DrawMarks;
    OneMoreRow(replays, r, user, mode);
  }

  lemma Complement(p: (real, real) -> real, a: real, b: real)
    requires IsExpectation(p)
    ensures 1.0 - p(b, a) == p(a, b) && 0.0 < p(a, b) < 1.0
  {
  }

  /** The upserts bring every rating in line with the new row. */
  lemma NewRatingsOk(db: Database, g: GameResult, p: (real, real) -> real, k: UserMode)
    requires g.white != g.black && forall j :: RatingOk(db.ratings, db.replays, j)
    requires !HasReplay(db.replays, g.gameId)
    ensures RatingOk(ResultInserted(db, g, p).0.ratings, ResultInserted(db, g, p).0.replays, k)
  {
    hide EloBy, Score, WinMarks, LossMarks, DrawMarks, HasReplay;
    var after := ResultInserted(db, g, p).0;
    var r := after.replays[|db.replays|];
    OneMoreRow(db.replays, r, k.user, k.mode);
    assert after.replays == db.replays + [r];
    assert RatingOk(db.ratings, db.replays, k);
  }

  lemma NewOncePerGame(replays: seq<Replay>, r: Replay)
    requires OncePerGame(replays) && !HasReplay(replays, r.game.gameId) && r.id == |replays| + 1
    ensures OncePerGame(replays + [r])
  {
  }

  /** Recording a game keeps the database in order; recording it again changes nothing. */
  lemma ResultKeepsDatabase(db: Database, g: GameResult, p: (real, real) -> real)
    requires IsExpectation(p) && DatabaseOk(db, p) && g.white != g.black
    ensures DatabaseOk(ResultInserted(db, g, p).0, p)
    ensures HasReplay(db.replays, g.gameId) ==> ResultInserted(db, g, p).0 == db
    ensures HasReplay(ResultInserted(db, g, p).0.replays, g.gameId)
  {
    hide RatingOk, RowsOk, RowOk, OncePerGame, IsExpectation, CreateChangeSet, Upserted, EloIn;
    if !HasReplay(db.replays, g.gameId) {
      var after := ResultInserted(db, g, p).0;
      var r := after.replays[|db.replays|];
      assert after.replays[|db.replays|].game.gameId == g.gameId;
      NewRowOk(db, g, p, |db.replays| + 1);
      RowOkAfter(db.replays, r, p);
      NewOncePerGame(db.replays, r);
      forall k
        ensures RatingOk(after.ratings, after.replays, k)
      {
        NewRatingsOk(db, g, p, k);
      }
    }
  }

  // ----- conservation -----

  lemma {:induction false} DiffsCancel(replays: seq<Replay>, mode: int, p: (real, real) -> real)
    requires RowsOk(replays, p)
    ensures Amounts(Diffs(replays, mode)) == 0.0
    ensures Amounts(WinMarks(replays, mode)) == Amounts(LossMarks(replays, mode))
    decreases |replays|
  {
    hide Amounts, EloBy, Score;
    if replays == [] {
      NoAmounts(Diffs(replays, mode));
    } else {
      var front, last := replays[..|replays| - 1], replays[|replays| - 1];
      assert RowOk(front, last, p);
      FrontRowsOk(replays, p);
      DiffsCancel(front, mode, p);
      AmountsAppend(Diffs(front, mode), DiffsOf(last, mode));
      var wins, losses := WinMarks(front, mode), LossMarks(front, mode);
      if IsDecisive(last.game, mode) {
        AmountsAppend(wins, [Credit(WinnerOf(last.game), 1.0)]);
        AmountsAppend(losses, [Credit(LoserOf(last.game), 1.0)]);
      } else {
        assert wins + [] == wins && losses + [] == losses;
      }
    }
  }

  lemma NoAmounts(cs: seq<Credit>)
    requires cs == []
    ensures Amounts(cs) == 0.0
  {
  }

  lemma FrontRowsOk(replays: seq<Replay>, p: (real, real) -> real)
    requires RowsOk(replays, p) && replays != []
    ensures RowsOk(replays[..|replays| - 1], p)
  {
    hide RowOk;
    var front := replays[..|replays| - 1];
    forall i | 0 <= i < |front|
      ensures RowOk(front[..i], front[i], p)
    {
      assert front[..i] == replays[..i] && front[i] == replays[i];
    }
  }

  function Surplus(ids: seq<int>, ratings: map<UserMode, Rating>, mode: int): real
    decreases |ids|
  {
    if ids == [] then 0.0 else EloIn(ratings, ids[0], mode) - START_ELO + Surplus(ids[1..], ratings, mode)
  }

  function TotalWins(ids: seq<int>, ratings: map<UserMode, Rating>, mode: int): nat
    decreases |ids|
  {
    if ids == [] then 0
    else (if UserMode(ids[0], mode) in ratings then ratings[UserMode(ids[0], mode)].wins else 0) + TotalWins(ids[1..], ratings, mode)
  }

  function TotalLosses(ids: seq<int>, ratings: map<UserMode, Rating>, mode: int): nat
    decreases |ids|
  {
    if ids == [] then 0
    else (if UserMode(ids[0], mode) in ratings then ratings[UserMode(ids[0], mode)].losses else 0) + TotalLosses(ids[1..], ratings, mode)
  }

  /** The list holds every player who has a rating in the mode. */
  ghost predicate ListsAll(ids: seq<int>, ratings: map<UserMode, Rating>, mode: int) {
    Distinct(ids) && forall u :: UserMode(u, mode) in ratings ==> u in ids
  }

  lemma {:induction false} SumsByReplays(ids: seq<int>, db: Database, mode: int)
    requires forall k :: RatingOk(db.ratings, db.replays, k)
    ensures Surplus(ids, db.ratings, mode) == ScoreSum(ids, Diffs(db.replays, mode))
    ensures TotalWins(ids, db.ratings, mode) as real == ScoreSum(ids, WinMarks(db.replays, mode))
    ensures TotalLosses(ids, db.ratings, mode) as real == ScoreSum(ids, LossMarks(db.replays, mode))
    decreases |ids|
  {
    hide Score, Diffs, WinMarks, LossMarks, DrawMarks;
    if ids != [] {
      SumsByReplays(ids[1..], db, mode);
      assert RatingOk(db.ratings, db.replays, UserMode(ids[0], mode));
    }
  }

  /** Who is credited in the replays of a mode has a rating: shown by the players of the rows. */
  ghost predicate RatedPlayers(db: Database) {
    forall i :: 0 <= i < |db.replays| && IsRated(db.replays[i].game) ==>
      && UserMode(db.replays[i].game.white, db.replays[i].game.mode) in db.ratings
      && UserMode(db.replays[i].game.black, db.replays[i].game.mode) in db.ratings
  }

  lemma {:induction false} CreditedArePlayers(replays: seq<Replay>, mode: int, c: Credit)
    requires c in Diffs(replays, mode) || c in WinMarks(replays, mode) || c in LossMarks(replays, mode)
    ensures exists i :: 0 <= i < |replays| && IsDecisive(replays[i].game, mode)
                        && (replays[i].game.white == c.user || replays[i].game.black == c.user)
    decreases |replays|
  {
    var front, last := replays[..|replays| - 1], replays[|replays| - 1];
    if c in Diffs(front, mode) || c in WinMarks(front, mode) || c in LossMarks(front, mode) {
      CreditedArePlayers(front, mode, c);
      var i :| 0 <= i < |front| && IsDecisive(front[i].game, mode)
               && (front[i].game.white == c.user || front[i].game.black == c.user);
      assert replays[i] == front[i];
    } else {
      assert IsDecisive(last.game, mode);
    }
  }

  lemma ResultKeepsRatedPlayers(db: Database, g: GameResult, p: (real, real) -> real)
    requires RatedPlayers(db)
    ensures RatedPlayers(ResultInserted(db, g, p).0)
  {
    hide HasReplay;
  }

  lemma CreditedAreListed(db: Database, ids: seq<int>, mode: int, cs: seq<Credit>)
    requires RatedPlayers(db) && ListsAll(ids, db.ratings, mode)
    requires cs == Diffs(db.replays, mode) || cs == WinMarks(db.replays, mode) || cs == LossMarks(db.replays, mode)
    ensures forall c :: c in cs ==> c.user in ids
  {
    hide Diffs, WinMarks, LossMarks;
    forall c | c in cs
      ensures c.user in ids
    {
      CreditedArePlayers(db.replays, mode, c);
      var i :| 0 <= i < |db.replays| && IsDecisive(db.replays[i].game, mode)
               && (db.replays[i].game.white == c.user || db.replays[i].game.black == c.user);
      assert UserMode(c.user, mode) in db.ratings;
    }
  }

  /** Within a mode the Elos above and below the start cancel, and there are as many wins as
      losses. */
  lemma RatingsAreConserved(db: Database, ids: seq<int>, mode: int, p: (real, real) -> real)
    requires DatabaseOk(db, p) && RatedPlayers(db) && ListsAll(ids, db.ratings, mode)
    ensures Surplus(ids, db.ratings, mode) == 0.0
    ensures TotalWins(ids, db.ratings, mode) == TotalLosses(ids, db.ratings, mode)
  {
    hide RatingOk, RowsOk, OncePerGame, RatedPlayers, Diffs, WinMarks, LossMarks, Score;
    SumsByReplays(ids, db, mode);
    DiffsCancel(db.replays, mode, p);
    CreditedAreListed(db, ids, mode, Diffs(db.replays, mode));
    CreditedAreListed(db, ids, mode, WinMarks(db.replays, mode));
    CreditedAreListed(db, ids, mode, LossMarks(db.replays, mode));
    ScoresAddUp(ids, Diffs(db.replays, mode));
    ScoresAddUp(ids, WinMarks(db.replays, mode));
    ScoresAddUp(ids, LossMarks(db.replays, mode));
  }

  /** A winner gains more than nothing and less than 30 points, and the loser loses as much. */
  lemma WinnerGains(db: Database, i: nat, p: (real, real) -> real)
    requires IsExpectation(p) && DatabaseOk(db, p) && i < |db.replays|
    ensures IsRated(db.replays[i].game) && db.replays[i].game.result != Draw ==>
              0.0 < db.replays[i].winDiff < 30.0 && db.replays[i].loseDiff == -db.replays[i].winDiff
  {
    hide RatingOk, OncePerGame, EloBy;
    assert RowOk(db.replays[..i], db.replays[i], p);
    var g := db.replays[i].game;
    Complement(p, EloBy(db.replays[..i], WinnerOf(g), g.mode), EloBy(db.replays[..i], LoserOf(g), g.mode));
  }

  // ----- by the results of the games -----

  /** What a row between rated players says of their Elos, seat by seat: a win adds 30 times what
      was not expected of the player, a loss takes 30 times what was, a draw changes nothing.
      p(b, a) is what is expected of a against b. */
  lemma RowBySeats(before: seq<Replay>, r: Replay, p: (real, real) -> real)
    requires IsExpectation(p) && RowOk(before, r, p) && IsRated(r.game)
    ensures var white, black := EloBy(before, r.game.white, r.game.mode), EloBy(before, r.game.black, r.game.mode);
            && (r.game.result == WhiteWin ==>
                  && r.whiteElo == white + 30.0 * (1.0 - p(black, white)) && r.blackElo == black - 30.0 * p(white, black)
                  && r.whiteElo > white && r.blackElo < black)
            && (r.game.result == BlackWin ==>
                  && r.whiteElo == white - 30.0 * p(black, white) && r.blackElo == black + 30.0 * (1.0 - p(white, black))
                  && r.whiteElo < white && r.blackElo > black)
            && (r.game.result == Draw ==> r.whiteElo == white && r.blackElo == black)
  {
    hide EloBy, IsExpectation;
    var g := r.game;
    EloAfterRow(before, r, g.white, g.mode);
    EloAfterRow(before, r, g.black, g.mode);
    Complement(p, EloBy(before, g.white, g.mode), EloBy(before, g.black, g.mode));
    Complement(p, EloBy(before, g.black, g.mode), EloBy(before, g.white, g.mode));
  }

  /** The i-th replay carries the Elos that its players have by the replays up to it. */
  lemma ReplayCarriesElos(db: Database, i: nat, p: (real, real) -> real)
    requires DatabaseOk(db, p) && i < |db.replays| && IsRated(db.replays[i].game)
    ensures var r := db.replays[i];
            && r.whiteElo == EloBy(db.replays[..i + 1], r.game.white, r.game.mode)
            && r.blackElo == EloBy(db.replays[..i + 1], r.game.black, r.game.mode)
  {
    hide RatingOk, OncePerGame, EloBy;
    assert RowOk(db.replays[..i], db.replays[i], p);
    assert db.replays[..i + 1] == db.replays[..i] + [db.replays[i]];
  }

  /** The change set of a newly recorded game holds the two players' ratings after it. */
  lemma ChangeSetHoldsRatings(db: Database, g: GameResult, p: (real, real) -> real)
    requires g.white != g.black && g.white >= 0 && g.black >= 0 && !HasReplay(db.replays, g.gameId)
    ensures var (after, c) := ResultInserted(db, g, p);
            && UserMode(g.white, g.mode) in after.ratings && UserMode(g.black, g.mode) in after.ratings
            && c.whiteEloNext == after.ratings[UserMode(g.white, g.mode)].elo
            && c.blackEloNext == after.ratings[UserMode(g.black, g.mode)].elo
            && |after.replays| == |db.replays| + 1
            && c.replayId == after.replays[|db.replays|].id
            && c.whiteEloNext == after.replays[|db.replays|].whiteElo && c.blackEloNext == after.replays[|db.replays|].blackElo
  {
    hide HasReplay, EloIn;
  }

  function OneIf(b: bool): nat { if b then 1 else 0 }

  /** The rated games of a mode that the player won, by result and seat. */
  function WonGames(replays: seq<Replay>, user: int, mode: int): nat
    decreases |replays|
  {
    if replays == [] then 0
    else
      var g := replays[|replays| - 1].game;
      WonGames(replays[..|replays| - 1], user, mode)
      + OneIf(IsRated(g) && g.mode == mode
              && ((g.result == WhiteWin && g.white == user) || (g.result == BlackWin && g.black == user)))
  }

  function LostGames(replays: seq<Replay>, user: int, mode: int): nat
    decreases |replays|
  {
    if replays == [] then 0
    else
      var g := replays[|replays| - 1].game;
      LostGames(replays[..|replays| - 1], user, mode)
      + OneIf(IsRated(g) && g.mode == mode
              && ((g.result == WhiteWin && g.black == user) || (g.result == BlackWin && g.white == user)))
  }

  lemma {:induction false} MarksAreGames(replays: seq<Replay>, user: int, mode: int)
    ensures Score(WinMarks(replays, mode), user) == WonGames(replays, user, mode) as real
    ensures Score(LossMarks(replays, mode), user) == LostGames(replays, user, mode) as real
    decreases |replays|
  {
    hide Score, EloBy, DrawMarks;
    if replays == [] {
      NotCredited(WinMarks(replays, mode), user);
      NotCredited(LossMarks(replays, mode), user);
    } else {
      var front, last := replays[..|replays| - 1], replays[|replays| - 1];
      MarksAreGames(front, user, mode);
      OneMoreRow(front, last, user, mode);
      assert front + [last] == replays;
    }
  }

  /** A rating's wins and losses are the games won and lost, by their results. */
  lemma RatingCountsGames(db: Database, user: int, mode: int)
    requires RatingOk(db.ratings, db.replays, UserMode(user, mode)) && UserMode(user, mode) in db.ratings
    ensures db.ratings[UserMode(user, mode)].wins == WonGames(db.replays, user, mode)
    ensures db.ratings[UserMode(user, mode)].losses == LostGames(db.replays, user, mode)
  {
    hide EloBy, Score, DrawMarks, WonGames, LostGames;
    MarksAreGames(db.replays, user, mode);
  }

  /** Nobody's Elo differs from 1000 but by won and lost games of the mode between two players
      with accounts, whose IDs are not negative. */
  lemma {:induction false} NewcomersHave1000(replays: seq<Replay>, user: int, mode: int)
    requires forall i :: 0 <= i < |replays| && replays[i].game.mode == mode && (replays[i].game.white == user || replays[i].game.black == user) ==>
               replays[i].game.result == Draw || replays[i].game.white < 0 || replays[i].game.black < 0
    ensures EloBy(replays, user, mode) == 1000.0
    decreases |replays|
  {
    hide Score, WinMarks, LossMarks, DrawMarks, Diffs;
    if replays == [] {
      NoDiffs(replays, mode);
      NotCredited(Diffs(replays, mode), user);
    } else {
      var front, last := replays[..|replays| - 1], replays[|replays| - 1];
      NewcomersHave1000(front, user, mode);
      EloAfterRow(front, last, user, mode);
      assert front + [last] == replays;
    }
  }

  lemma NoDiffs(replays: seq<Replay>, mode: int)
    requires replays == []
    ensures Diffs(replays, mode) == []
  {
  }

  /** A game with a guest is recorded without Elos and changes no rating. */
  lemma GuestsChangeNothing(db: Database, g: GameResult, p: (real, real) -> real)
    requires g.white < 0 || g.black < 0
    ensures ResultInserted(db, g, p).0.ratings == db.ratings
    ensures !HasReplay(db.replays, g.gameId) ==>
              ResultInserted(db, g, p).0.replays == db.replays + [Replay(|db.replays| + 1, g, 0.0, 0.0, 0.0, 0.0)]
  {
    hide HasReplay;
  }
}
