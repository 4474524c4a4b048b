/** Handling the events of finished games: the result is recorded in one transaction, later
    steps follow, and the leaderboard comes last. Events are redelivered until a delivery gets
    to its end, and a delivery may crash between any two steps. */
module GameOver {
  import opened Wrappers
  import opened Results
  import opened Scoring
  import opened Ratings

  // ----- the transaction and the leaderboard, in place -----

  class Store {
    var ratings: map<UserMode, Rating>
    var replays: seq<Replay>
    var leaderboard: map<UserMode, real>

    ghost function Tables(): Database
      reads this
    {
      Database(ratings, replays)
    }

    constructor ()
      ensures Tables() == Database(map[], []) && leaderboard == map[]
    {
      ratings, replays, leaderboard := map[], [], map[];
    }

    method SelectReplayId(gameId: int) returns (id: Option<int>)
      ensures id == if HasReplay(replays, gameId) then Some(ReplayId(replays, gameId)) else None
    {
      hide HasReplay, ReplayId;
      for i := 0 to |replays|
        invariant HasReplay(replays, gameId) <==> HasReplay(replays[i..], gameId)
        invariant HasReplay(replays, gameId) ==> ReplayId(replays, gameId) == ReplayId(replays[i..], gameId)
      {
        FirstReplay(replays[i..], gameId);
        assert replays[i..][1..] == replays[i + 1..];
        if replays[i].game.gameId == gameId {
          return Some(replays[i].id);
        }
      }
      NoReplay(replays[|replays|..], gameId);
      id := None;
    }

    /** The recording of a game, as one transaction. */
    method InsertGameResult(g: GameResult, p: (real, real) -> real) returns (changes: ChangeSet)
      modifies this`ratings, this`replays
      ensures (Tables(), changes) == ResultInserted(old(Tables()), g, p)
    {
      hide CreateChangeSet, HasReplay, Upserted;
      var existing := SelectReplayId(g.gameId);
      if existing.Some? {
        return NoChange().(replayId := existing.value, alreadyExists := true);
      }
      var (created, upserts) := CreateChangeSet(g, EloIn(ratings, g.white, g.mode), EloIn(ratings, g.black, g.mode), p);
      TwoUpserts(g, EloIn(ratings, g.white, g.mode), EloIn(ratings, g.black, g.mode), p);
      ghost var before := ratings;
      for i := 0 to |upserts|
        invariant replays == old(replays)
        invariant ratings == if i == 0 then before else if i == 1 then Upserted(before, upserts[0])
                             else Upserted(Upserted(before, upserts[0]), upserts[1])
      {
        ratings := Upserted(ratings, upserts[i]);
      }
      var id := |replays| + 1;
      replays := replays + [ReplayOf(g, created, id)];
      changes := created.(replayId := id);
    }

    /** Adds the changes to the leaderboard, passing over guests and zero changes. */
    method UpdateLeaderboard(c: ChangeSet, mode: int)
      modifies this`leaderboard
      ensures leaderboard == Credited(old(leaderboard), c, mode)
    {
      if !(IsGuest(c.winId) || c.winDiff == 0.0) {
        leaderboard := Increased(leaderboard, UserMode(c.winId, mode), c.winDiff);
      }
      if !(IsGuest(c.loseId) || c.loseDiff == 0.0) {
        leaderboard := Increased(leaderboard, UserMode(c.loseId, mode), c.loseDiff);
      }
    }
  }

  lemma FirstReplay(replays: seq<Replay>, gameId: int)
    requires replays != []
    ensures HasReplay(replays, gameId) <==> replays[0].game.gameId == gameId || HasReplay(replays[1..], gameId)
    ensures HasReplay(replays, gameId) ==>
              ReplayId(replays, gameId) == if replays[0].game.gameId == gameId then replays[0].id else ReplayId(replays[1..], gameId)
  {
    if i :| 0 <= i < |replays[1..]| && replays[1..][i].game.gameId == gameId {
      assert replays[i + 1].game.gameId == gameId;
    }
    if i :| 1 <= i < |replays| && replays[i].game.gameId == gameId {
      assert replays[1..][i - 1].game.gameId == gameId;
    }
  }

  lemma NoReplay(replays: seq<Replay>, gameId: int)
    requires replays == []
    ensures !HasReplay(replays, gameId)
  {
  }

  lemma TwoUpserts(g: GameResult, whiteElo: real, blackElo: real, p: (real, real) -> real)
    ensures |CreateChangeSet(g, whiteElo, blackElo, p).1| in {0, 2}
    ensures !CreateChangeSet(g, whiteElo, blackElo, p).0.alreadyExists
  {
  }

  function Increased(lb: map<UserMode, real>, k: UserMode, diff: real): map<UserMode, real> {
    lb[k := (if k in lb then lb[k] else 0.0) + diff]
  }

  function Credited(lb: map<UserMode, real>, c: ChangeSet, mode: int): map<UserMode, real> {
    var won := if IsGuest(c.winId) || c.winDiff == 0.0 then lb else Increased(lb, UserMode(c.winId, mode), c.winDiff);
    if IsGuest(c.loseId) || c.loseDiff == 0.0 then won else Increased(won, UserMode(c.loseId, mode), c.loseDiff)
  }

  // ----- deliveries -----

  datatype Stage = Delivered | Recorded | HistoryStored | EventPublished | Acknowledged

  /** One delivery of an event: how far it has come, and what its transaction returned. */
  datatype Delivery = Delivery(game: GameResult, stage: Stage, changes: Option<ChangeSet>, crashed: bool)

  datatype System = System(db: Database, histories: set<int>, leaderboard: map<UserMode, real>, deliveries: seq<Delivery>)

  datatype Action =
    | Deliver(game: GameResult)
    | Proceed(i: nat)
    | Crash(i: nat)

  predicate CanProceed(s: System, i: nat) {
    i < |s.deliveries| && !s.deliveries[i].crashed && s.deliveries[i].stage != Acknowledged
  }

  /** The next step of a delivery. */
  function Proceeded(s: System, i: nat, p: (real, real) -> real): System
    requires CanProceed(s, i) && (s.deliveries[i].stage != Delivered ==> s.deliveries[i].changes.Some?)
  {
    var d := s.deliveries[i];
    match d.stage
    case Delivered =>
      var (db, changes) := ResultInserted(s.db, d.game, p);
      s.(db := db, deliveries := s.deliveries[i := d.(stage := Recorded, changes := Some(changes))])
    case Recorded =>
      s.(histories := s.histories + {d.changes.value.replayId}, deliveries := s.deliveries[i := d.(stage := HistoryStored)])
    case HistoryStored =>
      s.(deliveries := s.deliveries[i := d.(stage := EventPublished)])
    case EventPublished =>
      s.(leaderboard := Credited(s.leaderboard, d.changes.value, d.game.mode),
         deliveries := s.deliveries[i := d.(stage := Acknowledged)])
  }

  ghost predicate Step(s: System, a: Action, after: System, p: (real, real) -> real) {
    match a
    case Deliver(game) => game.white != game.black && after == s.(deliveries := s.deliveries + [Delivery(game, Delivered, None, false)])
    case Proceed(i) => CanProceed(s, i) && (s.deliveries[i].stage != Delivered ==> s.deliveries[i].changes.Some?)
                       && after == Proceeded(s, i, p)
    case Crash(i) => i < |s.deliveries| && after == s.(deliveries := s.deliveries[i := s.deliveries[i].(crashed := true)])
  }

  // ----- the leaderboard against the ratings -----

  /** What a change set does to one player's Elo in a mode. */
  function ChangeFor(c: ChangeSet, mode: int, k: UserMode): real {
    if k.mode != mode then 0.0
    else (if c.winId == k.user then c.winDiff else 0.0) + (if c.loseId == k.user then c.loseDiff else 0.0)
  }

  function DeliveryChange(d: Delivery, k: UserMode): real {
    if d.changes.None? then 0.0 else ChangeFor(d.changes.value, d.game.mode, k)
  }

  /** All that the transactions of the deliveries have returned for a player. */
  function Owed(ds: seq<Delivery>, k: UserMode): real
    decreases |ds|
  {
    if ds == [] then 0.0 else Owed(ds[..|ds| - 1], k) + DeliveryChange(ds[|ds| - 1], k)
  }

  /** The part of it whose deliveries got to the leaderboard. */
  function Paid(ds: seq<Delivery>, k: UserMode): real
    decreases |ds|
  {
    if ds == [] then 0.0
    else Paid(ds[..|ds| - 1], k) + (if ds[|ds| - 1].stage == Acknowledged then DeliveryChange(ds[|ds| - 1], k) else 0.0)
  }

  function ScoreOn(lb: map<UserMode, real>, k: UserMode): real { if k in lb then lb[k] else 0.0 }

  /** The delivery whose transaction recorded the game, the others finding it recorded. */
  predicate Recorder(d: Delivery) { d.changes.Some? && !d.changes.value.alreadyExists }

  ghost predicate DeliveryOk(d: Delivery, db: Database) {
    && d.game.white != d.game.black
    && (d.changes.None? <==> d.stage == Delivered)
    && (d.changes.Some? ==> HasReplay(db.replays, d.game.gameId))
    && (d.changes.Some? ==> ChangesOk(d.changes.value))
    && (d.changes.Some? && d.changes.value.alreadyExists ==> d.changes.value.winDiff == 0.0 && d.changes.value.loseDiff == 0.0)
  }

  ghost predicate ChangesOk(c: ChangeSet) {
    && (c.winDiff != 0.0 ==> !IsGuest(c.winId))
    && (c.loseDiff != 0.0 ==> !IsGuest(c.loseId))
  }

  ghost predicate OneRecorder(ds: seq<Delivery>) {
    forall i, j :: 0 <= i < j < |ds| && Recorder(ds[i]) && Recorder(ds[j]) ==> ds[i].game.gameId != ds[j].game.gameId
  }

  ghost predicate Balanced(s: System) {
    && (forall k: UserMode :: Owed(s.deliveries, k) == EloBy(s.db.replays, k.user, k.mode) - START_ELO)
    && (forall k: UserMode :: Paid(s.deliveries, k) == ScoreOn(s.leaderboard, k))
  }

  ghost predicate Inv(s: System, p: (real, real) -> real) {
    && DatabaseOk(s.db, p) && RatedPlayers(s.db)
    && (forall i :: 0 <= i < |s.deliveries| ==> DeliveryOk(s.deliveries[i], s.db))
    && OneRecorder(s.deliveries)
    && Balanced(s)
  }

  lemma {:induction false} SumsUpdate(ds: seq<Delivery>, i: nat, d: Delivery, k: UserMode)
    requires i < |ds|
    ensures Owed(ds[i := d], k) == Owed(ds, k) - DeliveryChange(ds[i], k) + DeliveryChange(d, k)
    ensures Paid(ds[i := d], k) == Paid(ds, k)
              - (if ds[i].stage == Acknowledged then DeliveryChange(ds[i], k) else 0.0)
              + (if d.stage == Acknowledged then DeliveryChange(d, k) else 0.0)
    decreases |ds|
  {
    hide DeliveryChange;
    var es := ds[i := d];
    var front := ds[..|ds| - 1];
    if i == |ds| - 1 {
      assert es[..|es| - 1] == front;
    } else {
      assert es[..|es| - 1] == front[i := d];
      SumsUpdate(front, i, d, k);
    }
  }

  lemma SumsAppend(ds: seq<Delivery>, d: Delivery, k: UserMode)
    requires d.changes.None?
    ensures Owed(ds + [d], k) == Owed(ds, k) && Paid(ds + [d], k) == Paid(ds, k)
  {
    assert (ds + [d])[..|ds|] == ds;
  }

  lemma CreditedScore(lb: map<UserMode, real>, c: ChangeSet, mode: int, k: UserMode)
    requires ChangesOk(c)
    ensures ScoreOn(Credited(lb, c, mode), k) == ScoreOn(lb, k) + ChangeFor(c, mode, k)
  {
  }

  /** What the transaction returns is what it changes of the Elos that the replays give. */
  lemma ResultChanges(db: Database, g: GameResult, p: (real, real) -> real, k: UserMode)
    requires g.white != g.black
    ensures var (after, c) := ResultInserted(db, g, p);
            EloBy(after.replays, k.user, k.mode) == EloBy(db.replays, k.user, k.mode) + ChangeFor(c, g.mode, k)
  {
    hide EloBy, HasReplay, Upserted, EloIn, WinMarks, LossMarks, DrawMarks, Score;
    var (after, c) := ResultInserted(db, g, p);
    if !HasReplay(db.replays, g.gameId) {
      OneMoreRow(db.replays, after.replays[|db.replays|], k.user, k.mode);
      assert after.replays == db.replays + [after.replays[|db.replays|]];
    }
  }

  lemma ResultDelivery(db: Database, d: Delivery, p: (real, real) -> real)
    requires d.game.white != d.game.black
    ensures var (after, c) := ResultInserted(db, d.game, p);
            && DeliveryOk(d.(stage := Recorded, changes := Some(c)), after)
            && (c.alreadyExists <==> HasReplay(db.replays, d.game.gameId))
  {
    hide EloIn, Upserted, ReplayId;
    var (after, c) := ResultInserted(db, d.game, p);
    if !HasReplay(db.replays, d.game.gameId) {
      assert after.replays[|db.replays|].game.gameId == d.game.gameId;
    }
  }

  lemma ReplaysStay(db: Database, g: GameResult, p: (real, real) -> real, gameId: int)
    ensures HasReplay(db.replays, gameId) ==> HasReplay(ResultInserted(db, g, p).0.replays, gameId)
  {
    hide CreateChangeSet, Upserted;
    if HasReplay(db.replays, gameId) {
      var i :| 0 <= i < |db.replays| && db.replays[i].game.gameId == gameId;
      assert ResultInserted(db, g, p).0.replays[i].game.gameId == gameId;
    }
  }

  lemma RecordKeepsInv(s: System, i: nat, p: (real, real) -> real)
    requires IsExpectation(p) && Inv(s, p) && CanProceed(s, i) && s.deliveries[i].stage == Delivered
    ensures Inv(Proceeded(s, i, p), p)
  {
    hide DatabaseOk, RatedPlayers, ResultInserted, HasReplay, Owed, Paid, EloBy, IsExpectation, ChangesOk;
    var d, after := s.deliveries[i], Proceeded(s, i, p);
    assert DeliveryOk(d, s.db);
    var (db, c) := ResultInserted(s.db, d.game, p);
    ResultKeepsDatabase(s.db, d.game, p);
    ResultKeepsRatedPlayers(s.db, d.game, p);
    ResultDelivery(s.db, d, p);
    forall j | 0 <= j < |after.deliveries|
      ensures DeliveryOk(after.deliveries[j], after.db)
    {
      assert DeliveryOk(s.deliveries[j], s.db);
      ReplaysStay(s.db, d.game, p, s.deliveries[j].game.gameId);
    }
    forall j, k | 0 <= j < k < |after.deliveries| && Recorder(after.deliveries[j]) && Recorder(after.deliveries[k])
      ensures after.deliveries[j].game.gameId != after.deliveries[k].game.gameId
    {
      assert DeliveryOk(s.deliveries[j], s.db) && DeliveryOk(s.deliveries[k], s.db);
    }
    forall k: UserMode
      ensures Owed(after.deliveries, k) == EloBy(after.db.replays, k.user, k.mode) - START_ELO
      ensures Paid(after.deliveries, k) == ScoreOn(after.leaderboard, k)
    {
      SumsUpdate(s.deliveries, i, after.deliveries[i], k);
      ResultChanges(s.db, d.game, p, k);
    }
  }

  lemma LaterStepKeepsInv(s: System, i: nat, p: (real, real) -> real)
    requires Inv(s, p) && CanProceed(s, i) && s.deliveries[i].stage != Delivered && s.deliveries[i].changes.Some?
    ensures Inv(Proceeded(s, i, p), p)
  {
    hide DatabaseOk, RatedPlayers, HasReplay, Owed, Paid, EloBy, ChangesOk, Credited, ScoreOn;
    var d, after := s.deliveries[i], Proceeded(s, i, p);
    assert DeliveryOk(d, s.db);
    forall j | 0 <= j < |after.deliveries|
      ensures DeliveryOk(after.deliveries[j], after.db)
    {
      assert DeliveryOk(s.deliveries[j], s.db);
    }
    forall k: UserMode
      ensures Owed(after.deliveries, k) == EloBy(after.db.replays, k.user, k.mode) - START_ELO
      ensures Paid(after.deliveries, k) == ScoreOn(after.leaderboard, k)
    {
      SumsUpdate(s.deliveries, i, after.deliveries[i], k);
      CreditedScore(s.leaderboard, d.changes.value, d.game.mode, k);
    }
  }

  lemma CrashKeepsInv(s: System, i: nat, p: (real, real) -> real)
    requires Inv(s, p) && i < |s.deliveries|
    ensures Inv(s.(deliveries := s.deliveries[i := s.deliveries[i].(crashed := true)]), p)
  {
    hide DatabaseOk, RatedPlayers, HasReplay, Owed, Paid, EloBy, ChangesOk, ScoreOn;
    var after := s.(deliveries := s.deliveries[i := s.deliveries[i].(crashed := true)]);
    forall j | 0 <= j < |after.deliveries|
      ensures DeliveryOk(after.deliveries[j], after.db)
    {
      assert DeliveryOk(s.deliveries[j], s.db);
    }
    forall k: UserMode
      ensures Owed(after.deliveries, k) == EloBy(after.db.replays, k.user, k.mode) - START_ELO
      ensures Paid(after.deliveries, k) == ScoreOn(after.leaderboard, k)
    {
      SumsUpdate(s.deliveries, i, after.deliveries[i], k);
    }
  }

  lemma DeliverKeepsInv(s: System, game: GameResult, p: (real, real) -> real)
    requires Inv(s, p) && game.white != game.black
    ensures Inv(s.(deliveries := s.deliveries + [Delivery(game, Delivered, None, false)]), p)
  {
    hide DatabaseOk, RatedPlayers, HasReplay, Owed, Paid, EloBy, ChangesOk, ScoreOn;
    var d := Delivery(game, Delivered, None, false);
    var after := s.(deliveries := s.deliveries + [d]);
    forall j | 0 <= j < |after.deliveries|
      ensures DeliveryOk(after.deliveries[j], after.db)
    {
      if j < |s.deliveries| { assert DeliveryOk(s.deliveries[j], s.db); }
    }
    forall k: UserMode
      ensures Owed(after.deliveries, k) == EloBy(after.db.replays, k.user, k.mode) - START_ELO
      ensures Paid(after.deliveries, k) == ScoreOn(after.leaderboard, k)
    {
      SumsAppend(s.deliveries, d, k);
    }
  }

  lemma StepKeepsInv(s: System, a: Action, after: System, p: (real, real) -> real)
    requires IsExpectation(p) && Inv(s, p) && Step(s, a, after, p)
    ensures Inv(after, p)
  {
    hide Inv, IsExpectation, Proceeded;
    match a {
      case Deliver(game) => DeliverKeepsInv(s, game, p);
      case Proceed(i) =>
        if s.deliveries[i].stage == Delivered {
          RecordKeepsInv(s, i, p);
        } else {
          LaterStepKeepsInv(s, i, p);
        }
      case Crash(i) => CrashKeepsInv(s, i, p);
    }
  }

  ghost predicate IsStep(s: System, after: System, p: (real, real) -> real) {
    exists a :: Step(s, a, after, p)
  }

  function Start(): System { System(Database(map[], []), {}, map[], []) }

  ghost predicate IsHandlingRun(states: seq<System>, p: (real, real) -> real) {
    && states != [] && states[0] == Start()
    && forall i :: 0 <= i < |states| - 1 ==> IsStep(states[i], states[i + 1], p)
  }

  lemma StartInv(p: (real, real) -> real)
    ensures Inv(Start(), p)
  {
  }

  lemma {:induction false} EveryRunKeepsInv(states: seq<System>, i: nat, p: (real, real) -> real)
    requires IsExpectation(p) && IsHandlingRun(states, p) && i < |states|
    ensures Inv(states[i], p)
    decreases i
  {
    hide Inv, Step, IsExpectation;
    if i == 0 {
      StartInv(p);
    } else {
      EveryRunKeepsInv(states, i - 1, p);
      assert IsStep(states[i - 1], states[i], p);
      var a :| Step(states[i - 1], a, states[i], p);
      StepKeepsInv(states[i - 1], a, states[i], p);
    }
  }

  /** A game between two players with accounts that one of them won. */
  predicate IsWon(r: Replay) { IsRated(r.game) && r.game.result != Draw }

  /** In every run, whatever is redelivered and wherever deliveries crash: each game is recorded
      once and the ratings are what the recorded games add up to; within a mode, Elos above and
      below the start cancel and wins equal losses; a winner gains between 0 and 30. */
  lemma EveryRunConservesElo(states: seq<System>, i: nat, p: (real, real) -> real, ids: seq<int>, mode: int)
    requires IsExpectation(p) && IsHandlingRun(states, p) && i < |states|
    requires ListsAll(ids, states[i].db.ratings, mode)
    ensures OncePerGame(states[i].db.replays)
    ensures forall k :: RatingOk(states[i].db.ratings, states[i].db.replays, k)
    ensures Surplus(ids, states[i].db.ratings, mode) == 0.0
    ensures TotalWins(ids, states[i].db.ratings, mode) == TotalLosses(ids, states[i].db.ratings, mode)
    ensures forall j :: 0 <= j < |states[i].db.replays| && IsWon(states[i].db.replays[j]) ==>
              0.0 < states[i].db.replays[j].winDiff < 30.0
  {
    hide IsExpectation, RatingOk, OncePerGame, ListsAll, IsHandlingRun, RatedPlayers, OneRecorder, Balanced;
    EveryRunKeepsInv(states, i, p);
    var db := states[i].db;
    RatingsAreConserved(db, ids, mode, p);
    forall j | 0 <= j < |db.replays| && IsWon(db.replays[j])
      ensures 0.0 < db.replays[j].winDiff < 30.0
    {
      WinnerGains(db, j, p);
    }
  }

  /** In every run each replay of a game between rated players carries their Elos from then on,
      and those follow from the Elos before it by the result, seat by seat. Every rating counts
      the games its player won and lost. */
  lemma EveryRunRecordsElos(states: seq<System>, i: nat, p: (real, real) -> real, j: nat)
    requires IsExpectation(p) && IsHandlingRun(states, p) && i < |states|
    requires j < |states[i].db.replays| && IsRated(states[i].db.replays[j].game)
    ensures var db, r := states[i].db, states[i].db.replays[j];
            var white, black := EloBy(db.replays[..j], r.game.white, r.game.mode), EloBy(db.replays[..j], r.game.black, r.game.mode);
            && r.whiteElo == EloBy(db.replays[..j + 1], r.game.white, r.game.mode)
            && r.blackElo == EloBy(db.replays[..j + 1], r.game.black, r.game.mode)
            && (r.game.result == WhiteWin ==> r.whiteElo == white + 30.0 * (1.0 - p(black, white)) && r.whiteElo > white
                                              && r.blackElo == black - 30.0 * p(white, black) && r.blackElo < black)
            && (r.game.result == BlackWin ==> r.whiteElo == white - 30.0 * p(black, white) && r.whiteElo < white
                                              && r.blackElo == black + 30.0 * (1.0 - p(white, black)) && r.blackElo > black)
            && (r.game.result == Draw ==> r.whiteElo == white && r.blackElo == black)
    ensures forall u, mode :: UserMode(u, mode) in states[i].db.ratings ==>
              && states[i].db.ratings[UserMode(u, mode)].wins == WonGames(states[i].db.replays, u, mode)
              && states[i].db.ratings[UserMode(u, mode)].losses == LostGames(states[i].db.replays, u, mode)
  {
    hide IsExpectation, RatingOk, RowOk, OncePerGame, IsHandlingRun, RatedPlayers, OneRecorder, Balanced, EloBy, DeliveryOk;
    hide WonGames, LostGames;
    EveryRunKeepsInv(states, i, p);
    var db := states[i].db;
    ReplayCarriesElos(db, j, p);
    assert RowOk(db.replays[..j], db.replays[j], p);
    RowBySeats(db.replays[..j], db.replays[j], p);
    forall u, mode | UserMode(u, mode) in db.ratings
      ensures db.ratings[UserMode(u, mode)].wins == WonGames(db.replays, u, mode)
      ensures db.ratings[UserMode(u, mode)].losses == LostGames(db.replays, u, mode)
    {
      assert RatingOk(db.ratings, db.replays, UserMode(u, mode));
      RatingCountsGames(db, u, mode);
    }
  }

  /** A delivery that has changed the Elos but not the leaderboard. */
  predicate Unpaid(d: Delivery) { Recorder(d) && d.stage != Acknowledged }

  lemma {:induction false} AllPaid(ds: seq<Delivery>, db: Database, k: UserMode)
    requires forall i :: 0 <= i < |ds| ==> DeliveryOk(ds[i], db) && !Unpaid(ds[i])
    ensures Paid(ds, k) == Owed(ds, k)
    decreases |ds|
  {
    if ds != [] {
      AllPaid(ds[..|ds| - 1], db, k);
      assert DeliveryOk(ds[|ds| - 1], db);
    }
  }

  /** Each game changes the leaderboard at most once: only the delivery that recorded it does,
      and there is only one. When no such delivery is stuck before the leaderboard, the
      leaderboard holds exactly the Elos over the start. */
  lemma EveryRunPaysAtMostOnce(states: seq<System>, i: nat, p: (real, real) -> real)
    requires IsExpectation(p) && IsHandlingRun(states, p) && i < |states|
    ensures OneRecorder(states[i].deliveries)
    ensures forall j, k :: 0 <= j < |states[i].deliveries| && !Recorder(states[i].deliveries[j]) ==>
              DeliveryChange(states[i].deliveries[j], k) == 0.0
    ensures forall k :: ScoreOn(states[i].leaderboard, k) == Paid(states[i].deliveries, k)
    ensures (forall j :: 0 <= j < |states[i].deliveries| ==> !Unpaid(states[i].deliveries[j])) ==>
              forall k: UserMode :: ScoreOn(states[i].leaderboard, k) == EloIn(states[i].db.ratings, k.user, k.mode) - START_ELO
  {
    hide IsExpectation, OncePerGame, IsHandlingRun, RatedPlayers, OneRecorder, Owed, Paid, RowsOk, EloBy, ScoreOn, Score;
    EveryRunKeepsInv(states, i, p);
    var s := states[i];
    forall j, k | 0 <= j < |s.deliveries| && !Recorder(s.deliveries[j])
      ensures DeliveryChange(s.deliveries[j], k) == 0.0
    {
      assert DeliveryOk(s.deliveries[j], s.db);
    }
    if forall j :: 0 <= j < |s.deliveries| ==> !Unpaid(s.deliveries[j]) {
      forall k: UserMode
        ensures ScoreOn(s.leaderboard, k) == EloIn(s.db.ratings, k.user, k.mode) - START_ELO
      {
        AllPaid(s.deliveries, s.db, k);
        EloByRatings(s.db, k.user, k.mode);
      }
    }
  }

  // ----- the stored histories -----

  /** The ID is that of the replay of the game. */
  predicate NamesReplay(replays: seq<Replay>, id: int, gameId: int) {
    1 <= id <= |replays| && replays[id - 1].id == id && replays[id - 1].game.gameId == gameId
  }

  predicate PastHistory(d: Delivery) { d.stage == HistoryStored || d.stage == EventPublished || d.stage == Acknowledged }

  /** A delivery past its transaction holds the ID of its game's replay, and one past the next
      step has stored that replay's history. */
  ghost predicate HistoryOk(d: Delivery, replays: seq<Replay>, histories: set<int>) {
    && (d.changes.Some? ==> NamesReplay(replays, d.changes.value.replayId, d.game.gameId))
    && (PastHistory(d) ==> d.changes.Some? && d.changes.value.replayId in histories)
  }

  /** And every stored history is that of some delivery past that step. */
  ghost predicate HistoriesOk(s: System) {
    && (forall i :: 0 <= i < |s.deliveries| ==> HistoryOk(s.deliveries[i], s.db.replays, s.histories))
    && (forall id :: id in s.histories ==> IsStoredBy(s.deliveries, id))
  }

  predicate IsStoredBy(ds: seq<Delivery>, id: int) {
    exists i :: 0 <= i < |ds| && PastHistory(ds[i]) && ds[i].changes.Some? && ds[i].changes.value.replayId == id
  }

  lemma {:induction false} FoundReplay(replays: seq<Replay>, gameId: int) returns (k: nat)
    requires HasReplay(replays, gameId)
    ensures k < |replays| && replays[k].game.gameId == gameId && replays[k].id == ReplayId(replays, gameId)
    decreases |replays|
  {
    if replays[0].game.gameId == gameId {
      k := 0;
    } else {
      FirstReplay(replays, gameId);
      var rest := FoundReplay(replays[1..], gameId);
      k := rest + 1;
    }
  }

  lemma ResultNamesReplay(db: Database, g: GameResult, p: (real, real) -> real)
    requires OncePerGame(db.replays)
    ensures var (after, c) := ResultInserted(db, g, p);
            && NamesReplay(after.replays, c.replayId, g.gameId)
            && |db.replays| <= |after.replays| && after.replays[..|db.replays|] == db.replays
  {
    hide HasReplay, ReplayId, CreateChangeSet, Upserted;
    if HasReplay(db.replays, g.gameId) { var k := FoundReplay(db.replays, g.gameId); }
  }

  lemma HistoryStays(d: Delivery, replays: seq<Replay>, later: seq<Replay>, histories: set<int>, more: set<int>)
    requires HistoryOk(d, replays, histories) && |replays| <= |later| && later[..|replays|] == replays && histories <= more
    ensures HistoryOk(d, later, more)
  {
    if d.changes.Some? {
      var k := d.changes.value.replayId - 1;
      assert later[k] == later[..|replays|][k];
    }
  }

  lemma StoredByStays(ds: seq<Delivery>, later: seq<Delivery>, id: int)
    requires IsStoredBy(ds, id) && |ds| <= |later|
    requires forall i :: 0 <= i < |ds| && PastHistory(ds[i]) ==> PastHistory(later[i]) && later[i].changes == ds[i].changes
    ensures IsStoredBy(later, id)
  {
    var i :| 0 <= i < |ds| && PastHistory(ds[i]) && ds[i].changes.Some? && ds[i].changes.value.replayId == id;
    assert PastHistory(later[i]);
  }

  lemma ProceedKeepsHistories(s: System, i: nat, p: (real, real) -> real)
    requires HistoriesOk(s) && OncePerGame(s.db.replays)
    requires CanProceed(s, i) && (s.deliveries[i].stage != Delivered ==> s.deliveries[i].changes.Some?)
    ensures HistoriesOk(Proceeded(s, i, p))
  {
    hide OncePerGame, ResultInserted, Credited, NamesReplay, IsStoredBy;
    var d, after := s.deliveries[i], Proceeded(s, i, p);
    assert HistoryOk(d, s.db.replays, s.histories);
    ResultNamesReplay(s.db, d.game, p);
    forall j | 0 <= j < |after.deliveries|
      ensures HistoryOk(after.deliveries[j], after.db.replays, after.histories)
    {
      HistoryStays(s.deliveries[j], s.db.replays, after.db.replays, s.histories, after.histories);
    }
    forall id | id in after.histories
      ensures IsStoredBy(after.deliveries, id)
    {
      if id in s.histories {
        StoredByStays(s.deliveries, after.deliveries, id);
      } else {
        StoredNow(after.deliveries, i, id);
      }
    }
  }

  lemma StoredNow(ds: seq<Delivery>, i: nat, id: int)
    requires i < |ds| && PastHistory(ds[i]) && ds[i].changes.Some? && ds[i].changes.value.replayId == id
    ensures IsStoredBy(ds, id)
  {
  }

  lemma StepKeepsHistories(s: System, a: Action, after: System, p: (real, real) -> real)
    requires HistoriesOk(s) && OncePerGame(s.db.replays) && Step(s, a, after, p)
    ensures HistoriesOk(after)
  {
    hide OncePerGame, Proceeded, NamesReplay, IsStoredBy;
    match a {
      case Proceed(i) => ProceedKeepsHistories(s, i, p);
      case _ =>
        forall j | 0 <= j < |after.deliveries|
          ensures HistoryOk(after.deliveries[j], after.db.replays, after.histories)
        {
          if j < |s.deliveries| { assert HistoryOk(s.deliveries[j], s.db.replays, s.histories); }
        }
        forall id | id in after.histories
          ensures IsStoredBy(after.deliveries, id)
        {
          StoredByStays(s.deliveries, after.deliveries, id);
        }
    }
  }

  /** In every run a delivery that has come past the transaction holds the ID of its own game's
      replay, that replay's history is stored by the time the later steps follow, and no other
      history is ever stored. */
  lemma {:induction false} EveryRunStoresHistories(states: seq<System>, i: nat, p: (real, real) -> real)
    requires IsExpectation(p) && IsHandlingRun(states, p) && i < |states|
    ensures HistoriesOk(states[i])
    decreases i
  {
    hide Inv, Step, IsExpectation, HistoriesOk;
    if i == 0 {
      StartStoresNothing();
    } else {
      EveryRunStoresHistories(states, i - 1, p);
      EveryRunKeepsInv(states, i - 1, p);
      InvOncePerGame(states[i - 1], p);
      assert IsStep(states[i - 1], states[i], p);
      var a :| Step(states[i - 1], a, states[i], p);
      StepKeepsHistories(states[i - 1], a, states[i], p);
    }
  }

  lemma StartStoresNothing()
    ensures HistoriesOk(Start())
  {
  }

  lemma InvOncePerGame(s: System, p: (real, real) -> real)
    requires Inv(s, p)
    ensures OncePerGame(s.db.replays)
  {
    hide RatingOk, RowsOk;
  }
}
