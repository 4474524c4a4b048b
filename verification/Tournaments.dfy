/** One tournament in the database: its row, its participants, its matches and the events
    consumed for it, and what each transaction does to them. */
module Tournaments {
  import opened Wrappers
  import opened Matcher
  import opened Pairing
  import opened Results
  import opened Scoring
  import opened Winners

  /** A match row; its result is that of the replay of its game, once there is one. */
  datatype Match = Match(round: int, white: int, black: int, result: Option<ReplayResult>)

  /** A consumed event: its ID and the matches it created, stored so that they can be
      returned again. */
  datatype Event = Event(id: int, round: int, created: seq<Pair>)

  /** Rows keep the order of their insertion, which is also that of the ordering column. */
  datatype Tournament = Tournament(ruleset: Ruleset, createdBy: int, status: TournamentStatus, rounds: int,
                                   winner: int, participants: seq<int>, matches: seq<Match>, events: seq<Event>)

  datatype TournamentError =
    | InvalidRounds
    | NotLobby
    | TooManyParticipants
    | AlreadyJoined
    | CountdownPermissions
    | UnexpectedStatus(got: TournamentStatus)
    | MatchRoundCount
    | Unmatched(error: MatchError)
    | MatchmakingPanic

  const MAX_KNOCKOUT_ROUNDS := 5

  function Created(ruleset: Ruleset, rounds: int, createdBy: int): Result<Tournament, TournamentError> {
    if ruleset == Knockout && (rounds < 1 || rounds > MAX_KNOCKOUT_ROUNDS) then Failure(InvalidRounds)
    else
      Success(Tournament(ruleset, createdBy, Lobby, if ruleset == Knockout then rounds else 0, WINNER_NONE, [], [], []))
  }

  // ----- joining, leaving, starting the countdown -----

  function JoinError(t: Tournament, user: int): Option<TournamentError>
    requires t.ruleset == Knockout ==> t.rounds >= 0
  {
    if t.status != Lobby then Some(NotLobby)
    else if t.ruleset == Knockout && |t.participants| >= Power2(t.rounds) then Some(TooManyParticipants)
    else if user in t.participants then Some(AlreadyJoined)
    else None
  }

  function Joined(t: Tournament, user: int): Tournament
    requires t.ruleset == Knockout ==> t.rounds >= 0
  {
    if JoinError(t, user).Some? then t else t.(participants := t.participants + [user])
  }

  function Removed(ids: seq<int>, user: int): seq<int>
    decreases |ids|
  {
    if ids == [] then []
    else Removed(ids[..|ids| - 1], user) + (if ids[|ids| - 1] == user then [] else [ids[|ids| - 1]])
  }

  lemma {:induction false} RemovedKeepsDistinct(ids: seq<int>, user: int)
    requires Distinct(ids)
    ensures Distinct(Removed(ids, user))
    ensures forall u :: u in Removed(ids, user) <==> u in ids && u != user
    decreases |ids|
  {
    if ids != [] {
      var front, z := ids[..|ids| - 1], ids[|ids| - 1];
      RemovedKeepsDistinct(front, user);
      assert ids == front + [z];
      assert z !in front;
    }
  }

  lemma {:induction false} RemovedCount(ids: seq<int>, user: int)
    ensures |Removed(ids, user)| <= |ids|
    ensures |Removed(ids, user)| < |ids| <==> user in ids
    decreases |ids|
  {
    if ids != [] {
      RemovedCount(ids[..|ids| - 1], user);
      assert ids == ids[..|ids| - 1] + [ids[|ids| - 1]];
    }
  }

  function Left(t: Tournament, user: int): Tournament {
    if t.status == Lobby then t.(participants := Removed(t.participants, user)) else t
  }

  function CountdownError(t: Tournament, user: int): Option<TournamentError> {
    if t.status != Lobby then Some(NotLobby)
    else if user != t.createdBy then Some(CountdownPermissions)
    else None
  }

  function CountdownBegun(t: Tournament, user: int): Tournament {
    if CountdownError(t, user).Some? then t else t.(status := Scheduled)
  }

  /** Joining goes through exactly in the lobby, for a user who has not joined, while a knockout
      of n rounds has fewer than 2^n participants; the user comes last. */
  lemma JoinGoesThroughIff(t: Tournament, user: int)
    requires t.ruleset == Knockout ==> t.rounds >= 0
    ensures JoinError(t, user) == None <==>
              t.status == Lobby && user !in t.participants && (t.ruleset == Knockout ==> |t.participants| < Power2(t.rounds))
    ensures JoinError(t, user) == Some(NotLobby) <==> t.status != Lobby
    ensures JoinError(t, user) == Some(AlreadyJoined) ==> user in t.participants
    ensures JoinError(t, user) == Some(TooManyParticipants) ==> t.ruleset == Knockout && |t.participants| >= Power2(t.rounds)
    ensures Joined(t, user).participants == if JoinError(t, user) == None then t.participants + [user] else t.participants
    ensures Joined(t, user) == t.(participants := Joined(t, user).participants)
  {
    hide Power2;
  }

  // ----- results of games -----

  /** The replay of a game comes in once; until then its match has no result. */
  function Recorded(t: Tournament, i: nat, result: ReplayResult): Tournament {
    if i < |t.matches| && t.matches[i].result == None
    then t.(matches := t.matches[i := t.matches[i].(result := Some(result))])
    else t
  }

  /** Recording gives a match its own result, once, and changes nothing else. */
  lemma RecordedResult(t: Tournament, i: nat, result: ReplayResult)
    requires i < |t.matches|
    ensures Recorded(t, i, result) == t.(matches := Recorded(t, i, result).matches)
    ensures |Recorded(t, i, result).matches| == |t.matches|
    ensures forall j :: 0 <= j < |t.matches| && (j != i || t.matches[i].result.Some?) ==> Recorded(t, i, result).matches[j] == t.matches[j]
    ensures t.matches[i].result.None? ==>
              Recorded(t, i, result).matches[i] == Match(t.matches[i].round, t.matches[i].white, t.matches[i].black, Some(result))
  {
  }

  // ----- advancing -----

  function Entrants(ids: seq<int>, elos: map<int, real>): (ps: seq<Participant>)
    ensures Ids(ps) == ids
  {
    seq(|ids|, i requires 0 <= i < |ids| => Participant(ids[i], if ids[i] in elos then Some(elos[ids[i]]) else None))
  }

  function InsertByRound(ms: seq<Match>, m: Match): seq<Match>
    decreases |ms|
  {
    if ms == [] || ms[|ms| - 1].round <= m.round then ms + [m]
    else InsertByRound(ms[..|ms| - 1], m) + [ms[|ms| - 1]]
  }

  /** The rows ordered by round, then by the order of insertion. */
  function ByRound(ms: seq<Match>): seq<Match>
    decreases |ms|
  {
    if ms == [] then [] else InsertByRound(ByRound(ms[..|ms| - 1]), ms[|ms| - 1])
  }

  predicate AllDone(ms: seq<Match>) { forall i :: 0 <= i < |ms| ==> ms[i].result.Some? }

  function CurrentElo(elos: map<int, real>, user: int): real {
    DefaultUserElo(if user in elos then Some(elos[user]) else None)
  }

  function Completed(m: Match, elos: map<int, real>): CompletedMatch
    requires m.result.Some?
  {
    CompletedMatch(m.round, m.white, m.black, CurrentElo(elos, m.white), CurrentElo(elos, m.black), m.result.value)
  }

  function AllCompleted(ms: seq<Match>, elos: map<int, real>): (r: seq<CompletedMatch>)
    requires AllDone(ms)
    ensures |r| == |ms|
  {
    seq(|ms|, i requires 0 <= i < |ms| => Completed(ms[i], elos))
  }

  /** Each seat of a completed match comes with the Elo that was read for its own player, 1000
      for a player without one, and with the result of its game. */
  lemma CompletedReads(ms: seq<Match>, elos: map<int, real>, i: nat)
    requires AllDone(ms) && i < |ms|
    ensures var m := AllCompleted(ms, elos)[i];
            && m.round == ms[i].round && m.whiteId == ms[i].white && m.blackId == ms[i].black
            && Some(m.result) == ms[i].result
            && m.whiteElo == (if ms[i].white in elos then elos[ms[i].white] else 1000.0)
            && m.blackElo == (if ms[i].black in elos then elos[ms[i].black] else 1000.0)
  {
  }

  /** The same for the participants of a first round. */
  lemma EntrantReads(ids: seq<int>, elos: map<int, real>, i: nat)
    requires Distinct(ids) && i < |ids|
    ensures Entrants(ids, elos)[i].userId == ids[i]
    ensures EloOf(Entrants(ids, elos))(ids[i]) == if ids[i] in elos then elos[ids[i]] else 1000.0
  {
    EloOfParticipant(Entrants(ids, elos), i);
  }

  predicate HasEvent(events: seq<Event>, id: int) { exists k :: 0 <= k < |events| && events[k].id == id }

  /** The stored matches of a consumed event. */
  function StoredMatches(events: seq<Event>, id: int): seq<Pair>
    requires HasEvent(events, id)
    decreases |events|
  {
    if events[|events| - 1].id == id then events[|events| - 1].created
    else
      assert HasEvent(events[..|events| - 1], id) by {
        var k :| 0 <= k < |events| && events[k].id == id;
        assert events[..|events| - 1][k].id == id;
      }
      StoredMatches(events[..|events| - 1], id)
  }

  function NewRows(ps: seq<Pair>, round: int): (ms: seq<Match>)
    ensures |ms| == |ps|
  {
    seq(|ps|, i requires 0 <= i < |ps| => Match(round, ps[i].white, ps[i].black, None))
  }

  /** Storing a matchmaking: its matches, the event that made them, the tournament's row. */
  function Inserted(t: Tournament, event: int, m: Matchmaking): Tournament {
    t.(matches := t.matches + NewRows(m.next, m.round),
       events := t.events + [Event(event, m.round, m.next)],
       status := m.status,
       rounds := m.totalRounds,
       winner := if m.winnerId != WINNER_NONE then m.winnerId else t.winner)
  }

  /** The matchmaking of a tournament that can be advanced. */
  ghost predicate Matchmakes(t: Tournament, elos: map<int, real>, o: Outcome<Matchmaking>)
    requires t.status == Scheduled || (t.status == InProgress && AllDone(ByRound(t.matches)))
  {
    if t.status == Scheduled then FirstOutcome(t.ruleset, Entrants(t.participants, elos), t.rounds, o)
    else NextOutcome(t.ruleset, AllCompleted(ByRound(t.matches), elos), t.rounds, o)
  }

  lemma KnockoutKeepsRounds(t: Tournament, elos: map<int, real>, m: Matchmaking)
    requires t.status == Scheduled || (t.status == InProgress && AllDone(ByRound(t.matches)))
    requires Matchmakes(t, elos, Made(m))
    ensures t.ruleset == Knockout ==> m.totalRounds == t.rounds
  {
  }

  /** One delivery of an advance event: what it returns and what it leaves in the tables. */
  ghost predicate Advances(t: Tournament, event: int, elos: map<int, real>, after: Tournament,
                           r: Result<seq<Pair>, TournamentError>) {
    if HasEvent(t.events, event) then after == t && r == Success(StoredMatches(t.events, event))
    else if t.status != Scheduled && t.status != InProgress then after == t && r == Failure(UnexpectedStatus(t.status))
    else if t.status == InProgress && !AllDone(ByRound(t.matches)) then after == t && r == Failure(MatchRoundCount)
    else exists o :: Matchmakes(t, elos, o) && ComesTo(t, event, o, after, r)
  }

  ghost predicate ComesTo(t: Tournament, event: int, o: Outcome<Matchmaking>, after: Tournament,
                          r: Result<seq<Pair>, TournamentError>) {
    match o
    case Made(m) => after == Inserted(t, event, m) && r == Success(m.next)
    case Refused(error) => after == t && r == Failure(Unmatched(error))
    case Panicked => after == t && r == Failure(MatchmakingPanic)
  }

  /** A step of a run: one of the transactions, or a finished game. */
  datatype Action =
    | Join(user: int)
    | Leave(user: int)
    | BeginCountdown(user: int)
    | RecordResult(i: nat, result: ReplayResult)
    | Advance(event: int, elos: map<int, real>)

  ghost predicate Step(t: Tournament, a: Action, after: Tournament)
    requires t.ruleset == Knockout ==> t.rounds >= 0
  {
    match a
    case Join(user) => after == Joined(t, user)
    case Leave(user) => after == Left(t, user)
    case BeginCountdown(user) => after == CountdownBegun(t, user)
    case RecordResult(i, result) => after == Recorded(t, i, result)
    case Advance(event, elos) => exists r :: Advances(t, event, elos, after, r)
  }
}
