/** The transactions on the tables of a tournament. Each runs serializable, so as one step. */
module TournamentDb {
  import opened Wrappers
  import opened Matcher
  import opened Pairing
  import opened Results
  import opened Scoring
  import opened Winners
  import opened Tournaments
  import TournamentRuns

  /** Every transaction keeps what holds in every run, and what later states keep. */
  lemma StepKept(t: Tournament, a: Action, after: Tournament)
    requires TournamentRuns.Inv(t) && (t.ruleset == Knockout ==> t.rounds >= 0) && Step(t, a, after)
    ensures TournamentRuns.Inv(after) && TournamentRuns.Follows(t, after)
  {
    hide TournamentRuns.Inv, TournamentRuns.Follows, Step;
    TournamentRuns.StepKeepsInv(t, a, after);
    TournamentRuns.StepFollows(t, a, after);
  }

  lemma AdvanceKept(t: Tournament, event: int, elos: map<int, real>, after: Tournament, r: Result<seq<Pair>, TournamentError>)
    requires TournamentRuns.Inv(t) && (t.ruleset == Knockout ==> t.rounds >= 0) && Advances(t, event, elos, after, r)
    ensures TournamentRuns.Inv(after) && TournamentRuns.Follows(t, after)
  {
    hide TournamentRuns.Inv, TournamentRuns.Follows, Advances;
    StepKept(t, Advance(event, elos), after);
  }

  lemma InvFits(t: Tournament)
    requires TournamentRuns.Inv(t)
    ensures Distinct(t.participants) && (t.ruleset == Knockout ==> t.rounds >= 0)
  {
    hide TournamentRuns.RoundOk, TournamentRuns.EventRows;
  }

  class Tables {
    const ruleset: Ruleset
    const createdBy: int
    var status: TournamentStatus
    var rounds: int
    var winner: int
    var participants: seq<int>
    var matches: seq<Match>
    var events: seq<Event>

    ghost function State(): Tournament
      reads this
    {
      Tournament(ruleset, createdBy, status, rounds, winner, participants, matches, events)
    }

    /** What holds of the tables in every run. */
    ghost predicate Valid()
      reads this
    {
      TournamentRuns.Inv(State())
    }

    /** What the tables hold now follows on what they held: nothing recorded is lost. */
    twostate predicate Follows()
      reads this
    {
      TournamentRuns.Follows(old(State()), State())
    }

    constructor (ruleset: Ruleset, rounds: int, createdBy: int)
      requires Created(ruleset, rounds, createdBy).Success?
      ensures Valid() && State() == Created(ruleset, rounds, createdBy).value
    {
      TournamentRuns.CreatedInv(ruleset, rounds, createdBy);
      this.ruleset, this.createdBy := ruleset, createdBy;
      status := Lobby;
      this.rounds := if ruleset == Knockout then rounds else 0;
      winner := WINNER_NONE;
      participants, matches, events := [], [], [];
    }

    method JoinTournament(user: int) returns (error: Option<TournamentError>)
      requires Valid()
      modifies this
      ensures Valid() && Follows() && State() == Joined(old(State()), user)
      ensures error == JoinError(old(State()), user)
    {
      hide TournamentRuns.Inv, TournamentRuns.Follows;
      InvFits(State());
      StepKept(State(), Join(user), Joined(State(), user));
      if status != Lobby {
        return Some(NotLobby);
      }
      if ruleset == Knockout {
        var maxPlayers := Power2(rounds);
        if |participants| >= maxPlayers {
          return Some(TooManyParticipants);
        }
      }
      if user in participants {
        return Some(AlreadyJoined);
      }
      participants := participants + [user];
      error := None;
    }

    method LeaveTournament(user: int) returns (left: bool)
      requires Valid()
      modifies this
      ensures Valid() && Follows() && State() == Left(old(State()), user)
      ensures left <==> old(status) == Lobby && user in old(participants)
    {
      hide TournamentRuns.Inv, TournamentRuns.Follows;
      InvFits(State());
      StepKept(State(), Leave(user), Left(State(), user));
      if status != Lobby {
        return false;
      }
      RemovedKeepsDistinct(participants, user);
      RemovedCount(participants, user);
      var before := |participants|;
      participants := Removed(participants, user);
      left := |participants| < before;
    }

    method BeginTournamentCountdown(user: int) returns (error: Option<TournamentError>)
      requires Valid()
      modifies this
      ensures Valid() && Follows() && State() == CountdownBegun(old(State()), user)
      ensures error == CountdownError(old(State()), user)
    {
      hide TournamentRuns.Inv, TournamentRuns.Follows;
      InvFits(State());
      StepKept(State(), BeginCountdown(user), CountdownBegun(State(), user));
      if status != Lobby {
        return Some(NotLobby);
      }
      if user != createdBy {
        return Some(CountdownPermissions);
      }
      status := Scheduled;
      error := None;
    }

    method RecordGame(i: nat, result: ReplayResult)
      requires Valid()
      modifies this
      ensures Valid() && Follows() && State() == Recorded(old(State()), i, result)
    {
      hide TournamentRuns.Inv, TournamentRuns.Follows;
      InvFits(State());
      StepKept(State(), RecordResult(i, result), Recorded(State(), i, result));
      if i < |matches| && matches[i].result == None {
        matches := matches[i := matches[i].(result := Some(result))];
      }
    }

    /** Delivering an advance event, which may be delivered again. */
    method AdvanceTournament(event: int, elos: map<int, real>) returns (r: Result<seq<Pair>, TournamentError>)
      requires Valid()
      modifies this
      ensures Valid() && Follows() && Advances(old(State()), event, elos, State(), r)
    {
      hide TournamentRuns.Inv, TournamentRuns.Follows;
      hide FirstOutcome, NextOutcome, Power2, ByRound, AllDone, HasEvent, StoredMatches;
      ghost var before := State();
      InvFits(before);
      TournamentRuns.FollowsItself(before);
      if HasEvent(events, event) {
        return Success(StoredMatches(events, event));
      }
      var o: Outcome<Matchmaking>;
      match status {
        case Scheduled =>
          var entrants := Entrants(participants, elos);
          o := NewFirstMatches(ruleset, entrants, rounds);
        case InProgress =>
          var rows := ByRound(matches);
          var completed := ReadCompleted(rows, elos);
          if completed.None? {
            return Failure(MatchRoundCount);
          }
          o := DoMatchmaking(ruleset, completed.value, rounds);
        case _ =>
          return Failure(UnexpectedStatus(status));
      }
      assert Matchmakes(before, elos, o);
      match o {
        case Made(m) =>
          KnockoutKeepsRounds(before, elos, m);
          InsertTournamentMatches(event, m);
          r := Success(m.next);
        case Refused(error) =>
          r := Failure(Unmatched(error));
        case Panicked =>
          r := Failure(MatchmakingPanic);
      }
      assert ComesTo(before, event, o, State(), r);
      AdvanceKept(before, event, elos, State(), r);
    }

    method InsertTournamentMatches(event: int, m: Matchmaking)
      modifies this
      ensures State() == Inserted(old(State()), event, m)
    {
      matches := matches + NewRows(m.next, m.round);
      events := events + [Event(event, m.round, m.next)];
      status := m.status;
      rounds := m.totalRounds;
      if m.winnerId != WINNER_NONE {
        winner := m.winnerId;
      }
    }
  }

  /** A new tournament, unless it is a knockout of fewer rounds than one or more than five. */
  method CreateTournament(ruleset: Ruleset, rounds: int, createdBy: int) returns (r: Result<Tables, TournamentError>)
    ensures r.Failure? <==> ruleset == Knockout && !(1 <= rounds <= 5)
    ensures r.Failure? ==> r.error == InvalidRounds
    ensures r.Success? ==>
              && fresh(r.value) && r.value.Valid()
              && r.value.State() == Tournament(ruleset, createdBy, Lobby, if ruleset == Knockout then rounds else 0, WINNER_NONE, [], [], [])
  {
    if ruleset == Knockout && (rounds < 1 || rounds > MAX_KNOCKOUT_ROUNDS) {
      return Failure(InvalidRounds);
    }
    var tables := new Tables(ruleset, rounds, createdBy);
    r := Success(tables);
  }

  /** The rows as completed matches, unless one has no result yet. */
  method ReadCompleted(rows: seq<Match>, elos: map<int, real>) returns (completed: Option<seq<CompletedMatch>>)
    ensures completed.None? <==> !AllDone(rows)
    ensures AllDone(rows) ==> completed.value == AllCompleted(rows, elos)
  {
    var ms: seq<CompletedMatch> := [];
    for i := 0 to |rows|
      invariant |ms| == i && AllDone(rows[..i])
      invariant forall j :: 0 <= j < i ==> ms[j] == Completed(rows[j], elos)
    {
      assert forall j :: 0 <= j < i ==> rows[..i][j] == rows[j];
      if rows[i].result.None? {
        return None;
      }
      ms := ms + [Completed(rows[i], elos)];
    }
    assert rows[..|rows|] == rows;
    completed := Some(ms);
  }
}
