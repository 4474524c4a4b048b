/** What holds of a tournament's tables in every run of joins, leaves, countdowns, deliveries of
    advance events and finished games. */
module TournamentRuns {
  import opened Wrappers
  import opened Matcher
  import opened Pairing
  import opened Ranking
  import opened Results
  import opened Rounds
  import opened RoundRobins
  import opened Scoring
  import opened Winners
  import opened Knockouts
  import opened Tournaments

  // ----- the invariant -----

  /** What of a match row never changes: all but its result. */
  datatype Row = Row(round: int, white: int, black: int)

  function RowOf(m: Match): Row { Row(m.round, m.white, m.black) }

  function RowsOf(ms: seq<Match>): (rows: seq<Row>)
    ensures |rows| == |ms|
  {
    seq(|ms|, i requires 0 <= i < |ms| => RowOf(ms[i]))
  }

  function PairRows(ps: seq<Pair>, round: int): (rows: seq<Row>)
    ensures |rows| == |ps|
  {
    seq(|ps|, i requires 0 <= i < |ps| => Row(round, ps[i].white, ps[i].black))
  }

  /** The rows that the consumed events created, event by event. */
  function EventRows(events: seq<Event>): seq<Row>
    decreases |events|
  {
    if events == [] then []
    else EventRows(events[..|events| - 1]) + PairRows(events[|events| - 1].created, events[|events| - 1].round)
  }

  /** One consumed event per round, numbered from 1, each with its own ID. */
  ghost predicate EventsInOrder(events: seq<Event>) {
    && (forall k :: 0 <= k < |events| ==> events[k].round == k + 1)
    && (forall j, k :: 0 <= j < k < |events| ==> events[j].id != events[k].id)
  }

  /** The pairs of round k, counted from 0: in a knockout half as many as in the round before,
      with nobody in two of them; otherwise every participant in exactly one. */
  ghost predicate RoundOk(t: Tournament, k: nat)
    requires k < |t.events|
  {
    var ps := t.events[k].created;
    && (t.participants != [] ==> ps != [])
    && (t.ruleset == Knockout ==>
          && k < t.rounds && |ps| == Power2(t.rounds - 1 - k)
          && DistinctPlayers(ps) && Players(ps) <= multiset(t.participants))
    && (t.ruleset != Knockout ==> IsPerfect(ps, t.participants))
  }

  /** How far the tournament is. A knockout is never finished. */
  ghost predicate Progress(t: Tournament) {
    && |t.events| >= 1
    && (t.ruleset == Knockout ==> t.rounds >= 0 && |t.participants| == Power2(t.rounds) && t.status == InProgress)
    && (t.ruleset != Knockout ==> |t.participants| % 2 == 0)
    && (t.participants == [] ==> |t.events| == 1 && t.status == InProgress)
    && (t.participants != [] && t.status == InProgress ==> |t.events| <= t.rounds)
    && (t.status == Finished ==> |t.events| == t.rounds + 1)
    && (t.status == Finished ==> t.winner in t.participants)
    && (t.status == InProgress ==> t.winner == WINNER_NONE)
  }

  /** No match of a later round without the results of all earlier rounds. */
  ghost predicate PastDone(t: Tournament) {
    forall i :: 0 <= i < |t.matches| && t.matches[i].round < |t.events| ==> t.matches[i].result.Some?
  }

  ghost predicate Started(t: Tournament) { t.status == InProgress || t.status == Finished }

  ghost predicate PlayersFit(t: Tournament) {
    && Distinct(t.participants)
    && (t.ruleset == Knockout ==> 1 <= t.rounds <= MAX_KNOCKOUT_ROUNDS && |t.participants| <= Power2(t.rounds))
  }

  ghost predicate Inv(t: Tournament) {
    && PlayersFit(t)
    && (!Started(t) ==> t.matches == [] && t.events == [] && t.winner == WINNER_NONE)
    && RowsOf(t.matches) == EventRows(t.events)
    && EventsInOrder(t.events)
    && PastDone(t)
    && (forall k :: 0 <= k < |t.events| ==> RoundOk(t, k))
    && (Started(t) ==> Progress(t))
  }

  lemma CreatedInv(ruleset: Ruleset, rounds: int, createdBy: int)
    requires Created(ruleset, rounds, createdBy).Success?
    ensures Inv(Created(ruleset, rounds, createdBy).value)
  {
    hide RoundOk, Power2;
    if ruleset == Knockout { PowerGrows(rounds); }
  }

  lemma PowerGrows(n: nat)
    ensures Power2(n) >= 1
  {
  }

  // ----- reading the matches back -----

  predicate SortedByRound(ms: seq<Match>) {
    forall i, j :: 0 <= i < j < |ms| ==> ms[i].round <= ms[j].round
  }

  lemma InsertedAtEnd(ms: seq<Match>, m: Match)
    requires ms == [] || ms[|ms| - 1].round <= m.round
    ensures InsertByRound(ms, m) == ms + [m]
  {
  }

  lemma SortedFront(ms: seq<Match>)
    requires SortedByRound(ms) && ms != []
    ensures SortedByRound(ms[..|ms| - 1])
    ensures |ms| > 1 ==> ms[|ms| - 2].round <= ms[|ms| - 1].round
  {
  }

  lemma {:induction false} SortedStays(ms: seq<Match>)
    requires SortedByRound(ms)
    ensures ByRound(ms) == ms
    decreases |ms|
  {
    hide SortedByRound, InsertByRound;
    if ms != [] {
      var front := ms[..|ms| - 1];
      SortedFront(ms);
      SortedStays(front);
      InsertedAtEnd(front, ms[|ms| - 1]);
      assert ms == front + [ms[|ms| - 1]];
    }
  }

  lemma EventsPrefix(events: seq<Event>)
    requires EventsInOrder(events) && events != []
    ensures EventsInOrder(events[..|events| - 1]) && events[|events| - 1].round == |events|
  {
  }

  /** Rows come in the order of their rounds. */
  lemma {:induction false} EventRowsSorted(events: seq<Event>)
    requires EventsInOrder(events)
    ensures forall i :: 0 <= i < |EventRows(events)| ==> 1 <= EventRows(events)[i].round <= |events|
    ensures forall i, j :: 0 <= i < j < |EventRows(events)| ==> EventRows(events)[i].round <= EventRows(events)[j].round
    decreases |events|
  {
    hide EventsInOrder;
    if events != [] {
      EventsPrefix(events);
      EventRowsSorted(events[..|events| - 1]);
      ghost var last := PairRows(events[|events| - 1].created, events[|events| - 1].round);
      assert forall i :: 0 <= i < |last| ==> last[i].round == |events|;
    }
  }

  lemma SortedLikeRows(ms: seq<Match>, rows: seq<Row>, n: nat)
    requires RowsOf(ms) == rows
    requires forall i :: 0 <= i < |rows| ==> 1 <= rows[i].round <= n
    requires forall i, j :: 0 <= i < j < |rows| ==> rows[i].round <= rows[j].round
    ensures SortedByRound(ms) && forall i :: 0 <= i < |ms| ==> 1 <= ms[i].round <= n
  {
    forall i | 0 <= i < |ms|
      ensures ms[i].round == rows[i].round
    {
    }
  }

  /** The select's ordering changes nothing: the rows are in that order. */
  lemma MatchesReadBack(t: Tournament)
    requires RowsOf(t.matches) == EventRows(t.events) && EventsInOrder(t.events)
    ensures ByRound(t.matches) == t.matches
    ensures forall i :: 0 <= i < |t.matches| ==> 1 <= t.matches[i].round <= |t.events|
  {
    hide EventRows, EventsInOrder, RowsOf, SortedByRound, ByRound;
    EventRowsSorted(t.events);
    SortedLikeRows(t.matches, EventRows(t.events), |t.events|);
    SortedStays(t.matches);
  }

  /** The rows of the last event follow all others, so the matches fall into the same parts. */
  lemma LastRows(t: Tournament, elos: map<int, real>) returns (before: seq<CompletedMatch>, last: seq<CompletedMatch>)
    requires RowsOf(t.matches) == EventRows(t.events) && EventsInOrder(t.events)
    requires t.events != [] && AllDone(t.matches)
    ensures AllCompleted(t.matches, elos) == before + last
    ensures |before| == |EventRows(t.events[..|t.events| - 1])|
    ensures forall i :: 0 <= i < |before| ==> before[i].round == EventRows(t.events[..|t.events| - 1])[i].round
    ensures |last| == |t.events[|t.events| - 1].created|
    ensures forall i :: 0 <= i < |last| ==>
              && last[i].round == |t.events|
              && Pair(last[i].whiteId, last[i].blackId) == t.events[|t.events| - 1].created[i]
  {
    hide EventsInOrder, AllDone;
    EventsPrefix(t.events);
    var n, ms, rows := |t.events|, AllCompleted(t.matches, elos), RowsOf(t.matches);
    var cut := |EventRows(t.events[..n - 1])|;
    before, last := ms[..cut], ms[cut..];
    forall i | 0 <= i < |ms|
      ensures rows[i] == Row(ms[i].round, ms[i].whiteId, ms[i].blackId)
    {
    }
    forall i | 0 <= i < |last|
      ensures last[i].round == n && Pair(last[i].whiteId, last[i].blackId) == t.events[n - 1].created[i]
    {
      assert rows[cut + i] == PairRows(t.events[n - 1].created, n)[i];
    }
    forall i | 0 <= i < cut
      ensures before[i].round == EventRows(t.events[..n - 1])[i].round
    {
      assert rows[i] == EventRows(t.events[..n - 1])[i];
    }
  }

  /** The previous round that the matchmaking looks up is that of the last event. */
  lemma PrevRoundIsLastEvent(t: Tournament, elos: map<int, real>)
    requires RowsOf(t.matches) == EventRows(t.events) && EventsInOrder(t.events)
    requires t.events != [] && t.events[|t.events| - 1].created != [] && AllDone(t.matches)
    ensures t.matches != [] && LastRound(AllCompleted(t.matches, elos)) == |t.events|
    ensures PairsOf(PrevRound(AllCompleted(t.matches, elos))) == t.events[|t.events| - 1].created
  {
    hide EventsInOrder, AllDone, RoundOf, EventRows, RowsOf, AllCompleted;
    var n := |t.events|;
    EventsPrefix(t.events);
    EventRowsSorted(t.events[..n - 1]);
    var before, last := LastRows(t, elos);
    RoundOfAppend(before, last, n);
    RoundOfNone(before, n);
    RoundOfAll(last, n);
    assert |before + last| == |t.matches|;
    assert PairsOf(last) == t.events[n - 1].created;
  }

  /** The players of a round, by membership. */
  lemma {:induction false} PlayerInRows(events: seq<Event>, i: nat)
    requires i < |EventRows(events)|
    ensures exists k :: 0 <= k < |events| && EventRows(events)[i].white in Players(events[k].created)
                                          && EventRows(events)[i].black in Players(events[k].created)
    decreases |events|
  {
    hide Players;
    var n := |events|;
    var before := events[..n - 1];
    if i < |EventRows(before)| {
      PlayerInRows(before, i);
      var k :| 0 <= k < |before| && EventRows(before)[i].white in Players(before[k].created)
                                 && EventRows(before)[i].black in Players(before[k].created);
      assert events[k] == before[k];
    } else {
      var created := events[n - 1].created;
      var j := i - |EventRows(before)|;
      PairPlayers(created, j);
      assert created[j].white in multiset{created[j].white, created[j].black};
      assert EventRows(events)[i] == PairRows(created, events[n - 1].round)[j];
    }
  }

  // ----- the next round keeps the invariant -----

  lemma {:induction false} DistinctMultiset(ids: seq<int>)
    requires Distinct(ids)
    ensures forall p :: multiset(ids)[p] == if p in ids then 1 else 0
    decreases |ids|
  {
    if ids != [] {
      DistinctMultiset(ids[1..]);
      assert ids == [ids[0]] + ids[1..];
    }
  }

  /** The winners of a round in which nobody plays twice are distinct players of the round. */
  lemma WinnersOfRound(prev: seq<CompletedMatch>, ps: seq<Pair>)
    requires PairsOf(prev) == ps && DistinctPlayers(ps)
    ensures Distinct(WinnersOf(prev)) && |WinnersOf(prev)| == |ps|
    ensures forall w :: w in WinnersOf(prev) ==> w in Players(ps)
  {
    hide DistinctPlayers, Players;
    var ws := WinnersOf(prev);
    forall i | 0 <= i < |ps|
      ensures ws[i] == ps[i].white || ws[i] == ps[i].black
      ensures ws[i] in Players(ps)
    {
      assert PairsOf(prev)[i] == Pair(prev[i].whiteId, prev[i].blackId);
      PairPlayers(ps, i);
      assert ws[i] in multiset{ps[i].white, ps[i].black};
    }
    forall i, j | 0 <= i < j < |ps|
      ensures ws[i] != ws[j]
    {
      DistinctAcross(ps, i, j);
      DistinctAcross(ps, j, i);
    }
  }

  lemma NextKnockoutOk(prev: seq<CompletedMatch>, ps: seq<Pair>, players: seq<int>, next: seq<Pair>)
    requires PairsOf(prev) == ps && DistinctPlayers(ps) && Players(ps) <= multiset(players)
    requires |ps| % 2 == 0 && next == Neighbours(WinnersOf(prev))
    ensures 2 * |next| == |ps|
    ensures DistinctPlayers(next) && Players(next) <= multiset(players)
  {
    hide Players, Neighbours, PairsOf, WinnersOf;
    var ws := WinnersOf(prev);
    WinnersOfRound(prev, ps);
    NeighboursPerfect(ws);
    DistinctMultiset(ws);
    forall p
      ensures Players(next)[p] <= 1 && Players(next)[p] <= multiset(players)[p]
    {
      assert Players(next)[p] == multiset(ws)[p];
      if p in ws {
        assert p in Players(ps);
        assert Players(ps)[p] >= 1;
      }
    }
  }

  lemma {:induction false} RoundOfSubset(ms: seq<CompletedMatch>, round: int)
    ensures forall m :: m in RoundOf(ms, round) ==> m in ms
    decreases |ms|
  {
    if ms != [] {
      RoundOfSubset(ms[..|ms| - 1], round);
      assert ms == ms[..|ms| - 1] + [ms[|ms| - 1]];
    }
  }

  /** When everyone plays in every round, the players of the matches are the participants. */
  lemma SeatsAreParticipants(t: Tournament, elos: map<int, real>)
    requires RowsOf(t.matches) == EventRows(t.events) && EventsInOrder(t.events) && AllDone(t.matches)
    requires t.events != [] && t.events[|t.events| - 1].created != []
    requires forall k :: 0 <= k < |t.events| ==> IsPerfect(t.events[k].created, t.participants)
    ensures forall p :: p in Seats(AllCompleted(t.matches, elos)) <==> p in t.participants
  {
    hide EventsInOrder, AllDone, EventRows, Players, RoundOf;
    var ms := AllCompleted(t.matches, elos);
    forall p | p in Seats(ms)
      ensures p in t.participants
    {
      var m :| m in ms && (m.whiteId == p || m.blackId == p);
      var i :| 0 <= i < |ms| && ms[i] == m;
      assert RowsOf(t.matches)[i] == Row(m.round, m.whiteId, m.blackId);
      PlayerInRows(t.events, i);
      var k :| 0 <= k < |t.events| && EventRows(t.events)[i].white in Players(t.events[k].created)
                                   && EventRows(t.events)[i].black in Players(t.events[k].created);
      assert IsPerfect(t.events[k].created, t.participants);
      assert p in multiset(t.participants);
    }
    forall p | p in t.participants
      ensures p in Seats(ms)
    {
      var created := t.events[|t.events| - 1].created;
      assert IsPerfect(created, t.participants);
      assert p in Players(created);
      var i := FindPlayer(created, p);
      PrevRoundIsLastEvent(t, elos);
      var prev := PrevRound(ms);
      RoundOfSubset(ms, LastRound(ms));
      assert PairsOf(prev)[i] == Pair(prev[i].whiteId, prev[i].blackId);
      assert prev[i] in ms;
    }
  }

  lemma NextSwissOk(ms: seq<CompletedMatch>, players: seq<int>, next: seq<Pair>)
    requires Distinct(players) && |players| % 2 == 0 && ms != []
    requires forall p :: p in Seats(ms) <==> p in players
    requires IsNextRound(Swiss, ms, next)
    ensures IsPerfect(next, players)
  {
    hide Seats, SwissScore, Neighbours, Players, Rank;
    DistinctMultiset(players);
    assert multiset(players) == multiset(Seats(ms)) by {
      assert forall p :: multiset(players)[p] == multiset(Seats(ms))[p];
    }
    NeighboursPerfect(Rank(players, SwissScore(ms)));
  }

  /** In a knockout of n rounds, r of them drawn up, there are 2^n - 2^(n-r) matches. */
  lemma {:induction false} KnockoutRows(t: Tournament, r: nat)
    requires t.ruleset == Knockout && t.rounds >= 1 && r <= |t.events| && r <= t.rounds
    requires forall k :: 0 <= k < |t.events| ==> RoundOk(t, k)
    ensures |EventRows(t.events[..r])| == Power2(t.rounds) - Power2(t.rounds - r)
    decreases r
  {
    hide DistinctPlayers, Power2, Players;
    if r > 0 {
      KnockoutRows(t, r - 1);
      assert t.events[..r][..r - 1] == t.events[..r - 1];
      assert RoundOk(t, r - 1);
      PowerIsEven(t.rounds - r + 1);
    }
  }

  /** A knockout is refused its closing step, and no other one. */
  lemma KnockoutNeverCloses(t: Tournament)
    requires Inv(t) && t.ruleset == Knockout && t.status == InProgress
    ensures |t.events| <= t.rounds
    ensures |t.matches| == Power2(t.rounds) - Power2(t.rounds - |t.events|)
    ensures |t.matches| % 2 != 0 <==> |t.events| == t.rounds
  {
    hide RowsOf, EventRows, EventsInOrder, PastDone, Power2, Distinct;
    var r := |t.events|;
    assert RoundOk(t, r - 1);
    KnockoutRows(t, r);
    assert t.events[..r] == t.events;
    PowerIsEven(t.rounds);
    if r < t.rounds { PowerIsEven(t.rounds - r); } else { PowerOfNone(t.rounds - r); }
  }

  /** The round that the matchmaking adds fits the tournament. */
  lemma NextRoundOk(t: Tournament, elos: map<int, real>, next: seq<Pair>)
    requires Inv(t) && t.status == InProgress && AllDone(t.matches) && t.participants != []
    requires t.matches != [] && IsNextRound(t.ruleset, AllCompleted(t.matches, elos), next)
    requires t.ruleset == Knockout ==> |t.events| < t.rounds
    ensures next != []
    ensures t.ruleset == Knockout ==>
              && |next| == Power2(t.rounds - 1 - |t.events|)
              && DistinctPlayers(next) && Players(next) <= multiset(t.participants)
    ensures t.ruleset != Knockout ==> IsPerfect(next, t.participants)
  {
    hide EventRows, EventsInOrder, PastDone, Power2, Players, DistinctPlayers, AllDone, AllCompleted;
    hide PrevRound, Neighbours, Rotated, RowsOf, SwissScore, Seats, Rank, PlayersFit;
    var r, ms := |t.events|, AllCompleted(t.matches, elos);
    var created := t.events[r - 1].created;
    assert RoundOk(t, r - 1);
    PrevRoundIsLastEvent(t, elos);
    match t.ruleset {
      case Knockout =>
        PowerIsEven(t.rounds - r);
        NextKnockoutOk(PrevRound(ms), created, t.participants, next);
      case RoundRobin =>
        RotatedPlayers(created);
        PerfectIsSome(next, t.participants);
      case Swiss =>
        FitsAreDistinct(t);
        AllPerfect(t);
        SeatsAreParticipants(t, elos);
        NextSwissOk(ms, t.participants, next);
        PerfectIsSome(next, t.participants);
    }
  }

  lemma FitsAreDistinct(t: Tournament)
    requires PlayersFit(t)
    ensures Distinct(t.participants)
  {
  }

  lemma AllPerfect(t: Tournament)
    requires t.ruleset != Knockout && forall k :: 0 <= k < |t.events| ==> RoundOk(t, k)
    ensures forall k :: 0 <= k < |t.events| ==> IsPerfect(t.events[k].created, t.participants)
  {
    hide IsPerfect;
    forall k | 0 <= k < |t.events|
      ensures IsPerfect(t.events[k].created, t.participants)
    {
      assert RoundOk(t, k);
    }
  }

  lemma PerfectIsSome(ps: seq<Pair>, players: seq<int>)
    requires IsPerfect(ps, players) && players != []
    ensures ps != []
  {
    assert players[0] in multiset(players);
  }

  // ----- every step keeps the invariant -----

  lemma JoinKeepsInv(t: Tournament, user: int)
    requires Inv(t)
    ensures Inv(Joined(t, user))
  {
    hide RoundOk, Power2;
    var after := Joined(t, user);
    if t.status == Lobby {
      assert after.matches == t.matches && after.events == t.events;
      assert !Started(after);
    }
  }

  lemma LeaveKeepsInv(t: Tournament, user: int)
    requires Inv(t)
    ensures Inv(Left(t, user))
  {
    hide RoundOk, Power2, Removed;
    RemovedKeepsDistinct(t.participants, user);
    RemovedCount(t.participants, user);
    assert !Started(t) ==> !Started(Left(t, user));
  }

  lemma CountdownKeepsInv(t: Tournament, user: int)
    requires Inv(t)
    ensures Inv(CountdownBegun(t, user))
  {
    hide RoundOk, Power2;
    assert !Started(t) ==> !Started(CountdownBegun(t, user));
  }

  lemma RecordKeepsInv(t: Tournament, i: nat, result: ReplayResult)
    requires Inv(t)
    ensures Inv(Recorded(t, i, result))
  {
    hide Power2, EventRows, PlayersFit, EventsInOrder;
    var after := Recorded(t, i, result);
    assert RowsOf(after.matches) == RowsOf(t.matches);
    forall k | 0 <= k < |after.events|
      ensures RoundOk(after, k)
    {
      assert RoundOk(t, k);
    }
    assert PlayersFit(t) ==> PlayersFit(after) by { SameFit(t, after); }
  }

  lemma SameFit(t: Tournament, after: Tournament)
    requires t.participants == after.participants && t.ruleset == after.ruleset && t.rounds == after.rounds
    ensures PlayersFit(t) <==> PlayersFit(after)
  {
  }

  lemma InsertedRows(t: Tournament, event: int, m: Matchmaking)
    requires RowsOf(t.matches) == EventRows(t.events)
    ensures RowsOf(Inserted(t, event, m).matches) == EventRows(Inserted(t, event, m).events)
  {
    var after := Inserted(t, event, m);
    assert after.events[..|after.events| - 1] == t.events;
    assert RowsOf(NewRows(m.next, m.round)) == PairRows(m.next, m.round);
    assert RowsOf(after.matches) == RowsOf(t.matches) + RowsOf(NewRows(m.next, m.round));
  }

  lemma InsertedInOrder(t: Tournament, event: int, m: Matchmaking)
    requires EventsInOrder(t.events) && !HasEvent(t.events, event) && m.round == |t.events| + 1
    ensures EventsInOrder(Inserted(t, event, m).events)
  {
    var after := Inserted(t, event, m).events;
    forall j, k | 0 <= j < k < |after|
      ensures after[j].id != after[k].id
    {
      if k == |t.events| { assert t.events[j].id != event; }
    }
  }

  /** All rounds before the new one are done. */
  lemma InsertedPastDone(t: Tournament, event: int, m: Matchmaking)
    requires AllDone(t.matches) && m.round == |t.events| + 1
    ensures PastDone(Inserted(t, event, m))
  {
  }

  lemma InsertedRoundsOk(t: Tournament, event: int, m: Matchmaking)
    requires forall k :: 0 <= k < |t.events| ==> RoundOk(t, k)
    requires t.participants != [] ==> m.next != []
    requires t.events == [] || m.totalRounds == t.rounds
    requires t.ruleset == Knockout ==>
               && |t.events| < m.totalRounds && |m.next| == Power2(m.totalRounds - 1 - |t.events|)
               && DistinctPlayers(m.next) && Players(m.next) <= multiset(t.participants)
    requires t.ruleset != Knockout ==> IsPerfect(m.next, t.participants)
    ensures forall k :: 0 <= k <= |t.events| ==> RoundOk(Inserted(t, event, m), k)
  {
    hide DistinctPlayers, Players, Power2, IsPerfect;
    var after := Inserted(t, event, m);
    forall k | 0 <= k <= |t.events|
      ensures RoundOk(after, k)
    {
      if k < |t.events| {
        assert RoundOk(t, k);
        assert after.events[k] == t.events[k];
      }
    }
  }

  lemma PerfectIsDistinct(ps: seq<Pair>, players: seq<int>)
    requires IsPerfect(ps, players) && Distinct(players)
    ensures DistinctPlayers(ps) && Players(ps) <= multiset(players)
  {
    hide Players;
    DistinctMultiset(players);
  }

  lemma FirstRoundsCount(n: nat)
    requires n >= 2
    ensures RoundRobinRounds(n) >= 1 && FloorLog2(n) >= 1
  {
    assert n * (n - 1) >= n by { assert (n - 1) >= 1; }
  }

  lemma FirstAdvanceKeepsInv(t: Tournament, event: int, elos: map<int, real>, m: Matchmaking)
    requires Inv(t) && t.status == Scheduled
    requires FirstOutcome(t.ruleset, Entrants(t.participants, elos), t.rounds, Made(m))
    ensures Inv(Inserted(t, event, m))
  {
    hide RowsOf, EventRows, EventsInOrder, PastDone, Power2, Players, Distinct, DistinctPlayers, Neighbours, CrissCross, Rank;
    hide FloorLog2, RoundRobinRounds, RoundOk, AllDone, IsPerfect;
    var entrants, after := Entrants(t.participants, elos), Inserted(t, event, m);
    assert |entrants| == |t.participants|;
    assert IsFirstRound(t.ruleset, entrants, t.rounds, m);
    NoRows(t);
    InsertedRows(t, event, m);
    InsertedInOrder(t, event, m);
    InsertedPastDone(t, event, m);
    PerfectIsDistinct(m.next, t.participants);
    if t.participants != [] {
      PerfectIsSome(m.next, t.participants);
      if t.ruleset != Knockout { FirstRoundsCount(|t.participants|); }
    }
    InsertedRoundsOk(t, event, m);
    assert |after.events| == 1;
  }

  lemma NoRows(t: Tournament)
    requires t.matches == [] && t.events == []
    ensures AllDone(t.matches) && EventsInOrder(t.events) && RowsOf(t.matches) == EventRows(t.events)
    ensures forall event :: !HasEvent(t.events, event)
  {
  }

  /** The winner of a tournament is one of its participants. */
  lemma ChampionTookPart(ms: seq<CompletedMatch>, ruleset: Ruleset, id: int, tiebreaker: TieBreaker)
    requires ruleset != Knockout && ms != [] && IsChampion(ruleset, ms, id, tiebreaker)
    ensures id in Seats(ms)
  {
    hide Score, AllCredits;
    if ruleset == RoundRobin {
      CreditsOf(ms, WinCredits);
      var c :| c in AllCredits(ms, WinCredits) && c.user == id;
      var m :| m in ms && c in WinCredits(m);
    } else {
      SwissUsersAreSeated(ms);
    }
  }

  lemma NextAdvanceKeepsInv(t: Tournament, event: int, elos: map<int, real>, m: Matchmaking)
    requires Inv(t) && t.status == InProgress && AllDone(t.matches) && !HasEvent(t.events, event)
    requires NextOutcome(t.ruleset, AllCompleted(t.matches, elos), t.rounds, Made(m))
    ensures Inv(Inserted(t, event, m))
  {
    hide RowsOf, EventRows, EventsInOrder, PastDone, Power2, Players, Distinct, DistinctPlayers, HasEvent;
    hide RoundOk, AllDone, IsPerfect, IsNextRound, IsChampion, AllCompleted, LastRound, NonNegativeElos, NoChampion;
    var ms, after := AllCompleted(t.matches, elos), Inserted(t, event, m);
    SomeMatches(t);
    assert IsNextMatchmaking(t.ruleset, ms, t.rounds, m);
    HasCreated(t);
    PrevRoundIsLastEvent(t, elos);
    if t.ruleset == Knockout { KnockoutNeverCloses(t); }
    NextRoundOk(t, elos, m.next);
    InsertedRows(t, event, m);
    InsertedInOrder(t, event, m);
    InsertedPastDone(t, event, m);
    InsertedRoundsOk(t, event, m);
    if m.status == Finished {
      AllPerfect(t);
      SeatsAreParticipants(t, elos);
      ChampionTookPart(ms, t.ruleset, m.winnerId, m.tiebreaker);
    }
  }

  lemma HasCreated(t: Tournament)
    requires Inv(t) && Started(t) && t.participants != []
    ensures t.events[|t.events| - 1].created != []
  {
    hide EventRows, EventsInOrder, PastDone;
    assert RoundOk(t, |t.events| - 1);
  }

  /** A tournament with matches has participants. */
  lemma SomeMatches(t: Tournament)
    requires Inv(t) && t.matches != []
    ensures t.participants != []
  {
    hide EventsInOrder, PastDone, Players, Progress;
    PlayerInRowsOf(t);
  }

  lemma PlayerInRowsOf(t: Tournament)
    requires RowsOf(t.matches) == EventRows(t.events) && t.matches != []
    requires forall k :: 0 <= k < |t.events| ==> RoundOk(t, k)
    ensures t.participants != []
  {
    hide Players;
    PlayerInRows(t.events, 0);
    var k :| 0 <= k < |t.events| && EventRows(t.events)[0].white in Players(t.events[k].created);
    assert RoundOk(t, k);
    assert EventRows(t.events)[0].white in multiset(t.participants);
  }

  lemma AdvanceKeepsInv(t: Tournament, event: int, elos: map<int, real>, after: Tournament,
                        r: Result<seq<Pair>, TournamentError>)
    requires Inv(t) && Advances(t, event, elos, after, r)
    ensures Inv(after)
  {
    hide Inv, FirstOutcome, NextOutcome, AllDone, ByRound, HasEvent, StoredMatches, AllCompleted;
    if after != t {
      var o :| Matchmakes(t, elos, o) && ComesTo(t, event, o, after, r);
      if t.status == Scheduled {
        FirstAdvanceKeepsInv(t, event, elos, o.value);
      } else {
        InvReadsBack(t);
        NextAdvanceKeepsInv(t, event, elos, o.value);
      }
    }
  }

  lemma InvReadsBack(t: Tournament)
    requires Inv(t)
    ensures ByRound(t.matches) == t.matches
  {
    hide RoundOk, PlayersFit, PastDone, Progress, RowsOf, EventRows;
    MatchesReadBack(t);
  }

  lemma StepKeepsInv(t: Tournament, a: Action, after: Tournament)
    requires Inv(t)
    requires t.ruleset == Knockout ==> t.rounds >= 0
    requires Step(t, a, after)
    ensures Inv(after)
  {
    hide Inv, Advances, Joined, Left, CountdownBegun, Recorded;
    match a {
      case Join(user) => JoinKeepsInv(t, user);
      case Leave(user) => LeaveKeepsInv(t, user);
      case BeginCountdown(user) => CountdownKeepsInv(t, user);
      case RecordResult(i, result) => RecordKeepsInv(t, i, result);
      case Advance(event, elos) =>
        var r :| Advances(t, event, elos, after, r);
        AdvanceKeepsInv(t, event, elos, after, r);
    }
  }

  // ----- the winner -----

  /** The state before the step is one whose rounds are all played, and the winner the step
      stores is their champion for the Elos it reads. */
  ghost predicate Crowns(t: Tournament, elos: map<int, real>, winner: int, tiebreaker: TieBreaker) {
    && t.status == InProgress && |t.events| == t.rounds
    && t.matches != [] && AllDone(t.matches)
    && IsChampion(t.ruleset, AllCompleted(t.matches, elos), winner, tiebreaker)
  }

  lemma InsertedWinner(t: Tournament, event: int, m: Matchmaking)
    requires t.winner == WINNER_NONE
    ensures Inserted(t, event, m).winner == m.winnerId && Inserted(t, event, m).status == m.status
  {
  }

  lemma FinishingAdvance(t: Tournament, event: int, elos: map<int, real>, m: Matchmaking)
    requires Inv(t) && t.status == InProgress && AllDone(t.matches) && m.status == Finished
    requires NextOutcome(t.ruleset, AllCompleted(t.matches, elos), t.rounds, Made(m))
    ensures Crowns(t, elos, Inserted(t, event, m).winner, m.tiebreaker)
  {
    hide RowsOf, EventRows, EventsInOrder, PastDone, Power2, AllDone, IsChampion, AllCompleted, LastRound;
    hide PlayersFit, RoundOk, NonNegativeElos, NoChampion, IsNextRound;
    SomeMatches(t);
    HasCreated(t);
    PrevRoundIsLastEvent(t, elos);
    assert IsNextMatchmaking(t.ruleset, AllCompleted(t.matches, elos), t.rounds, m);
    InsertedWinner(t, event, m);
  }

  /** Only an advance finishes a tournament. */
  lemma FinishingStep(t: Tournament, a: Action, after: Tournament) returns (tiebreaker: TieBreaker)
    requires Inv(t) && (t.ruleset == Knockout ==> t.rounds >= 0)
    requires Step(t, a, after) && t.status != Finished && after.status == Finished
    ensures a.Advance? && Crowns(t, a.elos, after.winner, tiebreaker)
  {
    hide Inv, FirstOutcome, NextOutcome, AllDone, ByRound, HasEvent, StoredMatches, AllCompleted, Removed, Power2, Crowns;
    var r :| Advances(t, a.event, a.elos, after, r);
    var o :| Matchmakes(t, a.elos, o) && ComesTo(t, a.event, o, after, r);
    if t.status == Scheduled {
      FirstIsNotLast(t.ruleset, Entrants(t.participants, a.elos), t.rounds, o);
      assert false;
    } else {
      InvReadsBack(t);
      FinishingAdvance(t, a.event, a.elos, o.value);
      tiebreaker := o.value.tiebreaker;
    }
  }

  lemma FirstIsNotLast(ruleset: Ruleset, entrants: seq<Participant>, rounds: int, o: Outcome<Matchmaking>)
    requires FirstOutcome(ruleset, entrants, rounds, o) && o.Made?
    ensures o.value.status == InProgress
  {
  }

  // ----- what later states keep -----

  function Stage(s: TournamentStatus): nat {
    match s
    case Lobby => 0
    case Scheduled => 1
    case InProgress => 2
    case Finished => 3
  }

  /** Matches stay, in their rounds, with any result they have; more may follow. */
  ghost predicate MatchesKept(ms: seq<Match>, later: seq<Match>) {
    && |ms| <= |later|
    && forall i :: 0 <= i < |ms| ==> MatchKept(ms[i], later[i])
  }

  ghost predicate MatchKept(m: Match, later: Match) {
    RowOf(later) == RowOf(m) && (m.result.Some? ==> later.result == m.result)
  }

  ghost predicate Follows(t: Tournament, later: Tournament) {
    && later.ruleset == t.ruleset && later.createdBy == t.createdBy
    && Stage(t.status) <= Stage(later.status)
    && MatchesKept(t.matches, later.matches)
    && t.events <= later.events
    && (t.status != Lobby ==> later.participants == t.participants)
    && (Started(t) ==> later.rounds == t.rounds)
    && (t.status == Finished ==> later.winner == t.winner && later.events == t.events)
  }

  lemma FollowsItself(t: Tournament)
    ensures Follows(t, t)
  {
  }

  lemma KeptTransitive(a: seq<Match>, b: seq<Match>, c: seq<Match>)
    requires MatchesKept(a, b) && MatchesKept(b, c)
    ensures MatchesKept(a, c)
  {
    forall i | 0 <= i < |a|
      ensures MatchKept(a[i], c[i])
    {
      assert MatchKept(a[i], b[i]) && MatchKept(b[i], c[i]);
    }
  }

  lemma FollowsTransitive(a: Tournament, b: Tournament, c: Tournament)
    requires Follows(a, b) && Follows(b, c)
    ensures Follows(a, c)
  {
    hide MatchesKept;
    KeptTransitive(a.matches, b.matches, c.matches);
  }

  lemma AdvanceFollows(t: Tournament, event: int, elos: map<int, real>, after: Tournament,
                       r: Result<seq<Pair>, TournamentError>)
    requires Inv(t) && Advances(t, event, elos, after, r)
    ensures Follows(t, after)
  {
    hide Inv, AllDone, ByRound, HasEvent, StoredMatches, AllCompleted, StartError, NextError, IsPerfect, IsNextRound, IsChampion;
    if after != t {
      var o :| Matchmakes(t, elos, o) && ComesTo(t, event, o, after, r);
      assert MatchesKept(t.matches, after.matches);
    }
  }

  lemma StepFollows(t: Tournament, a: Action, after: Tournament)
    requires Inv(t)
    requires t.ruleset == Knockout ==> t.rounds >= 0
    requires Step(t, a, after)
    ensures Follows(t, after)
  {
    hide Inv, Advances, Power2, Removed;
    match a {
      case Advance(event, elos) =>
        var r :| Advances(t, event, elos, after, r);
        AdvanceFollows(t, event, elos, after, r);
      case _ =>
        assert MatchesKept(t.matches, after.matches);
    }
  }

  // ----- all runs -----

  ghost predicate IsStep(t: Tournament, after: Tournament) {
    exists a :: (t.ruleset == Knockout ==> t.rounds >= 0) && Step(t, a, after)
  }

  /** The states of a run, from a tournament just created. */
  ghost predicate IsTournamentRun(states: seq<Tournament>) {
    && states != []
    && (exists ruleset, rounds, createdBy :: Created(ruleset, rounds, createdBy) == Success(states[0]))
    && forall i :: 0 <= i < |states| - 1 ==> IsStep(states[i], states[i + 1])
  }

  /** Every state of every run satisfies the invariant. */
  lemma {:induction false} EveryRunKeepsInv(states: seq<Tournament>, i: nat)
    requires IsTournamentRun(states) && i < |states|
    ensures Inv(states[i])
    decreases i
  {
    hide Inv, Step;
    if i == 0 {
      var ruleset, rounds, createdBy :| Created(ruleset, rounds, createdBy) == Success(states[0]);
      CreatedInv(ruleset, rounds, createdBy);
    } else {
      EveryRunKeepsInv(states, i - 1);
      assert IsStep(states[i - 1], states[i]);
      var a :| Step(states[i - 1], a, states[i]);
      StepKeepsInv(states[i - 1], a, states[i]);
    }
  }

  /** The status only moves forward, and nothing recorded is lost or changed. */
  lemma {:induction false} LaterStatesFollow(states: seq<Tournament>, i: nat, j: nat)
    requires IsTournamentRun(states) && i <= j < |states|
    ensures Follows(states[i], states[j])
    decreases j
  {
    hide Inv, Step, Follows;
    if i == j {
      FollowsItself(states[i]);
    } else {
      LaterStatesFollow(states, i, j - 1);
      EveryRunKeepsInv(states, j - 1);
      assert IsStep(states[j - 1], states[j]);
      var a :| Step(states[j - 1], a, states[j]);
      StepFollows(states[j - 1], a, states[j]);
      FollowsTransitive(states[i], states[j - 1], states[j]);
    }
  }

  /** The winner of a finished tournament is the champion of its rounds, by the results they had
      and the Elos that were read at the one step that finished it. */
  lemma {:induction false} WinnerIsChampion(states: seq<Tournament>, i: nat) returns (k: nat, elos: map<int, real>, tiebreaker: TieBreaker)
    requires IsTournamentRun(states) && i < |states| && states[i].status == Finished
    ensures k < i && states[k + 1].status == Finished && Crowns(states[k], elos, states[i].winner, tiebreaker)
    decreases i
  {
    hide Inv, Step, Follows, Crowns;
    NewIsNotFinished(states, i);
    EveryRunKeepsInv(states, i - 1);
    assert IsStep(states[i - 1], states[i]);
    var a :| (states[i - 1].ruleset == Knockout ==> states[i - 1].rounds >= 0) && Step(states[i - 1], a, states[i]);
    if states[i - 1].status == Finished {
      k, elos, tiebreaker := WinnerIsChampion(states, i - 1);
      StepFollows(states[i - 1], a, states[i]);
      WinnerStays(states[i - 1], states[i]);
    } else {
      tiebreaker := FinishingStep(states[i - 1], a, states[i]);
      k, elos := i - 1, a.elos;
    }
  }

  lemma NewIsNotFinished(states: seq<Tournament>, i: nat)
    requires IsTournamentRun(states) && i < |states| && states[i].status == Finished
    ensures i > 0
  {
  }

  lemma WinnerStays(t: Tournament, later: Tournament)
    requires Follows(t, later) && t.status == Finished
    ensures later.winner == t.winner
  {
  }

  /** A step out of the lobby is the countdown, begun by the creator. */
  lemma LeavesLobby(t: Tournament, a: Action, after: Tournament)
    requires (t.ruleset == Knockout ==> t.rounds >= 0) && Step(t, a, after) && t.status == Lobby && after.status != Lobby
    ensures a == BeginCountdown(t.createdBy) && after == t.(status := Scheduled)
  {
    hide Power2, Removed, AllDone, ByRound, HasEvent, StoredMatches, Matchmakes;
  }

  /** In every run that has left the lobby, its creator began the countdown, at one step: until
      then nobody else could, and nothing was matched. */
  lemma {:induction false} OnlyCreatorLeavesLobby(states: seq<Tournament>, i: nat) returns (k: nat)
    requires IsTournamentRun(states) && i < |states| && states[i].status != Lobby
    ensures k < i && states[k].status == Lobby && states[k].createdBy == states[i].createdBy
    ensures states[k].ruleset == Knockout ==> states[k].rounds >= 0
    ensures Step(states[k], BeginCountdown(states[i].createdBy), states[k + 1]) && states[k + 1].status == Scheduled
    decreases i
  {
    hide Inv, Step, Follows;
    NewIsInLobby(states, i);
    assert IsStep(states[i - 1], states[i]);
    var a :| (states[i - 1].ruleset == Knockout ==> states[i - 1].rounds >= 0) && Step(states[i - 1], a, states[i]);
    if states[i - 1].status == Lobby {
      LeavesLobby(states[i - 1], a, states[i]);
      k := i - 1;
    } else {
      k := OnlyCreatorLeavesLobby(states, i - 1);
    }
    LaterStatesFollow(states, k, i);
    SameCreator(states[k], states[i]);
  }

  lemma NewIsInLobby(states: seq<Tournament>, i: nat)
    requires IsTournamentRun(states) && i < |states| && states[i].status != Lobby
    ensures i > 0
  {
  }

  lemma SameCreator(t: Tournament, later: Tournament)
    requires Follows(t, later)
    ensures later.createdBy == t.createdBy
  {
  }

  lemma {:induction false} StoredIsCreated(events: seq<Event>, k: nat)
    requires EventsInOrder(events) && k < |events|
    ensures HasEvent(events, events[k].id)
    ensures StoredMatches(events, events[k].id) == events[k].created
    decreases |events|
  {
    hide EventsInOrder;
    assert HasEvent(events, events[k].id);
    if k < |events| - 1 {
      DistinctIds(events, k, |events| - 1);
      EventsPrefix(events);
      StoredIsCreated(events[..|events| - 1], k);
    }
  }

  lemma DistinctIds(events: seq<Event>, j: nat, k: nat)
    requires EventsInOrder(events) && j < k < |events|
    ensures events[j].id != events[k].id
  {
  }

  /** An event delivered again, at any later time, returns the matches it created and changes
      nothing. */
  lemma RedeliveryChangesNothing(states: seq<Tournament>, i: nat, j: nat, k: nat, elos: map<int, real>,
                                 after: Tournament, r: Result<seq<Pair>, TournamentError>)
    requires IsTournamentRun(states) && i <= j < |states| && k < |states[i].events|
    requires Advances(states[j], states[i].events[k].id, elos, after, r)
    ensures after == states[j] && r == Success(states[i].events[k].created)
  {
    hide Matchmakes, ByRound, AllDone, HasEvent, StoredMatches, RowsOf, EventRows, RoundOk, Progress, EventsInOrder;
    LaterStatesFollow(states, i, j);
    EveryRunKeepsInv(states, j);
    assert states[j].events[k] == states[i].events[k];
    StoredIsCreated(states[j].events, k);
  }

  /** No knockout is ever finished: in every run, the advance after its last round is refused. */
  lemma KnockoutIsNeverFinished(states: seq<Tournament>, i: nat)
    requires IsTournamentRun(states) && i < |states| && states[i].ruleset == Knockout
    ensures states[i].status != Finished && states[i].winner == WINNER_NONE
    ensures |states[i].events| <= states[i].rounds && |states[i].participants| <= Power2(states[i].rounds)
  {
    hide RowsOf, EventRows, EventsInOrder, PastDone, RoundOk, Power2;
    EveryRunKeepsInv(states, i);
  }

  /** With all results in, the knockout's advance is refused just at the end. */
  lemma KnockoutAdvanceRefused(t: Tournament, event: int, elos: map<int, real>, after: Tournament,
                               r: Result<seq<Pair>, TournamentError>)
    requires Inv(t) && t.ruleset == Knockout && t.status == InProgress && AllDone(t.matches)
    requires !HasEvent(t.events, event) && Advances(t, event, elos, after, r)
    ensures |t.events| == t.rounds ==> after == t && r == Failure(Unmatched(MatchParity(Power2(t.rounds) - 1)))
    ensures r.Failure? && r.error.Unmatched? ==> |t.events| == t.rounds
  {
    hide Inv, RowsOf, EventRows, Power2, HasEvent, ByRound, AllDone, IsNextMatchmaking, NonNegativeElos, NoChampion, StoredMatches;
    InvReadsBack(t);
    KnockoutNeverCloses(t);
    PowerOfNone(0);
    HasRows(t);
    var o :| Matchmakes(t, elos, o) && ComesTo(t, event, o, after, r);
  }

  lemma HasRows(t: Tournament)
    requires Inv(t) && t.ruleset == Knockout && t.status == InProgress
    ensures t.matches != []
  {
    hide EventsInOrder, PastDone, Power2;
    assert RoundOk(t, |t.events| - 1);
    assert |t.participants| >= 1;
  }
}
