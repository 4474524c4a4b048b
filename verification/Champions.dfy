/** What the winner of a tournament is, and who meets whom with which colour, in terms of the
    results and the ratings. */
module Champions {
  import opened Matcher
  import opened Pairing
  import opened Ranking
  import opened Results
  import opened Scoring
  import opened Winners

  // ----- the winner -----

  /** The winner of a round-robin tournament has won the most matches; of those with as many,
      if there are others, none made more points weighted by the opponents' Elos. */
  lemma RoundRobinChampion(ms: seq<CompletedMatch>, id: int, tiebreaker: TieBreaker)
    requires ms != [] && IsChampion(RoundRobin, ms, id, tiebreaker)
    ensures WinsOf(ms, id) > 0 && forall v :: WinsOf(ms, v) <= WinsOf(ms, id)
    ensures tiebreaker == NoTiebreaker ==> forall v :: v != id ==> WinsOf(ms, v) < WinsOf(ms, id)
    ensures tiebreaker != NoTiebreaker ==>
              && tiebreaker == BySonnebornBerger
              && forall v :: WinsOf(ms, v) == WinsOf(ms, id) ==> WeightedPoints(ms, v) <= WeightedPoints(ms, id)
  {
    hide AllCredits, Score, Users, WinsOf, TotalPoints, WeightedPoints;
    forall v
      ensures Score(AllCredits(ms, WinCredits), v) == WinsOf(ms, v) as real
      ensures v in Users(AllCredits(ms, WinCredits)) <==> WinsOf(ms, v) > 0
      ensures Score(AllCredits(ms, SonnebornCredits), v) == WeightedPoints(ms, v)
      ensures WinsOf(ms, v) > 0 ==> v in Users(AllCredits(ms, SonnebornCredits))
    {
      WinCountIsWins(ms, v);
      SonnebornIsWeighted(ms, v);
      WinsGivePoints(ms, v);
      CreditedHavePoints(ms, v);
    }
  }

  /** The winner of a Swiss tournament has made the most points of all players, ties broken the
      same way. */
  lemma SwissChampion(ms: seq<CompletedMatch>, id: int, tiebreaker: TieBreaker)
    requires ms != [] && IsChampion(Swiss, ms, id, tiebreaker)
    ensures id in Seats(ms) && forall v :: v in Seats(ms) ==> TotalPoints(ms, v) <= TotalPoints(ms, id)
    ensures tiebreaker == NoTiebreaker ==> forall v :: v in Seats(ms) && v != id ==> TotalPoints(ms, v) < TotalPoints(ms, id)
    ensures tiebreaker != NoTiebreaker ==>
              && tiebreaker == BySonnebornBerger
              && forall v :: v in Seats(ms) && TotalPoints(ms, v) == TotalPoints(ms, id) ==>
                   WeightedPoints(ms, v) <= WeightedPoints(ms, id)
  {
    hide AllCredits, Score, Users, Seats, TotalPoints, WeightedPoints;
    var sb := AllCredits(ms, SonnebornCredits);
    SwissUsersAreSeated(ms);
    forall v
      ensures Score(AllCredits(ms, SwissCredits), v) == TotalPoints(ms, v)
      ensures Score(sb, v) == WeightedPoints(ms, v)
      ensures v in Users(sb) <==> TotalPoints(ms, v) > 0.0
      ensures v !in Users(sb) ==> TotalPoints(ms, v) == 0.0 && WeightedPoints(ms, v) == 0.0
    {
      SwissIsPoints(ms, v);
      SonnebornIsWeighted(ms, v);
      CreditedHavePoints(ms, v);
      PointsNotNegative(ms, v);
      if v !in Users(sb) { NotCredited(sb, v); }
    }
  }

  // ----- the pairs -----

  /** The first is ranked before the second: the greater score, and among equals the smaller ID. */
  predicate IsBetter(a: int, b: int, key: int -> real) { key(a) > key(b) || (key(a) == key(b) && a <= b) }

  /** The ranking is from best to worst. */
  lemma RankedBestFirst(ids: seq<int>, key: int -> real, i: nat, j: nat)
    requires i < j < |ids|
    ensures IsBetter(Rank(ids, key)[i], Rank(ids, key)[j], key)
  {
    hide Rank;
  }

  /** In the first round of a Swiss tournament the i-th best has white against the i-th worst. */
  lemma FirstSwissRound(participants: seq<Participant>, totalRounds: int, m: Matchmaking, i: nat)
    requires IsFirstRound(Swiss, participants, totalRounds, m) && i < |m.next|
    ensures var elo, ranked := EloOf(participants), Rank(Ids(participants), EloOf(participants));
            && i < |ranked| - 1 - i
            && m.next[i] == Pair(ranked[i], ranked[|ranked| - 1 - i])
            && IsBetter(m.next[i].white, m.next[i].black, elo)
  {
    hide Rank, CrissCross, IsPerfect;
    var ids, elo := Ids(participants), EloOf(participants);
    CrissCrossCount(Rank(ids, elo));
    CrissCrossAt(Rank(ids, elo), i);
    RankedBestFirst(ids, elo, i, |ids| - 1 - i);
  }

  /** In the later rounds neighbours in the ranking by points meet, the better one with white. */
  lemma NextSwissRound(ms: seq<CompletedMatch>, players: seq<int>, next: seq<Pair>, i: nat)
    requires ms != [] && IsNextRound(Swiss, ms, next) && multiset(players) == multiset(Seats(ms)) && i < |next|
    ensures var ranked := Rank(players, (u: int) => TotalPoints(ms, u));
            && 2 * i + 1 < |ranked|
            && next[i] == Pair(ranked[2 * i], ranked[2 * i + 1])
            && IsBetter(next[i].white, next[i].black, (u: int) => TotalPoints(ms, u))
  {
    hide Rank, Neighbours, Seats, Ranked;
    var points := (u: int) => TotalPoints(ms, u);
    forall u
      ensures SwissScore(ms)(u) == points(u)
    {
      SwissIsPoints(ms, u);
    }
    RankBySameScores(players, SwissScore(ms), points);
    NeighboursCount(Rank(players, points));
    NeighboursAt(Rank(players, points), i);
    RankedBestFirst(players, points, 2 * i, 2 * i + 1);
  }

  /** In the first round of the other tournaments neighbours in the list of participants meet,
      the earlier one with white. */
  lemma FirstListedRound(ruleset: Ruleset, participants: seq<Participant>, totalRounds: int, m: Matchmaking, i: nat)
    requires ruleset != Swiss && IsFirstRound(ruleset, participants, totalRounds, m) && i < |m.next|
    ensures 2 * i + 1 < |participants|
    ensures m.next[i] == Pair(participants[2 * i].userId, participants[2 * i + 1].userId)
  {
    hide Neighbours, IsPerfect;
    NeighboursCount(Ids(participants));
    NeighboursAt(Ids(participants), i);
  }
}
