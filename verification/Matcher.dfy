/** The matchmaking of the tournaments: the first round, and the next round from the matches
    so far, for each ruleset. Game IDs and modes are left out of a match. */
module Matcher {
  import opened Wrappers
  import opened Pairing
  import opened Ranking
  import opened Scoring
  import opened Sets
  import opened Winners

  datatype Participant = Participant(userId: int, elo: Option<real>)

  datatype TournamentStatus = Lobby | Scheduled | InProgress | Finished

  datatype MatchError =
    | EmptyMatches
    | ParticipantCount(want: nat, got: nat)
    | ParticipantParity(got: nat)
    | MatchParity(got: nat)

  datatype Matchmaking = Matchmaking(next: seq<Pair>, status: TournamentStatus, round: int, totalRounds: int,
                                     winnerId: int, tiebreaker: TieBreaker)

  /** What a call comes to: a value, an error, or a panic. */
  datatype Outcome<+T> = Made(value: T) | Refused(error: MatchError) | Panicked

  const WINNER_NONE := 0

  const DEFAULT_ELO := 1000.0

  function DefaultUserElo(elo: Option<real>): real { if elo.Some? then elo.value else DEFAULT_ELO }

  function Power2(n: nat): (p: nat)
    ensures p >= 1
    decreases n
  {
    if n == 0 then 1 else 2 * Power2(n - 1)
  }

  /** The greatest r with 2^r <= n. */
  function FloorLog2(n: nat): (r: nat)
    requires n >= 1
    ensures Power2(r) <= n < Power2(r + 1)
    decreases n
  {
    if n == 1 then 0 else FloorLog2(n / 2) + 1
  }

  function RoundRobinRounds(participants: nat): nat { participants * (participants - 1) / 2 }

  function Ids(ps: seq<Participant>): seq<int> { seq(|ps|, i requires 0 <= i < |ps| => ps[i].userId) }

  // ----- the first round -----

  lemma NeighboursStep(ids: seq<int>, i: nat)
    requires i + 1 < |ids|
    ensures Neighbours(ids[i..]) == [Pair(ids[i], ids[i + 1])] + Neighbours(ids[i + 2..])
  {
    assert ids[i..][2..] == ids[i + 2..];
  }

  lemma NeighboursEnd(ids: seq<int>)
    ensures |ids| < 2 ==> Neighbours(ids) == []
  {
  }

  method MakeMatchesLinearly(participants: seq<Participant>) returns (r: Outcome<seq<Pair>>)
    ensures |participants| % 2 != 0 ==> r.Panicked?
    ensures |participants| % 2 == 0 ==> r == Made(Neighbours(Ids(participants)))
    ensures |participants| % 2 == 0 ==> IsPerfect(r.value, Ids(participants))
  {
    hide Neighbours, IsPerfect;
    if |participants| % 2 != 0 {
      return Panicked;
    }
    ghost var ids := Ids(participants);
    var matches: seq<Pair> := [];
    var i := 0;
    assert ids[0..] == ids;
    while i + 1 < |participants|
      invariant 0 <= i <= |participants|
      invariant Neighbours(ids) == matches + Neighbours(ids[i..])
      decreases |participants| - i
    {
      NeighboursStep(ids, i);
      matches := matches + [Pair(participants[i].userId, participants[i + 1].userId)];
      i := i + 2;
    }
    NeighboursEnd(ids[i..]);
    assert matches + [] == matches;
    NeighboursPerfect(ids);
    r := Made(matches);
  }

  /** The Elo of a participant, by ID. */
  function EloOf(participants: seq<Participant>): int -> real {
    id => LookedUp(participants, id)
  }

  function LookedUp(participants: seq<Participant>, id: int): real
    decreases |participants|
  {
    if participants == [] then DEFAULT_ELO
    else if participants[0].userId == id then DefaultUserElo(participants[0].elo)
    else LookedUp(participants[1..], id)
  }

  /** With distinct IDs the Elo by ID is each participant's own. */
  lemma {:induction false} EloOfParticipant(participants: seq<Participant>, i: nat)
    requires Distinct(Ids(participants)) && i < |participants|
    ensures EloOf(participants)(participants[i].userId) == DefaultUserElo(participants[i].elo)
    decreases i
  {
    if i > 0 {
      var ids := Ids(participants);
      assert ids[0] != ids[i];
      assert Ids(participants[1..]) == ids[1..];
      EloOfParticipant(participants[1..], i - 1);
    }
  }

  lemma CrissCrossRest(ids: seq<int>, low: nat, high: int)
    requires low <= high + 1 <= |ids|
    ensures low < high ==> CrissCross(ids[low..high + 1]) == [Pair(ids[low], ids[high])] + CrissCross(ids[low + 1..high])
    ensures low >= high ==> CrissCross(ids[low..high + 1]) == []
  {
    var s := ids[low..high + 1];
    CrissCrossStep(s);
    if low < high {
      var inner := s[1..|s| - 1];
      assert |inner| == |ids[low + 1..high]|;
      forall k | 0 <= k < |inner|
        ensures inner[k] == ids[low + 1..high][k]
      {
        assert inner[k] == s[k + 1] == ids[low + 1 + k];
      }
      assert inner == ids[low + 1..high];
    }
  }

  /** Best against worst, inwards. The participants of a tournament are distinct users. */
  method MakeMatchesCrissCrossElos(participants: seq<Participant>) returns (r: Outcome<seq<Pair>>)
    requires Distinct(Ids(participants))
    ensures |participants| % 2 != 0 ==> r.Panicked?
    ensures |participants| % 2 == 0 ==> r.Made? && IsPerfect(r.value, Ids(participants))
    ensures |participants| % 2 == 0 ==>
              forall ps :: IsPerfect(ps, Ids(participants)) ==>
                TotalGap(ps, EloOf(participants)) <= TotalGap(r.value, EloOf(participants))
    ensures r.Made? ==> r.value == CrissCross(Rank(Ids(participants), EloOf(participants)))
  {
    hide CrissCross, TotalGap, Players, Rank, Ranked;
    var ids := Rank(Ids(participants), EloOf(participants));
    var matches: seq<Pair> := [];
    var low, high := 0, |ids| - 1;
    assert ids[low..high + 1] == ids;
    while low < high
      invariant 0 <= low <= high + 1 <= |ids| && low + high == |ids| - 1
      invariant CrissCross(ids) == matches + CrissCross(ids[low..high + 1])
      decreases high - low
    {
      CrissCrossRest(ids, low, high);
      matches := matches + [Pair(ids[low], ids[high])];
      low, high := low + 1, high - 1;
    }
    if low == high {
      return Panicked;
    }
    CrissCrossRest(ids, low, high);
    assert matches + [] == matches;
    r := Made(matches);
    CrissCrossIsBest(Ids(participants), EloOf(participants));
  }

  lemma RankedIsDescending(ids: seq<int>, key: int -> real)
    requires Ranked(ids, key)
    ensures Descending(ids, key)
  {
    forall i, j | 0 <= i < j < |ids|
      ensures key(ids[i]) >= key(ids[j])
    {
      assert Before(ids[i], ids[j], key);
    }
  }

  lemma CrissCrossIsBest(ids: seq<int>, key: int -> real)
    requires |ids| % 2 == 0
    ensures IsPerfect(CrissCross(Rank(ids, key)), ids)
    ensures forall ps :: IsPerfect(ps, ids) ==> TotalGap(ps, key) <= TotalGap(CrissCross(Rank(ids, key)), key)
  {
    hide CrissCross, TotalGap, Players, Ranked, Descending;
    var ranked := Rank(ids, key);
    RankedIsDescending(ranked, key);
    CrissCrossPerfect(ranked);
    forall ps | IsPerfect(ps, ids)
      ensures TotalGap(ps, key) <= TotalGap(CrissCross(ranked), key)
    {
      CrissCrossGreatestGap(ranked, ps, key);
    }
  }

  lemma NeighboursIsBest(ids: seq<int>, key: int -> real)
    requires |ids| % 2 == 0
    ensures IsPerfect(Neighbours(Rank(ids, key)), ids)
    ensures forall ps :: IsPerfect(ps, ids) ==> TotalGap(Neighbours(Rank(ids, key)), key) <= TotalGap(ps, key)
  {
    hide Neighbours, TotalGap, Players, Ranked, Descending;
    var ranked := Rank(ids, key);
    RankedIsDescending(ranked, key);
    NeighboursPerfect(ranked);
    forall ps | IsPerfect(ps, ids)
      ensures TotalGap(Neighbours(ranked), key) <= TotalGap(ps, key)
    {
      NeighboursLeastGap(ranked, ps, key);
    }
  }

  /** Why a tournament cannot start with these participants. */
  function StartError(ruleset: Ruleset, participants: nat, totalRounds: int): Option<MatchError>
    requires ruleset == Knockout ==> totalRounds >= 0
  {
    if ruleset == Knockout then
      if participants != Power2(totalRounds) then Some(ParticipantCount(Power2(totalRounds), participants)) else None
    else if participants % 2 != 0 then Some(ParticipantParity(participants))
    else None
  }

  /** Who may start: as many as a knockout of the given rounds seats, or any even number. A
      refusal says what was wanted and what there was. */
  lemma StartsIff(ruleset: Ruleset, participants: nat, totalRounds: int)
    requires ruleset == Knockout ==> totalRounds >= 0
    ensures ruleset == Knockout ==>
              StartError(ruleset, participants, totalRounds)
              == if participants == Power2(totalRounds) then None else Some(ParticipantCount(want := Power2(totalRounds), got := participants))
    ensures ruleset != Knockout ==>
              StartError(ruleset, participants, totalRounds)
              == if participants % 2 == 0 then None else Some(ParticipantParity(got := participants))
  {
    hide Power2;
  }

  lemma PowerIsEven(n: nat)
    requires n >= 1
    ensures Power2(n) % 2 == 0 && Power2(n) / 2 == Power2(n - 1)
  {
  }

  /** No knockout without rounds can be set up: the numbers of its first round make no sense. */
  predicate NoBracket(ruleset: Ruleset, participants: nat, totalRounds: int) {
    ruleset == Knockout && (totalRounds < 0 || (totalRounds == 0 && participants == 1))
  }

  /** The first round, as the matchmaking promises it. */
  ghost predicate FirstOutcome(ruleset: Ruleset, participants: seq<Participant>, totalRounds: int, r: Outcome<Matchmaking>) {
    var count := |participants|;
    && (r.Panicked? <==> NoBracket(ruleset, count, totalRounds))
    && (r.Refused? ==>
          && StartError(ruleset, count, totalRounds) == Some(r.error))
    && (r.Made? ==>
          && StartError(ruleset, count, totalRounds) == None
          && IsFirstRound(ruleset, participants, totalRounds, r.value))
  }

  ghost predicate IsFirstRound(ruleset: Ruleset, participants: seq<Participant>, totalRounds: int, m: Matchmaking) {
    && m.status == InProgress && m.round == 1 && m.winnerId == WINNER_NONE
    && IsPerfect(m.next, Ids(participants))
    && match ruleset
       case Knockout =>
         && m.next == Neighbours(Ids(participants)) && m.totalRounds == totalRounds
         && totalRounds >= 1 && |m.next| == Power2(totalRounds - 1)
       case RoundRobin =>
         m.next == Neighbours(Ids(participants)) && m.totalRounds == RoundRobinRounds(|participants|)
       case Swiss =>
         && m.next == CrissCross(Rank(Ids(participants), EloOf(participants)))
         && (participants != [] ==> m.totalRounds == FloorLog2(|participants|))
  }

  /** The rounds of a Swiss tournament; what the machine makes of the logarithm of zero is
      left open. */
  method CalcSwissTournamentRounds(participants: nat) returns (rounds: int)
    ensures participants > 0 ==> rounds == FloorLog2(participants)
  {
    if participants == 0 {
      rounds := *;
    } else {
      rounds := FloorLog2(participants);
    }
  }

  /** The matches of the first round of a knockout, or of a round-robin tournament. */
  method FirstKnockoutMatches(participants: seq<Participant>, totalRounds: int) returns (r: Outcome<Matchmaking>)
    ensures FirstOutcome(Knockout, participants, totalRounds, r)
  {
    hide FloorLog2, Neighbours, IsPerfect;
    var count := |participants|;
    if totalRounds < 0 {
      return Panicked;
    }
    if count != Power2(totalRounds) {
      return Refused(ParticipantCount(Power2(totalRounds), count));
    }
    var matches := MakeMatchesLinearly(participants);
    if totalRounds == 0 {
      assert count % 2 == 1;
      return Panicked;
    }
    PowerIsEven(totalRounds);
    NeighboursCount(Ids(participants));
    assert |matches.value| == Power2(totalRounds - 1); // the program panics if not
    r := Made(Matchmaking(matches.value, InProgress, 1, totalRounds, WINNER_NONE, NoTiebreaker));
  }

  method NewFirstMatches(ruleset: Ruleset, participants: seq<Participant>, totalRounds: int)
      returns (r: Outcome<Matchmaking>)
    requires Distinct(Ids(participants))
    ensures FirstOutcome(ruleset, participants, totalRounds, r)
  {
    hide Power2, FloorLog2, Neighbours, CrissCross, IsPerfect, Rank, TotalGap;
    if ruleset == Knockout {
      r := FirstKnockoutMatches(participants, totalRounds);
      return;
    }
    var count := |participants|;
    if count % 2 != 0 {
      return Refused(ParticipantParity(count));
    }
    if ruleset == RoundRobin {
      var matches := MakeMatchesLinearly(participants);
      r := Made(Matchmaking(matches.value, InProgress, 1, RoundRobinRounds(count), WINNER_NONE, NoTiebreaker));
    } else {
      var matches := MakeMatchesCrissCrossElos(participants);
      var rounds := CalcSwissTournamentRounds(count);
      r := Made(Matchmaking(matches.value, InProgress, 1, rounds, WINNER_NONE, NoTiebreaker));
    }
  }

  // ----- the next rounds -----

  /** The matches of one round, in order. */
  function RoundOf(ms: seq<CompletedMatch>, round: int): seq<CompletedMatch>
    decreases |ms|
  {
    if ms == [] then []
    else RoundOf(ms[..|ms| - 1], round) + (if ms[|ms| - 1].round == round then [ms[|ms| - 1]] else [])
  }

  lemma RoundOfStep(ms: seq<CompletedMatch>, i: nat, round: int)
    requires i < |ms|
    ensures RoundOf(ms[..i + 1], round) == RoundOf(ms[..i], round) + (if ms[i].round == round then [ms[i]] else [])
  {
    assert ms[..i + 1][..i] == ms[..i];
  }

  function LastRound(ms: seq<CompletedMatch>): int
    requires ms != []
  {
    ms[|ms| - 1].round
  }

  function PrevRound(ms: seq<CompletedMatch>): seq<CompletedMatch>
    requires ms != []
  {
    RoundOf(ms, LastRound(ms))
  }

  method GetPrevRoundMatches(ms: seq<CompletedMatch>) returns (prev: seq<CompletedMatch>)
    requires ms != []
    ensures prev == PrevRound(ms) && prev != []
  {
    hide RoundOf;
    var round := ms[|ms| - 1].round;
    prev := [];
    EmptyRound(ms[..0], round);
    for i := 0 to |ms|
      invariant prev == RoundOf(ms[..i], round)
      invariant i == |ms| ==> prev != []
    {
      RoundOfStep(ms, i, round);
      if ms[i].round == round {
        prev := prev + [ms[i]];
      }
    }
    assert ms[..|ms|] == ms;
  }

  lemma EmptyRound(ms: seq<CompletedMatch>, round: int)
    requires ms == []
    ensures RoundOf(ms, round) == []
  {
  }

  function WinnersOf(ms: seq<CompletedMatch>): (ids: seq<int>)
    ensures |ids| == |ms|
  {
    seq(|ms|, i requires 0 <= i < |ms| => KnockoutWinner(ms[i]).0)
  }

  function PairsOf(ms: seq<CompletedMatch>): (ps: seq<Pair>)
    ensures |ps| == |ms|
  {
    seq(|ms|, i requires 0 <= i < |ms| => Pair(ms[i].whiteId, ms[i].blackId))
  }

  /** The winners of the last round, each against its neighbour. */
  method DoKnockoutMatchmaking(ms: seq<CompletedMatch>) returns (next: seq<Pair>)
    requires ms != []
    ensures next == Neighbours(WinnersOf(PrevRound(ms)))
  {
    hide RoundOf, Neighbours;
    var prev := GetPrevRoundMatches(ms);
    ghost var ids := WinnersOf(prev);
    next := [];
    var i := 0;
    assert ids[0..] == ids;
    while i + 1 < |prev|
      invariant 0 <= i <= |prev|
      invariant Neighbours(ids) == next + Neighbours(ids[i..])
      decreases |prev| - i
    {
      NeighboursStep(ids, i);
      next := next + [Pair(KnockoutWinner(prev[i]).0, KnockoutWinner(prev[i + 1]).0)];
      i := i + 2;
    }
    NeighboursEnd(ids[i..]);
    NeighboursCount(ids);
    assert |next| == |prev| / 2; // the program panics if not
  }

  lemma {:induction false} NeighboursCount(ids: seq<int>)
    ensures |Neighbours(ids)| == |ids| / 2
    decreases |ids|
  {
    if |ids| >= 2 { NeighboursCount(ids[2..]); }
  }

  /** The round after this one: white of the first match stays, all others move one seat on. */
  function Rotated(ps: seq<Pair>): (r: seq<Pair>)
    ensures |r| == |ps|
  {
    seq(|ps|, i requires 0 <= i < |ps| =>
      if i == 0 then Pair(ps[0].white, ps[|ps| - 1].black) else Pair(ps[i - 1].black, ps[i].white))
  }

  lemma RotatedAt(ps: seq<Pair>, i: nat)
    requires i < |ps|
    ensures i == 0 ==> Rotated(ps)[i] == Pair(ps[0].white, ps[|ps| - 1].black)
    ensures i > 0 ==> Rotated(ps)[i] == Pair(ps[i - 1].black, ps[i].white)
  {
  }

  method DoRoundRobinMatchmaking(ms: seq<CompletedMatch>) returns (next: seq<Pair>)
    requires ms != []
    ensures next == Rotated(PairsOf(PrevRound(ms)))
  {
    hide RoundOf, PrevRound, Rotated;
    var prev := GetPrevRoundMatches(ms);
    next := [];
    ghost var pairs := PairsOf(prev);
    for i := 0 to |prev|
      invariant next == Rotated(pairs)[..i]
    {
      RotatedAt(pairs, i);
      var nextWhite, nextBlack;
      if i == 0 {
        nextWhite := prev[i].whiteId;
        nextBlack := prev[|prev| - 1].blackId;
      } else {
        nextWhite := prev[i - 1].blackId;
        nextBlack := prev[i].whiteId;
      }
      next := next + [Pair(nextWhite, nextBlack)];
    }
  }

  /** The Swiss score of a player. */
  function SwissScore(ms: seq<CompletedMatch>): int -> real {
    u => Score(AllCredits(ms, SwissCredits), u)
  }

  function InTable(t: Table): int -> real { u => if u in t then t[u] else 0.0 }

  lemma TableIsScore(t: Table, ms: seq<CompletedMatch>)
    requires IsTable(t, AllCredits(ms, SwissCredits), Seats(ms))
    ensures forall u :: InTable(t)(u) == SwissScore(ms)(u)
  {
    hide AllCredits, Score;
    forall u
      ensures InTable(t)(u) == SwissScore(ms)(u)
    {
      if u !in t { NotCredited(AllCredits(ms, SwissCredits), u); }
    }
  }

  /** A ranking depends on the scores alone. */
  lemma RankBySameScores(ids: seq<int>, key1: int -> real, key2: int -> real)
    requires forall u :: key1(u) == key2(u)
    ensures Rank(ids, key1) == Rank(ids, key2)
  {
    var s := Rank(ids, key1);
    forall i, j | 0 <= i < j < |s|
      ensures Before(s[i], s[j], key2)
    {
      assert Before(s[i], s[j], key1);
    }
    RankedUnique(s, Rank(ids, key2), key2);
  }

  /** The keys of a map, listed in an arbitrary order. */
  method ListKeys(t: Table) returns (ids: seq<int>)
    ensures multiset(ids) == multiset(t.Keys)
  {
    ids := [];
    var remaining: set<int> := t.Keys;
    while remaining != {}
      invariant remaining <= t.Keys && multiset(ids) == multiset(t.Keys - remaining)
      decreases |remaining|
    {
      ghost var someone := SomeMember(remaining);
      var userID :| userID in remaining;
      assert t.Keys - (remaining - {userID}) == (t.Keys - remaining) + {userID};
      ids := ids + [userID];
      remaining := remaining - {userID};
    }
    assert t.Keys - remaining == t.Keys;
  }

  /** The ranked players in pairs, from the top. */
  method PairInOrder(ids: seq<int>) returns (next: seq<Pair>)
    ensures next == Neighbours(ids)
  {
    hide Neighbours;
    next := [];
    var i := 0;
    assert ids[0..] == ids;
    while i + 1 < |ids|
      invariant 0 <= i <= |ids|
      invariant Neighbours(ids) == next + Neighbours(ids[i..])
      decreases |ids| - i
    {
      NeighboursStep(ids, i);
      next := next + [Pair(ids[i], ids[i + 1])];
      i := i + 2;
    }
    NeighboursEnd(ids[i..]);
    assert next + [] == next;
  }

  lemma SwissIsBest(players: set<int>, listed: seq<int>, key: int -> real)
    requires multiset(listed) == multiset(players)
    ensures |players| % 2 == 0 ==> Players(Neighbours(Rank(listed, key))) == multiset(players)
    ensures |players| % 2 == 0 ==>
              forall ps :: Players(ps) == multiset(players) ==>
                TotalGap(Neighbours(Rank(listed, key)), key) <= TotalGap(ps, key)
  {
    hide Neighbours, Rank, TotalGap, Players;
    assert |listed| == |multiset(listed)| == |multiset(players)| == |players|;
    if |players| % 2 == 0 {
      NeighboursIsBest(listed, key);
      forall ps | Players(ps) == multiset(players)
        ensures TotalGap(Neighbours(Rank(listed, key)), key) <= TotalGap(ps, key)
      {
        assert IsPerfect(ps, listed);
      }
    }
  }

  /** Whatever order the map of scores is iterated in, the round is the same one: neighbours in
      the ranking by score. It matches every player once if their number is even, and then no
      other matching has a smaller total score gap. */
  method DoSwissMatchmaking(ms: seq<CompletedMatch>) returns (next: seq<Pair>)
    ensures forall ids :: multiset(ids) == multiset(Seats(ms)) ==> next == Neighbours(Rank(ids, SwissScore(ms)))
    ensures |Seats(ms)| % 2 == 0 ==> Players(next) == multiset(Seats(ms))
    ensures |Seats(ms)| % 2 == 0 ==>
              forall ps :: Players(ps) == multiset(Seats(ms)) ==>
                TotalGap(next, SwissScore(ms)) <= TotalGap(ps, SwissScore(ms))
  {
    hide Neighbours, Rank, IsTable, InTable, SwissScore, Seats, TotalGap, Players;
    var t := MakeSwissTable(ms);
    var listed := ListKeys(t);
    TableIsScore(t, ms);
    RankBySameScores(listed, InTable(t), SwissScore(ms));
    next := PairInOrder(Rank(listed, InTable(t)));
    forall ids | multiset(ids) == multiset(Seats(ms))
      ensures next == Neighbours(Rank(ids, SwissScore(ms)))
    {
      RankIgnoresOrder(ids, listed, SwissScore(ms));
    }
    SwissIsBest(Seats(ms), listed, SwissScore(ms));
  }

  /** Why no next round is made. */
  function NextError(ruleset: Ruleset, ms: seq<CompletedMatch>): Option<MatchError> {
    if ms == [] then Some(EmptyMatches)
    else if ruleset == Knockout && |ms| % 2 != 0 then Some(MatchParity(|ms|))
    else None
  }

  /** The next round as a relation, for it is stated of the Swiss ruleset by the ranking of
      any listing of the players. */
  ghost predicate IsNextRound(ruleset: Ruleset, ms: seq<CompletedMatch>, next: seq<Pair>)
    requires ms != []
  {
    match ruleset
    case Knockout => next == Neighbours(WinnersOf(PrevRound(ms)))
    case RoundRobin => next == Rotated(PairsOf(PrevRound(ms)))
    case Swiss => forall ids :: multiset(ids) == multiset(Seats(ms)) ==> next == Neighbours(Rank(ids, SwissScore(ms)))
  }

  /** The step that ends the tournament names its winner by the rules of the ruleset. */
  ghost predicate IsChampion(ruleset: Ruleset, ms: seq<CompletedMatch>, id: int, tiebreaker: TieBreaker)
    requires ms != []
  {
    match ruleset
    case Knockout => (id, tiebreaker) == KnockoutWinner(ms[|ms| - 1])
    case RoundRobin => IsTieBrokenWinner(ms, AllCredits(ms, WinCredits), {}, Winner(id, tiebreaker))
    case Swiss => IsTieBrokenWinner(ms, AllCredits(ms, SwissCredits), Seats(ms), Winner(id, tiebreaker))
  }

  /** A round-robin tournament without a decisive match has no winner: its last step panics. */
  ghost predicate NoChampion(ruleset: Ruleset, ms: seq<CompletedMatch>, totalRounds: int)
    requires ms != []
  {
    ruleset == RoundRobin && LastRound(ms) + 1 > totalRounds && !HasDecisive(ms)
  }

  ghost predicate IsNextMatchmaking(ruleset: Ruleset, ms: seq<CompletedMatch>, totalRounds: int, m: Matchmaking)
    requires ms != []
  {
    && IsNextRound(ruleset, ms, m.next)
    && m.round == LastRound(ms) + 1 && m.totalRounds == totalRounds
    && m.status == (if m.round > totalRounds then Finished else InProgress)
    && (m.status == InProgress ==> m.winnerId == WINNER_NONE)
    && (m.status == Finished ==> IsChampion(ruleset, ms, m.winnerId, m.tiebreaker))
  }

  /** The next round, as the matchmaking promises it. */
  ghost predicate NextOutcome(ruleset: Ruleset, ms: seq<CompletedMatch>, totalRounds: int, r: Outcome<Matchmaking>) {
    && (r.Refused? <==> NextError(ruleset, ms).Some?)
    && (r.Refused? ==> r.error == NextError(ruleset, ms).value)
    && (r.Made? ==> IsNextMatchmaking(ruleset, ms, totalRounds, r.value))
    && (ruleset == Knockout ==> !r.Panicked?)
    && (ms != [] && NonNegativeElos(ms) ==> (r.Panicked? <==> NoChampion(ruleset, ms, totalRounds)))
  }

  method DoMatchmaking(ruleset: Ruleset, ms: seq<CompletedMatch>, totalRounds: int) returns (r: Outcome<Matchmaking>)
    ensures NextOutcome(ruleset, ms, totalRounds, r)
  {
    hide Neighbours, Rotated, PrevRound, WinnersOf, PairsOf, SwissScore, Rank, AllCredits, Score, Seats;
    hide IsTieBrokenWinner, NonNegativeElos, HasDecisive, TotalGap, Players;
    if |ms| == 0 {
      return Refused(EmptyMatches);
    }
    var next: seq<Pair>;
    match ruleset {
      case Knockout =>
        if |ms| % 2 != 0 {
          return Refused(MatchParity(|ms|));
        }
        next := DoKnockoutMatchmaking(ms);
      case RoundRobin =>
        next := DoRoundRobinMatchmaking(ms);
      case Swiss =>
        next := DoSwissMatchmaking(ms);
    }
    var round := ms[|ms| - 1].round + 1;
    var status, winnerId, tiebreaker := InProgress, WINNER_NONE, NoTiebreaker;
    if round > totalRounds {
      status := Finished;
      var w := FindTournamentWinner(ruleset, ms);
      if w.Panic? {
        return Panicked;
      }
      winnerId, tiebreaker := w.id, w.tiebreaker;
    }
    r := Made(Matchmaking(next, status, round, totalRounds, winnerId, tiebreaker));
  }
}
