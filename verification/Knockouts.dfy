/** Knockout tournaments over all their rounds: the field halves, the winners go on, and the
    player left standing has won every round. */
module Knockouts {
  import opened Wrappers
  import opened Matcher
  import opened Pairing
  import opened Results
  import opened Rounds
  import opened Scoring
  import opened Winners

  /** A run for n rounds on the listed players. */
  ghost predicate IsKnockout(ids: seq<int>, n: nat, rounds: seq<seq<CompletedMatch>>) {
    && n >= 1 && Distinct(ids) && |ids| == Power2(n)
    && |rounds| <= n && IsRun(Knockout, Neighbours(ids), rounds)
  }

  /** The players still in the tournament at round k, counted from 0. */
  function Field(ids: seq<int>, rounds: seq<seq<CompletedMatch>>, k: nat): seq<int>
    requires k <= |rounds|
  {
    if k == 0 then ids else WinnersOf(rounds[k - 1])
  }

  /** The winners of a round are distinct, each one of the two players of its match. */
  lemma WinnersDistinct(ids: seq<int>, ms: seq<CompletedMatch>)
    requires Distinct(ids) && |ids| % 2 == 0 && PairsOf(ms) == Neighbours(ids)
    ensures 2 * |ms| == |ids| && Distinct(WinnersOf(ms))
    ensures forall w :: w in WinnersOf(ms) ==> w in ids
  {
    hide Neighbours;
    NeighboursCount(ids);
    var ws := WinnersOf(ms);
    forall i | 0 <= i < |ms|
      ensures ws[i] == ids[2 * i] || ws[i] == ids[2 * i + 1]
    {
      NeighboursAt(ids, i);
      assert PairsOf(ms)[i] == Pair(ms[i].whiteId, ms[i].blackId);
    }
    forall i, j | 0 <= i < j < |ms|
      ensures ws[i] != ws[j]
    {
    }
  }

  /** Round k of a knockout: the winners of the round before, all distinct, in order. */
  lemma {:induction false} FieldHalves(ids: seq<int>, n: nat, rounds: seq<seq<CompletedMatch>>, k: nat)
    requires IsKnockout(ids, n, rounds) && k <= |rounds|
    ensures |Field(ids, rounds, k)| == Power2(n - k) && Distinct(Field(ids, rounds, k))
    ensures k < |rounds| ==> PairsOf(rounds[k]) == Neighbours(Field(ids, rounds, k)) && |rounds[k]| == Power2(n - k - 1)
    ensures k > 0 ==> forall w :: w in Field(ids, rounds, k) ==> w in Field(ids, rounds, k - 1)
    decreases k
  {
    hide Neighbours, WinnersOf, PairsOf, Distinct, Power2, Flatten;
    if k > 0 {
      FieldHalves(ids, n, rounds, k - 1);
      PowerIsEven(n - k + 1);
      WinnersDistinct(Field(ids, rounds, k - 1), rounds[k - 1]);
      if k < |rounds| { RunStep(Knockout, Neighbours(ids), rounds, k); }
    }
    if k < |rounds| {
      PowerIsEven(n - k);
      NeighboursCount(Field(ids, rounds, k));
      assert |PairsOf(rounds[k])| == |rounds[k]|;
    }
  }

  lemma KnockoutPrefix(ids: seq<int>, n: nat, rounds: seq<seq<CompletedMatch>>, k: nat)
    requires IsKnockout(ids, n, rounds) && k <= |rounds|
    ensures IsKnockout(ids, n, rounds[..k])
  {
    hide IsRun, Neighbours, Power2;
    RunPrefix(Knockout, Neighbours(ids), rounds, k);
  }

  /** After r of n rounds a knockout has 2^n - 2^(n-r) matches. */
  lemma {:induction false} MatchesPlayed(ids: seq<int>, n: nat, rounds: seq<seq<CompletedMatch>>)
    requires IsKnockout(ids, n, rounds)
    ensures |Flatten(rounds)| == Power2(n) - Power2(n - |rounds|)
    decreases |rounds|
  {
    hide IsKnockout, Power2, Neighbours, WinnersOf, PairsOf, IsRun;
    var r := |rounds|;
    assert r <= n by { KnockoutBounds(ids, n, rounds); }
    if r > 0 {
      KnockoutPrefix(ids, n, rounds, r - 1);
      MatchesPlayed(ids, n, rounds[..r - 1]);
      FieldHalves(ids, n, rounds, r - 1);
      PowerIsEven(n - r + 1);
    }
  }

  lemma KnockoutBounds(ids: seq<int>, n: nat, rounds: seq<seq<CompletedMatch>>)
    requires IsKnockout(ids, n, rounds)
    ensures n >= 1 && |rounds| <= n && IsRun(Knockout, Neighbours(ids), rounds) && Numbered(rounds)
  {
  }

  /** While rounds remain the matchmaking goes on: nothing is refused, and the next round is
      between the winners of the last one, each in one match. */
  lemma NextKnockoutRound(ids: seq<int>, n: nat, rounds: seq<seq<CompletedMatch>>, next: seq<Pair>)
    requires IsKnockout(ids, n, rounds) && 1 <= |rounds| < n
    requires Flatten(rounds) != [] && IsNextRound(Knockout, Flatten(rounds), next)
    ensures NextError(Knockout, Flatten(rounds)) == None
    ensures |next| == Power2(n - |rounds| - 1)
    ensures Distinct(WinnersOf(rounds[|rounds| - 1])) && Players(next) == multiset(WinnersOf(rounds[|rounds| - 1]))
  {
    hide IsKnockout, Power2, Neighbours, WinnersOf, Distinct, PrevRound, Numbered, IsRun, Players;
    var r := |rounds|;
    KnockoutBounds(ids, n, rounds);
    MatchesPlayed(ids, n, rounds);
    PowerIsEven(n);
    PowerIsEven(n - r);
    PrevRoundIsLast(rounds);
    FieldHalves(ids, n, rounds, r);
    NeighboursPerfect(Field(ids, rounds, r));
  }

  /** The matchmaking after the last round is always refused: the matches are odd in number.
      So the step that would finish a knockout and store its winner never succeeds. */
  lemma ClosingStepRefused(ids: seq<int>, n: nat, rounds: seq<seq<CompletedMatch>>)
    requires IsKnockout(ids, n, rounds) && |rounds| == n
    ensures NextError(Knockout, Flatten(rounds)) == Some(MatchParity(Power2(n) - 1))
  {
    hide IsKnockout, Flatten;
    KnockoutBounds(ids, n, rounds);
    MatchesPlayed(ids, n, rounds);
    PowerIsEven(n);
    assert Power2(n - n) == 1;
  }

  /** The winner of the last match is the one player who won in every round. */
  lemma ChampionWonEveryRound(ids: seq<int>, n: nat, rounds: seq<seq<CompletedMatch>>, p: int)
    requires IsKnockout(ids, n, rounds) && |rounds| == n
    ensures Flatten(rounds) != []
    ensures p == KnockoutWinner(Flatten(rounds)[|Flatten(rounds)| - 1]).0 <==>
              forall k :: 0 <= k < n ==> p in WinnersOf(rounds[k])
  {
    hide IsKnockout, KnockoutWinner, WinnersOf, Flatten;
    KnockoutBounds(ids, n, rounds);
    FinalIsOneMatch(ids, n, rounds);
    var champion := KnockoutWinner(rounds[n - 1][0]).0;
    if forall k :: 0 <= k < n ==> p in WinnersOf(rounds[k]) {
      assert p in WinnersOf(rounds[n - 1]);
    }
    forall k | 0 <= k < n
      ensures champion in WinnersOf(rounds[k])
    {
      ChampionInField(ids, n, rounds, k, champion);
    }
  }

  lemma FinalIsOneMatch(ids: seq<int>, n: nat, rounds: seq<seq<CompletedMatch>>)
    requires IsKnockout(ids, n, rounds) && |rounds| == n && n >= 1
    ensures |rounds[n - 1]| == 1 && WinnersOf(rounds[n - 1]) == [KnockoutWinner(rounds[n - 1][0]).0]
    ensures Flatten(rounds) != [] && Flatten(rounds)[|Flatten(rounds)| - 1] == rounds[n - 1][0]
  {
    hide IsKnockout, Power2, KnockoutWinner;
    FieldHalves(ids, n, rounds, n - 1);
    PowerOfNone(0);
  }

  lemma PowerOfNone(k: nat)
    requires k == 0
    ensures Power2(k) == 1
  {
  }

  lemma {:induction false} ChampionInField(ids: seq<int>, n: nat, rounds: seq<seq<CompletedMatch>>, k: nat, p: int)
    requires IsKnockout(ids, n, rounds) && k < n == |rounds|
    requires p in WinnersOf(rounds[n - 1])
    ensures p in WinnersOf(rounds[k])
    decreases n - k
  {
    hide IsKnockout, Power2, Neighbours, IsRun, Distinct, WinnersOf;
    if k < n - 1 {
      ChampionInField(ids, n, rounds, k + 1, p);
      KnockoutBounds(ids, n, rounds);
      FieldHalves(ids, n, rounds, k + 2);
    }
  }

  // ----- by the results of the matches -----

  /** Some match of the list was won by the player, or drawn with the Elo deciding for them. */
  predicate GoesOnFrom(ms: seq<CompletedMatch>, p: int) { exists m :: m in ms && GoesOn(m, p) }

  /** The player was beaten: the result is the win of the other seat. */
  predicate IsBeaten(m: CompletedMatch, p: int) {
    (m.result == WhiteWin && m.blackId == p) || (m.result == BlackWin && m.whiteId == p)
  }

  lemma WinnersGoOn(ms: seq<CompletedMatch>, p: int)
    ensures p in WinnersOf(ms) <==> GoesOnFrom(ms, p)
  {
    hide GoesOn, KnockoutWinner;
    forall m
      ensures KnockoutWinner(m).0 == p <==> GoesOn(m, p)
    {
      KnockoutWinnerGoesOn(m, p);
    }
    if p in WinnersOf(ms) {
      var i :| 0 <= i < |ms| && WinnersOf(ms)[i] == p;
      assert ms[i] in ms;
    }
    if GoesOnFrom(ms, p) {
      var m :| m in ms && GoesOn(m, p);
      var i :| 0 <= i < |ms| && ms[i] == m;
      assert WinnersOf(ms)[i] == p;
    }
  }

  /** The players of a round are those of its field. */
  lemma SeatsOfField(ids: seq<int>, ms: seq<CompletedMatch>, p: int)
    requires |ids| % 2 == 0 && PairsOf(ms) == Neighbours(ids)
    ensures p in Seats(ms) <==> p in ids
  {
    hide Neighbours;
    NeighboursCount(ids);
    forall i | 0 <= i < |ms|
      ensures ms[i].whiteId == ids[2 * i] && ms[i].blackId == ids[2 * i + 1]
    {
      NeighboursAt(ids, i);
      assert PairsOf(ms)[i] == Pair(ms[i].whiteId, ms[i].blackId);
    }
    if p in ids {
      var j :| 0 <= j < |ids| && ids[j] == p;
      assert ms[j / 2] in ms;
    }
    if p in Seats(ms) {
      var m :| m in ms && (m.whiteId == p || m.blackId == p);
      var i :| 0 <= i < |ms| && ms[i] == m;
      assert ids[2 * i] in ids && ids[2 * i + 1] in ids;
    }
  }

  /** Round k + 1 seats exactly the players who went on from round k, by its results. */
  lemma RoundSeatsWinners(ids: seq<int>, n: nat, rounds: seq<seq<CompletedMatch>>, k: nat, p: int)
    requires IsKnockout(ids, n, rounds) && k + 1 < |rounds|
    ensures p in Seats(rounds[k + 1]) <==> GoesOnFrom(rounds[k], p)
  {
    hide IsKnockout, Power2, Neighbours, PairsOf, WinnersOf, Seats, GoesOnFrom;
    KnockoutBounds(ids, n, rounds);
    FieldHalves(ids, n, rounds, k + 1);
    PowerIsEven(n - k - 1);
    SeatsOfField(Field(ids, rounds, k + 1), rounds[k + 1], p);
    WinnersGoOn(rounds[k], p);
  }

  lemma FirstRoundSeats(ids: seq<int>, n: nat, rounds: seq<seq<CompletedMatch>>, p: int)
    requires IsKnockout(ids, n, rounds) && rounds != []
    ensures p in Seats(rounds[0]) <==> p in ids
  {
    hide IsKnockout, Power2, Neighbours, PairsOf, WinnersOf, Seats;
    KnockoutBounds(ids, n, rounds);
    FieldHalves(ids, n, rounds, 0);
    PowerIsEven(n);
    SeatsOfField(ids, rounds[0], p);
  }

  /** In a round nobody plays twice. */
  lemma SeatsUnique(ids: seq<int>, ms: seq<CompletedMatch>, i: nat, j: nat, p: int)
    requires Distinct(ids) && |ids| % 2 == 0 && PairsOf(ms) == Neighbours(ids) && i < |ms| && j < |ms|
    requires ms[i].whiteId == p || ms[i].blackId == p
    requires ms[j].whiteId == p || ms[j].blackId == p
    ensures i == j && ms[i].whiteId != ms[i].blackId
  {
    hide Neighbours;
    NeighboursCount(ids);
    NeighboursAt(ids, i);
    NeighboursAt(ids, j);
    assert PairsOf(ms)[i] == Pair(ms[i].whiteId, ms[i].blackId);
    assert PairsOf(ms)[j] == Pair(ms[j].whiteId, ms[j].blackId);
  }

  /** So who is beaten does not go on. */
  lemma BeatenIsOut(ids: seq<int>, ms: seq<CompletedMatch>, m: CompletedMatch, p: int)
    requires Distinct(ids) && |ids| % 2 == 0 && PairsOf(ms) == Neighbours(ids) && m in ms && IsBeaten(m, p)
    ensures !GoesOnFrom(ms, p)
  {
    hide Neighbours, Distinct, PairsOf;
    if GoesOnFrom(ms, p) {
      var w :| w in ms && GoesOn(w, p);
      var i :| 0 <= i < |ms| && ms[i] == w;
      var j :| 0 <= j < |ms| && ms[j] == m;
      SeatsUnique(ids, ms, i, j, p);
      assert false;
    }
  }

  lemma BeatenMissesNext(ids: seq<int>, n: nat, rounds: seq<seq<CompletedMatch>>, k: nat, m: CompletedMatch, p: int)
    requires IsKnockout(ids, n, rounds) && k + 1 < |rounds| && m in rounds[k] && IsBeaten(m, p)
    ensures p !in Seats(rounds[k + 1])
  {
    hide IsKnockout, Power2, Neighbours, PairsOf, WinnersOf, Seats, GoesOnFrom, IsBeaten, Field, Distinct;
    KnockoutBounds(ids, n, rounds);
    RoundSeatsWinners(ids, n, rounds, k, p);
    FieldHalves(ids, n, rounds, k);
    PowerIsEven(n - k);
    BeatenIsOut(Field(ids, rounds, k), rounds[k], m, p);
  }

  /** Nobody who was beaten plays again. */
  lemma {:induction false} BeatenNeverReturns(ids: seq<int>, n: nat, rounds: seq<seq<CompletedMatch>>, k: nat, j: nat, m: CompletedMatch, p: int)
    requires IsKnockout(ids, n, rounds) && k < j < |rounds| && m in rounds[k] && IsBeaten(m, p)
    ensures p !in Seats(rounds[j])
    decreases j
  {
    hide IsKnockout, Seats, GoesOnFrom, IsBeaten;
    if j == k + 1 {
      BeatenMissesNext(ids, n, rounds, k, m, p);
    } else {
      BeatenNeverReturns(ids, n, rounds, k, j - 1, m, p);
      RoundSeatsWinners(ids, n, rounds, j - 1, p);
      GoesOnIsSeated(rounds[j - 1], p);
    }
  }

  lemma GoesOnIsSeated(ms: seq<CompletedMatch>, p: int)
    ensures GoesOnFrom(ms, p) ==> p in Seats(ms)
  {
  }

  /** The champion is the one player who went on from a match in every round, by the results. */
  lemma ChampionGoesOnAlways(ids: seq<int>, n: nat, rounds: seq<seq<CompletedMatch>>, p: int)
    requires IsKnockout(ids, n, rounds) && |rounds| == n
    ensures Flatten(rounds) != []
    ensures (exists t :: IsChampion(Knockout, Flatten(rounds), p, t)) <==> forall k :: 0 <= k < n ==> GoesOnFrom(rounds[k], p)
  {
    hide IsKnockout, KnockoutWinner, WinnersOf, Flatten, GoesOnFrom;
    ChampionWonEveryRound(ids, n, rounds, p);
    KnockoutBounds(ids, n, rounds);
    forall k | 0 <= k < n
      ensures p in WinnersOf(rounds[k]) <==> GoesOnFrom(rounds[k], p)
    {
      WinnersGoOn(rounds[k], p);
    }
    var last := Flatten(rounds)[|Flatten(rounds)| - 1];
    if p == KnockoutWinner(last).0 { assert IsChampion(Knockout, Flatten(rounds), p, KnockoutWinner(last).1); }
  }
}
