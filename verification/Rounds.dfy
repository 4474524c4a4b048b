/** The matches of a tournament round by round, and the runs in which every round is the
    matchmaking of all the matches before it. */
module Rounds {
  import opened Matcher
  import opened Pairing
  import opened Scoring
  import opened Winners

  /** The matches of all rounds, in the order they are read back. */
  function Flatten(rounds: seq<seq<CompletedMatch>>): (ms: seq<CompletedMatch>)
    decreases |rounds|
  {
    if rounds == [] then [] else Flatten(rounds[..|rounds| - 1]) + rounds[|rounds| - 1]
  }

  /** Round k, counted from 1, has matches, and they carry its number. */
  ghost predicate Numbered(rounds: seq<seq<CompletedMatch>>) {
    forall k :: 0 <= k < |rounds| ==> RoundIs(rounds[k], k + 1)
  }

  ghost predicate RoundIs(ms: seq<CompletedMatch>, number: int) {
    ms != [] && forall m :: m in ms ==> m.round == number
  }

  /** A run of the matchmaking: who plays in a round follows from all the matches before. */
  ghost predicate IsRun(ruleset: Ruleset, first: seq<Pair>, rounds: seq<seq<CompletedMatch>>) {
    && Numbered(rounds)
    && (rounds != [] ==> PairsOf(rounds[0]) == first)
    && forall k :: 1 <= k < |rounds| ==>
         Flatten(rounds[..k]) != [] && IsNextRound(ruleset, Flatten(rounds[..k]), PairsOf(rounds[k]))
  }

  lemma {:induction false} RoundOfAppend(a: seq<CompletedMatch>, b: seq<CompletedMatch>, round: int)
    ensures RoundOf(a + b, round) == RoundOf(a, round) + RoundOf(b, round)
    decreases |b|
  {
    if b == [] {
      assert a + b == a;
    } else {
      var front := b[..|b| - 1];
      assert (a + b)[..|a + b| - 1] == a + front;
      RoundOfAppend(a, front, round);
    }
  }

  lemma {:induction false} RoundOfAll(ms: seq<CompletedMatch>, round: int)
    requires forall m :: m in ms ==> m.round == round
    ensures RoundOf(ms, round) == ms
    decreases |ms|
  {
    if ms != [] {
      RoundOfAll(ms[..|ms| - 1], round);
      assert ms == ms[..|ms| - 1] + [ms[|ms| - 1]];
    }
  }

  lemma {:induction false} RoundOfNone(ms: seq<CompletedMatch>, round: int)
    requires forall m :: m in ms ==> m.round != round
    ensures RoundOf(ms, round) == []
    decreases |ms|
  {
    if ms != [] { RoundOfNone(ms[..|ms| - 1], round); }
  }

  lemma {:induction false} FlattenRounds(rounds: seq<seq<CompletedMatch>>)
    requires Numbered(rounds)
    ensures forall m :: m in Flatten(rounds) ==> 1 <= m.round <= |rounds|
    decreases |rounds|
  {
    if rounds != [] {
      var before, last := rounds[..|rounds| - 1], rounds[|rounds| - 1];
      FlattenRounds(before);
      assert RoundIs(last, |rounds|);
    }
  }

  /** Looking up the previous round in the flat list finds the last round. */
  lemma PrevRoundIsLast(rounds: seq<seq<CompletedMatch>>)
    requires Numbered(rounds) && rounds != []
    ensures Flatten(rounds) != [] && PrevRound(Flatten(rounds)) == rounds[|rounds| - 1]
    ensures LastRound(Flatten(rounds)) == |rounds|
  {
    hide RoundOf;
    var before, last := rounds[..|rounds| - 1], rounds[|rounds| - 1];
    var n := |rounds|;
    assert RoundIs(last, n);
    assert last[|last| - 1] in last;
    assert Numbered(before) by {
      assert forall k :: 0 <= k < |before| ==> before[k] == rounds[k];
    }
    FlattenRounds(before);
    RoundOfAppend(Flatten(before), last, n);
    RoundOfNone(Flatten(before), n);
    RoundOfAll(last, n);
  }

  lemma NumberedPrefix(rounds: seq<seq<CompletedMatch>>, k: nat)
    requires Numbered(rounds) && k <= |rounds|
    ensures Numbered(rounds[..k])
  {
    assert forall j :: 0 <= j < k ==> rounds[..k][j] == rounds[j];
  }

  lemma RunPrefix(ruleset: Ruleset, first: seq<Pair>, rounds: seq<seq<CompletedMatch>>, k: nat)
    requires IsRun(ruleset, first, rounds) && k <= |rounds|
    ensures IsRun(ruleset, first, rounds[..k])
  {
    hide IsNextRound, PairsOf, Flatten;
    NumberedPrefix(rounds, k);
    var some := rounds[..k];
    forall j | 1 <= j < |some|
      ensures Flatten(some[..j]) != [] && IsNextRound(ruleset, Flatten(some[..j]), PairsOf(some[j]))
    {
      assert some[..j] == rounds[..j];
    }
  }

  /** In a run each round is the matchmaking of the round just before it. */
  lemma RunStep(ruleset: Ruleset, first: seq<Pair>, rounds: seq<seq<CompletedMatch>>, k: nat)
    requires IsRun(ruleset, first, rounds) && 1 <= k < |rounds|
    ensures ruleset == Knockout ==> PairsOf(rounds[k]) == Neighbours(WinnersOf(rounds[k - 1]))
    ensures ruleset == RoundRobin ==> PairsOf(rounds[k]) == Rotated(PairsOf(rounds[k - 1]))
  {
    hide Neighbours, WinnersOf, Rotated, PairsOf, PrevRound;
    NumberedPrefix(rounds, k);
    PrevRoundIsLast(rounds[..k]);
    assert IsNextRound(ruleset, Flatten(rounds[..k]), PairsOf(rounds[k]));
  }
}
