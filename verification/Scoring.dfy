/** The scoring tables of a tournament: wins, Swiss points, Sonneborn-Berger. Each match
    credits amounts to players; a table adds up what its players were credited. */
module Scoring {
  import opened Results

  datatype CompletedMatch = CompletedMatch(round: int, whiteId: int, blackId: int,
                                           whiteElo: real, blackElo: real, result: ReplayResult)

  datatype Credit = Credit(user: int, amount: real)

  type Table = map<int, real>

  function WinCredits(m: CompletedMatch): seq<Credit> {
    match m.result
    case WhiteWin => [Credit(m.whiteId, 1.0)]
    case BlackWin => [Credit(m.blackId, 1.0)]
    case Draw => []
  }

  function SonnebornCredits(m: CompletedMatch): seq<Credit> {
    match m.result
    case WhiteWin => [Credit(m.whiteId, m.blackElo)]
    case BlackWin => [Credit(m.blackId, m.whiteElo)]
    case Draw => [Credit(m.whiteId, m.blackElo / 2.0), Credit(m.blackId, m.whiteElo / 2.0)]
  }

  function SwissCredits(m: CompletedMatch): seq<Credit> {
    match m.result
    case WhiteWin => [Credit(m.whiteId, 1.0)]
    case BlackWin => [Credit(m.blackId, 1.0)]
    case Draw => [Credit(m.whiteId, 0.5), Credit(m.blackId, 0.5)]
  }

  function AllCredits(ms: seq<CompletedMatch>, credits: CompletedMatch -> seq<Credit>): seq<Credit>
    decreases |ms|
  {
    if ms == [] then [] else AllCredits(ms[..|ms| - 1], credits) + credits(ms[|ms| - 1])
  }

  /** What a player was credited in all. */
  function Score(cs: seq<Credit>, u: int): real
    decreases |cs|
  {
    if cs == [] then 0.0
    else Score(cs[..|cs| - 1], u) + (if cs[|cs| - 1].user == u then cs[|cs| - 1].amount else 0.0)
  }

  function Users(cs: seq<Credit>): set<int> { set c | c in cs :: c.user }

  function Seats(ms: seq<CompletedMatch>): set<int> {
    (set m | m in ms :: m.whiteId) + (set m | m in ms :: m.blackId)
  }

  /** A table of the given players and all who were credited, with what each was credited. */
  ghost predicate IsTable(t: Table, cs: seq<Credit>, players: set<int>) {
    t.Keys == players + Users(cs) && forall u :: u in t ==> t[u] == Score(cs, u)
  }

  /** Adds to an entry that counts as zero when absent. */
  function Added(t: Table, u: int, amount: real): Table {
    t[u := (if u in t then t[u] else 0.0) + amount]
  }

  lemma AddedIsTable(t: Table, cs: seq<Credit>, players: set<int>, c: Credit)
    requires IsTable(t, cs, players)
    ensures IsTable(Added(t, c.user, c.amount), cs + [c], players)
  {
    var r, ds := Added(t, c.user, c.amount), cs + [c];
    assert ds[..|ds| - 1] == cs;
    if c.user !in t { NotCredited(cs, c.user); }
    forall u | u in r
      ensures r[u] == Score(ds, u)
    {
    }
    assert r.Keys == players + Users(ds) by {
      assert forall d :: d in ds <==> d in cs || d == c;
    }
  }

  lemma {:induction false} NotCredited(cs: seq<Credit>, u: int)
    requires u !in Users(cs)
    ensures Score(cs, u) == 0.0
    decreases |cs|
  {
    if cs != [] {
      var before := cs[..|cs| - 1];
      assert cs[|cs| - 1] in cs;
      assert u !in Users(before) by { assert forall c :: c in before ==> c in cs; }
      NotCredited(before, u);
    }
  }

  lemma AllCreditsStep(ms: seq<CompletedMatch>, i: nat, credits: CompletedMatch -> seq<Credit>)
    requires i < |ms|
    ensures AllCredits(ms[..i + 1], credits) == AllCredits(ms[..i], credits) + credits(ms[i])
  {
    assert ms[..i + 1][..i] == ms[..i];
  }

  method MakeWinCountTable(ms: seq<CompletedMatch>) returns (t: Table)
    ensures IsTable(t, AllCredits(ms, WinCredits), {})
  {
    hide IsTable;
    t := map[];
    EmptyTable({});
    for i := 0 to |ms|
      invariant IsTable(t, AllCredits(ms[..i], WinCredits), {})
    {
      ghost var cs := AllCredits(ms[..i], WinCredits);
      AllCreditsStep(ms, i, WinCredits);
      match ms[i].result {
        case WhiteWin =>
          AddedIsTable(t, cs, {}, Credit(ms[i].whiteId, 1.0));
          t := Added(t, ms[i].whiteId, 1.0);
        case BlackWin =>
          AddedIsTable(t, cs, {}, Credit(ms[i].blackId, 1.0));
          t := Added(t, ms[i].blackId, 1.0);
        case Draw =>
          assert cs + [] == cs;
      }
    }
    assert ms[..|ms|] == ms;
  }

  lemma EmptyTable(players: set<int>)
    requires players == {}
    ensures IsTable(map[], [], players)
  {
  }

  /** One match into a table, its two credits one after the other. */
  method AddTwo(t: Table, ghost cs: seq<Credit>, ghost players: set<int>, a: Credit, b: Credit) returns (r: Table)
    requires IsTable(t, cs, players)
    ensures IsTable(r, cs + [a, b], players)
  {
    hide IsTable;
    AddedIsTable(t, cs, players, a);
    r := Added(t, a.user, a.amount);
    AddedIsTable(r, cs + [a], players, b);
    r := Added(r, b.user, b.amount);
    assert cs + [a] + [b] == cs + [a, b];
  }

  method MakeSonnebornTable(ms: seq<CompletedMatch>) returns (t: Table)
    ensures IsTable(t, AllCredits(ms, SonnebornCredits), {})
  {
    hide IsTable;
    t := map[];
    EmptyTable({});
    for i := 0 to |ms|
      invariant IsTable(t, AllCredits(ms[..i], SonnebornCredits), {})
    {
      ghost var cs := AllCredits(ms[..i], SonnebornCredits);
      AllCreditsStep(ms, i, SonnebornCredits);
      match ms[i].result {
        case WhiteWin =>
          AddedIsTable(t, cs, {}, Credit(ms[i].whiteId, ms[i].blackElo));
          t := Added(t, ms[i].whiteId, ms[i].blackElo);
        case BlackWin =>
          AddedIsTable(t, cs, {}, Credit(ms[i].blackId, ms[i].whiteElo));
          t := Added(t, ms[i].blackId, ms[i].whiteElo);
        case Draw =>
          t := AddTwo(t, cs, {}, Credit(ms[i].whiteId, ms[i].blackElo / 2.0), Credit(ms[i].blackId, ms[i].whiteElo / 2.0));
      }
    }
    assert ms[..|ms|] == ms;
  }

  /** Every seated player starts at zero, also one who never scores. */
  method MakeSwissTable(ms: seq<CompletedMatch>) returns (t: Table)
    ensures IsTable(t, AllCredits(ms, SwissCredits), Seats(ms))
    ensures t.Keys == Seats(ms)
  {
    t := map[];
    for i := 0 to |ms|
      invariant t.Keys == Seats(ms[..i]) && forall u :: u in t ==> t[u] == 0.0
    {
      assert forall m :: m in ms[..i + 1] <==> m in ms[..i] || m == ms[i];
      t := t[ms[i].whiteId := 0.0];
      t := t[ms[i].blackId := 0.0];
    }
    assert ms[..|ms|] == ms;
    assert IsTable(t, [], Seats(ms));
    for i := 0 to |ms|
      invariant IsTable(t, AllCredits(ms[..i], SwissCredits), Seats(ms))
    {
      hide IsTable;
      ghost var cs := AllCredits(ms[..i], SwissCredits);
      AllCreditsStep(ms, i, SwissCredits);
      match ms[i].result {
        case WhiteWin =>
          AddedIsTable(t, cs, Seats(ms), Credit(ms[i].whiteId, 1.0));
          t := Added(t, ms[i].whiteId, 1.0);
        case BlackWin =>
          AddedIsTable(t, cs, Seats(ms), Credit(ms[i].blackId, 1.0));
          t := Added(t, ms[i].blackId, 1.0);
        case Draw =>
          t := AddTwo(t, cs, Seats(ms), Credit(ms[i].whiteId, 0.5), Credit(ms[i].blackId, 0.5));
      }
    }
    SwissUsersAreSeated(ms);
  }

  lemma {:induction false} SwissUsersAreSeated(ms: seq<CompletedMatch>)
    ensures Users(AllCredits(ms, SwissCredits)) <= Seats(ms)
    decreases |ms|
  {
    if ms != [] {
      var before, m := ms[..|ms| - 1], ms[|ms| - 1];
      SwissUsersAreSeated(before);
      assert m in ms && forall n :: n in before ==> n in ms;
      forall c | c in AllCredits(ms, SwissCredits)
        ensures c.user in Seats(ms)
      {
        if c in AllCredits(before, SwissCredits) { assert c.user in Users(AllCredits(before, SwissCredits)); }
      }
    }
  }

  // ----- the points of all players together -----

  function Amounts(cs: seq<Credit>): real
    decreases |cs|
  {
    if cs == [] then 0.0 else Amounts(cs[..|cs| - 1]) + cs[|cs| - 1].amount
  }

  /** The scores of the listed players added up. */
  function ScoreSum(ids: seq<int>, cs: seq<Credit>): real
    decreases |ids|
  {
    if ids == [] then 0.0 else Score(cs, ids[0]) + ScoreSum(ids[1..], cs)
  }

  predicate Distinct(ids: seq<int>) { forall i, j :: 0 <= i < j < |ids| ==> ids[i] != ids[j] }

  lemma {:induction false} ScoreSumStep(ids: seq<int>, cs: seq<Credit>, c: Credit)
    requires Distinct(ids)
    ensures ScoreSum(ids, cs + [c]) == ScoreSum(ids, cs) + (if c.user in ids then c.amount else 0.0)
    decreases |ids|
  {
    if ids != [] {
      ScoreSumStep(ids[1..], cs, c);
      assert (cs + [c])[..|cs + [c]| - 1] == cs;
      assert ids == [ids[0]] + ids[1..];
    }
  }

  lemma {:induction false} ScoresAddUp(ids: seq<int>, cs: seq<Credit>)
    requires Distinct(ids) && forall c :: c in cs ==> c.user in ids
    ensures ScoreSum(ids, cs) == Amounts(cs)
    decreases |cs|
  {
    if cs == [] {
      NothingScored(ids);
    } else {
      var before, c := cs[..|cs| - 1], cs[|cs| - 1];
      assert cs == before + [c];
      ScoresAddUp(ids, before);
      ScoreSumStep(ids, before, c);
    }
  }

  lemma {:induction false} NothingScored(ids: seq<int>)
    ensures ScoreSum(ids, []) == 0.0
    decreases |ids|
  {
    if ids != [] { NothingScored(ids[1..]); }
  }

  lemma AmountsAppend(a: seq<Credit>, b: seq<Credit>)
    requires |b| <= 2
    ensures Amounts(a + b) == Amounts(a) + (if |b| > 0 then b[0].amount else 0.0) + (if |b| > 1 then b[1].amount else 0.0)
  {
    var s := a + b;
    if |b| == 0 {
      assert s == a;
    } else {
      assert s[..|s| - 1] == a + b[..|b| - 1];
      if |b| == 2 { assert (a + b[..1])[..|a|] == a; } else { assert b[..0] == [] && a + [] == a; }
    }
  }

  lemma {:induction false} SwissAmounts(ms: seq<CompletedMatch>)
    ensures Amounts(AllCredits(ms, SwissCredits)) == |ms| as real
    decreases |ms|
  {
    if ms != [] {
      SwissAmounts(ms[..|ms| - 1]);
      AmountsAppend(AllCredits(ms[..|ms| - 1], SwissCredits), SwissCredits(ms[|ms| - 1]));
    }
  }

  /** The Swiss scores of all players together are the number of matches. */
  lemma SwissScoresSumToMatches(ms: seq<CompletedMatch>, ids: seq<int>)
    requires Distinct(ids) && forall u :: u in Seats(ms) ==> u in ids
    ensures ScoreSum(ids, AllCredits(ms, SwissCredits)) == |ms| as real
  {
    var cs := AllCredits(ms, SwissCredits);
    SwissUsersAreSeated(ms);
    forall c | c in cs
      ensures c.user in ids
    {
      assert c.user in Users(cs);
    }
    ScoresAddUp(ids, cs);
    SwissAmounts(ms);
  }

  // ----- the scores in chess terms -----

  /** What a match gives one of its seats: one point for a win, half a point for a draw. */
  function Points(m: CompletedMatch, white: bool): real {
    if m.result == Draw then 0.5 else if (m.result == WhiteWin) == white then 1.0 else 0.0
  }

  /** The points of a player over all matches, from either seat. */
  function TotalPoints(ms: seq<CompletedMatch>, u: int): real
    decreases |ms|
  {
    if ms == [] then 0.0
    else
      var m := ms[|ms| - 1];
      TotalPoints(ms[..|ms| - 1], u)
      + (if m.whiteId == u then Points(m, true) else 0.0) + (if m.blackId == u then Points(m, false) else 0.0)
  }

  /** The same, each match weighted by the Elo of the opponent: Sonneborn-Berger by Elo. */
  function WeightedPoints(ms: seq<CompletedMatch>, u: int): real
    decreases |ms|
  {
    if ms == [] then 0.0
    else
      var m := ms[|ms| - 1];
      WeightedPoints(ms[..|ms| - 1], u)
      + (if m.whiteId == u then Points(m, true) * m.blackElo else 0.0)
      + (if m.blackId == u then Points(m, false) * m.whiteElo else 0.0)
  }

  /** The player has won the match, by its result. */
  predicate HasWon(m: CompletedMatch, u: int) {
    (m.result == WhiteWin && m.whiteId == u) || (m.result == BlackWin && m.blackId == u)
  }

  function WinsOf(ms: seq<CompletedMatch>, u: int): nat
    decreases |ms|
  {
    if ms == [] then 0 else WinsOf(ms[..|ms| - 1], u) + (if HasWon(ms[|ms| - 1], u) then 1 else 0)
  }

  lemma ScoreAppend(a: seq<Credit>, b: seq<Credit>, u: int)
    requires |b| <= 2
    ensures Score(a + b, u) == Score(a, u)
              + (if |b| > 0 && b[0].user == u then b[0].amount else 0.0)
              + (if |b| > 1 && b[1].user == u then b[1].amount else 0.0)
  {
    if |b| == 0 {
      assert a + b == a;
    } else if |b| == 1 {
      assert (a + b)[..|a|] == a;
    } else {
      assert (a + b)[..|a| + 1] == a + [b[0]];
      assert (a + [b[0]])[..|a|] == a;
    }
  }

  /** The Swiss score of a player is the points they made. */
  lemma {:induction false} SwissIsPoints(ms: seq<CompletedMatch>, u: int)
    ensures Score(AllCredits(ms, SwissCredits), u) == TotalPoints(ms, u)
    decreases |ms|
  {
    hide Score;
    if ms == [] {
      NotCredited(AllCredits(ms, SwissCredits), u);
    } else {
      SwissIsPoints(ms[..|ms| - 1], u);
      ScoreAppend(AllCredits(ms[..|ms| - 1], SwissCredits), SwissCredits(ms[|ms| - 1]), u);
    }
  }

  /** The Sonneborn-Berger score is the points weighted by the opponents' Elos. */
  lemma {:induction false} SonnebornIsWeighted(ms: seq<CompletedMatch>, u: int)
    ensures Score(AllCredits(ms, SonnebornCredits), u) == WeightedPoints(ms, u)
    decreases |ms|
  {
    hide Score;
    if ms == [] {
      NotCredited(AllCredits(ms, SonnebornCredits), u);
    } else {
      SonnebornIsWeighted(ms[..|ms| - 1], u);
      ScoreAppend(AllCredits(ms[..|ms| - 1], SonnebornCredits), SonnebornCredits(ms[|ms| - 1]), u);
    }
  }

  /** The win count is the number of matches won, and exactly the players with a win have one. */
  lemma {:induction false} WinCountIsWins(ms: seq<CompletedMatch>, u: int)
    ensures Score(AllCredits(ms, WinCredits), u) == WinsOf(ms, u) as real
    ensures u in Users(AllCredits(ms, WinCredits)) <==> WinsOf(ms, u) > 0
    decreases |ms|
  {
    hide Score;
    if ms == [] {
      NotCredited(AllCredits(ms, WinCredits), u);
    } else {
      var before, last := AllCredits(ms[..|ms| - 1], WinCredits), WinCredits(ms[|ms| - 1]);
      WinCountIsWins(ms[..|ms| - 1], u);
      ScoreAppend(before, last, u);
      UsersAppend(before, last, u);
    }
  }

  lemma UsersAppend(a: seq<Credit>, b: seq<Credit>, u: int)
    ensures u in Users(a + b) <==> u in Users(a) || u in Users(b)
  {
    if u in Users(a) {
      var c :| c in a && c.user == u;
      assert c in a + b;
    }
    if u in Users(b) {
      var c :| c in b && c.user == u;
      assert c in a + b;
    }
  }

  lemma {:induction false} PointsNotNegative(ms: seq<CompletedMatch>, u: int)
    ensures TotalPoints(ms, u) >= 0.0
    decreases |ms|
  {
    if ms != [] { PointsNotNegative(ms[..|ms| - 1], u); }
  }

  /** The players with a Sonneborn-Berger score are those who made a point at all. */
  lemma {:induction false} CreditedHavePoints(ms: seq<CompletedMatch>, u: int)
    ensures u in Users(AllCredits(ms, SonnebornCredits)) <==> TotalPoints(ms, u) > 0.0
    decreases |ms|
  {
    if ms != [] {
      var front := ms[..|ms| - 1];
      CreditedHavePoints(front, u);
      PointsNotNegative(front, u);
      UsersAppend(AllCredits(front, SonnebornCredits), SonnebornCredits(ms[|ms| - 1]), u);
      LastCredited(ms[|ms| - 1], u);
    }
  }

  lemma LastCredited(m: CompletedMatch, u: int)
    ensures u in Users(SonnebornCredits(m)) <==>
              (m.whiteId == u && Points(m, true) > 0.0) || (m.blackId == u && Points(m, false) > 0.0)
  {
    if m.result == Draw {
      assert SonnebornCredits(m)[0] in SonnebornCredits(m) && SonnebornCredits(m)[1] in SonnebornCredits(m);
    } else {
      assert SonnebornCredits(m)[0] in SonnebornCredits(m);
    }
  }

  lemma {:induction false} WinsGivePoints(ms: seq<CompletedMatch>, u: int)
    ensures TotalPoints(ms, u) >= WinsOf(ms, u) as real
    decreases |ms|
  {
    if ms != [] { WinsGivePoints(ms[..|ms| - 1], u); }
  }
}
