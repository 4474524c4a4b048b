/** Who wins a tournament: the best of a scoring table, ties broken by Sonneborn-Berger. The
    maps are iterated in an arbitrary order, which is left open here. */
module Winners {
  import opened Wrappers
  import opened Results
  import opened Scoring
  import opened Sets

  datatype TieBreaker = NoTiebreaker | ByElo | BySonnebornBerger

  datatype Ruleset = Knockout | RoundRobin | Swiss

  /** A tournament's winner, or the panic of an empty scoring table. */
  datatype Winning = Winner(id: int, tiebreaker: TieBreaker) | Panic

  /** u is among the counted players of the table and none of them scores more. */
  ghost predicate IsTop(t: Table, skip: int -> bool, u: int) {
    u in t && !skip(u) && forall v :: v in t && !skip(v) ==> t[v] <= t[u]
  }

  /** The list of all top players, each once. */
  ghost predicate AreTops(ws: seq<int>, t: Table, skip: int -> bool) {
    ws != [] && Distinct(ws) && forall u :: u in ws <==> IsTop(t, skip, u)
  }

  /** Among the players seen so far: none counted scores more than `highest`, which is not
      negative, and ws are those that score just that. */
  ghost predicate BestSoFar(t: Table, skip: int -> bool, seen: set<int>, ws: seq<int>, highest: real) {
    && seen <= t.Keys && highest >= 0.0 && Distinct(ws)
    && (forall u :: u in ws <==> u in seen && !skip(u) && t[u] == highest)
    && (forall u :: u in seen && !skip(u) ==> t[u] <= highest)
    && (ws == [] ==> highest == 0.0)
  }

  lemma BestStep(t: Table, skip: int -> bool, seen: set<int>, ws: seq<int>, highest: real, u: int)
    requires BestSoFar(t, skip, seen, ws, highest) && u in t && u !in seen
    ensures skip(u) || t[u] < highest ==> BestSoFar(t, skip, seen + {u}, ws, highest)
    ensures !skip(u) && t[u] == highest ==> BestSoFar(t, skip, seen + {u}, ws + [u], highest)
    ensures !skip(u) && t[u] > highest ==> BestSoFar(t, skip, seen + {u}, [u], t[u])
  {
  }

  lemma BestAtEnd(t: Table, skip: int -> bool, ws: seq<int>, highest: real)
    requires BestSoFar(t, skip, t.Keys, ws, highest)
    ensures ws == [] <==> forall u :: u in t && !skip(u) ==> t[u] < 0.0
    ensures ws != [] ==> AreTops(ws, t, skip)
  {
    if ws != [] { assert ws[0] in ws; }
  }

  /** The search starts from a highest score of zero: it finds all the top players, in some
      order, unless every counted score is negative, when it panics. */
  method FindScoringTableWinners(t: Table, skip: int -> bool) returns (winners: Option<seq<int>>)
    ensures winners.None? <==> forall u :: u in t && !skip(u) ==> t[u] < 0.0
    ensures winners.Some? ==> AreTops(winners.value, t, skip)
  {
    hide BestSoFar, AreTops;
    var highest := 0.0;
    var ws: seq<int> := [];
    var remaining: set<int> := t.Keys;
    BestAtStart(t, skip);
    while remaining != {}
      invariant remaining <= t.Keys && BestSoFar(t, skip, t.Keys - remaining, ws, highest)
      decreases |remaining|
    {
      ghost var someone := SomeMember(remaining);
      var userID :| userID in remaining;
      BestStep(t, skip, t.Keys - remaining, ws, highest, userID);
      assert t.Keys - (remaining - {userID}) == (t.Keys - remaining) + {userID};
      remaining := remaining - {userID};
      if skip(userID) {
        continue;
      }
      var score := t[userID];
      if score == highest {
        ws := ws + [userID];
      } else if score > highest {
        ws := [userID];
        highest := score;
      }
    }
    assert t.Keys - remaining == t.Keys;
    BestAtEnd(t, skip, ws, highest);
    winners := if |ws| == 0 then None else Some(ws);
  }

  lemma BestAtStart(t: Table, skip: int -> bool)
    ensures BestSoFar(t, skip, t.Keys - t.Keys, [], 0.0)
  {
  }

  /** A knockout match goes to its winner, a draw to the higher Elo, white if they are equal. */
  function KnockoutWinner(m: CompletedMatch): (int, TieBreaker) {
    match m.result
    case WhiteWin => (m.whiteId, NoTiebreaker)
    case BlackWin => (m.blackId, NoTiebreaker)
    case Draw => (if m.whiteElo >= m.blackElo then m.whiteId else m.blackId, ByElo)
  }

  /** The player goes on from a knockout match: won it, or drew it with the higher Elo, white
      with the same one. */
  predicate GoesOn(m: CompletedMatch, u: int) {
    HasWon(m, u) || (m.result == Draw && u == (if m.blackElo > m.whiteElo then m.blackId else m.whiteId))
  }

  /** The winner of a knockout match is just that player; Elo decided it if it was drawn. */
  lemma KnockoutWinnerGoesOn(m: CompletedMatch, u: int)
    ensures KnockoutWinner(m).0 == u <==> GoesOn(m, u)
    ensures KnockoutWinner(m).1 == ByElo <==> m.result == Draw
    ensures KnockoutWinner(m).1 == NoTiebreaker <==> m.result != Draw
  {
  }

  ghost predicate NonNegativeElos(ms: seq<CompletedMatch>) {
    forall m :: m in ms ==> m.whiteElo >= 0.0 && m.blackElo >= 0.0
  }

  ghost predicate HasDecisive(ms: seq<CompletedMatch>) { exists m :: m in ms && m.result != Draw }

  /** Best by the first score; among those tied for best, best by Sonneborn-Berger. */
  ghost predicate IsTieBrokenWinner(ms: seq<CompletedMatch>, cs: seq<Credit>, players: set<int>, w: Winning) {
    var all := players + Users(cs);
    var sb := AllCredits(ms, SonnebornCredits);
    && w.Winner? && w.id in all
    && (forall v :: v in all ==> Score(cs, v) <= Score(cs, w.id))
    && (w.tiebreaker == NoTiebreaker ==>
          forall v :: v in all && v != w.id ==> Score(cs, v) < Score(cs, w.id))
    && (w.tiebreaker != NoTiebreaker ==>
          && w.tiebreaker == BySonnebornBerger
          && forall v :: v in all && Score(cs, v) == Score(cs, w.id) && v in Users(sb) ==> Score(sb, v) <= Score(sb, w.id))
  }

  function Nobody(): int -> bool { u => false }

  lemma OnlyTop(t: Table, ws: seq<int>)
    requires AreTops(ws, t, Nobody()) && |ws| == 1
    ensures ws[0] in t && forall v :: v in t && v != ws[0] ==> t[v] < t[ws[0]]
  {
    assert ws[0] in ws;
    forall v | v in t && v != ws[0]
      ensures t[v] < t[ws[0]]
    {
      if t[v] >= t[ws[0]] { assert IsTop(t, Nobody(), v); }
    }
  }

  /** The winner by a first table and, if several are tied, by the Sonneborn-Berger one. */
  method FindTableWinner(ms: seq<CompletedMatch>, t: Table, ghost cs: seq<Credit>, ghost players: set<int>) returns (w: Winning)
    requires IsTable(t, cs, players)
    ensures w.Winner? ==> IsTieBrokenWinner(ms, cs, players, w)
    ensures w.Panic? ==>
              || (forall u :: u in t ==> t[u] < 0.0)
              || (exists u :: IsTop(t, Nobody(), u) && t[u] >= 0.0 &&
                   (u !in Users(AllCredits(ms, SonnebornCredits)) || Score(AllCredits(ms, SonnebornCredits), u) < 0.0))
    ensures (forall u :: u in t ==> t[u] < 0.0) ==> w.Panic?
  {
    hide IsTable, AreTops, IsTop, IsTieBrokenWinner, AllCredits, Score, Users;
    var tops := FindScoringTableWinners(t, Nobody());
    if tops.None? {
      return Panic;
    }
    AreSome(tops.value, t, Nobody());
    if |tops.value| == 1 {
      OnlyTopWins(ms, t, cs, players, tops.value);
      return Winner(tops.value[0], NoTiebreaker);
    }
    var sonneborn := MakeSonnebornTable(ms);
    var tied := tops.value;
    var best := FindScoringTableWinners(sonneborn, OutsideOf(tied));
    if best.None? {
      TiedWithoutScore(ms, t, sonneborn, tied);
      return Panic;
    }
    AreSome(best.value, sonneborn, OutsideOf(tied));
    BestOfTied(ms, t, cs, players, tied, sonneborn, best.value);
    w := Winner(best.value[0], BySonnebornBerger);
  }

  /** Skips all but the listed players. */
  function OutsideOf(ids: seq<int>): int -> bool { u => u !in ids }

  lemma AreSome(ws: seq<int>, t: Table, skip: int -> bool)
    requires AreTops(ws, t, skip)
    ensures ws != [] && IsTop(t, skip, ws[0]) && ws[0] in t
  {
    assert ws[0] in ws;
  }

  lemma OnlyTopWins(ms: seq<CompletedMatch>, t: Table, cs: seq<Credit>, players: set<int>, tops: seq<int>)
    requires IsTable(t, cs, players) && AreTops(tops, t, Nobody()) && |tops| == 1
    ensures IsTieBrokenWinner(ms, cs, players, Winner(tops[0], NoTiebreaker))
  {
    hide Score, AllCredits;
    OnlyTop(t, tops);
  }

  lemma TiedWithoutScore(ms: seq<CompletedMatch>, t: Table, sonneborn: Table, tied: seq<int>)
    requires AreTops(tied, t, Nobody()) && IsTable(sonneborn, AllCredits(ms, SonnebornCredits), {})
    requires forall u :: u in sonneborn && !OutsideOf(tied)(u) ==> sonneborn[u] < 0.0
    ensures var sb := AllCredits(ms, SonnebornCredits);
            IsTop(t, Nobody(), tied[0]) && (tied[0] !in Users(sb) || Score(sb, tied[0]) < 0.0)
  {
    hide Score, AllCredits;
    assert tied[0] in tied;
  }

  lemma BestOfTied(ms: seq<CompletedMatch>, t: Table, cs: seq<Credit>, players: set<int>, tied: seq<int>,
                   sonneborn: Table, best: seq<int>)
    requires IsTable(t, cs, players) && AreTops(tied, t, Nobody())
    requires IsTable(sonneborn, AllCredits(ms, SonnebornCredits), {}) && AreTops(best, sonneborn, OutsideOf(tied))
    ensures IsTieBrokenWinner(ms, cs, players, Winner(best[0], BySonnebornBerger))
  {
    hide Score, AllCredits;
    assert best[0] in best && best[0] in tied;
    forall v | v in t && t[v] == t[best[0]]
      ensures v in tied
    {
      assert IsTop(t, Nobody(), v);
    }
  }

  // ----- when a scoring table has a winner -----

  ghost predicate NoNegative(cs: seq<Credit>) { forall c :: c in cs ==> c.amount >= 0.0 }

  lemma {:induction false} ScoreAtLeast(cs: seq<Credit>, c: Credit)
    requires NoNegative(cs)
    ensures Score(cs, c.user) >= 0.0
    ensures c in cs ==> Score(cs, c.user) >= c.amount
    decreases |cs|
  {
    if cs != [] {
      var before := cs[..|cs| - 1];
      assert cs == before + [cs[|cs| - 1]];
      assert NoNegative(before) by { assert forall d :: d in before ==> d in cs; }
      ScoreAtLeast(before, c);
    }
  }

  lemma {:induction false} CreditsOf(ms: seq<CompletedMatch>, credits: CompletedMatch -> seq<Credit>)
    ensures forall c :: c in AllCredits(ms, credits) <==> exists m :: m in ms && c in credits(m)
    decreases |ms|
  {
    if ms != [] {
      var before, last := ms[..|ms| - 1], ms[|ms| - 1];
      CreditsOf(before, credits);
      assert ms == before + [last];
      assert forall m :: m in ms <==> m in before || m == last;
    }
  }

  /** Who scores a win or a Swiss point has a Sonneborn-Berger score, not a negative one. */
  lemma ScorersAreInSonneborn(ms: seq<CompletedMatch>, credits: CompletedMatch -> seq<Credit>, u: int)
    requires credits == WinCredits || credits == SwissCredits
    requires NonNegativeElos(ms) && u in Users(AllCredits(ms, credits))
    ensures u in Users(AllCredits(ms, SonnebornCredits)) && Score(AllCredits(ms, SonnebornCredits), u) >= 0.0
  {
    hide AllCredits, Score;
    var sb := AllCredits(ms, SonnebornCredits);
    CreditsOf(ms, credits);
    CreditsOf(ms, SonnebornCredits);
    var c :| c in AllCredits(ms, credits) && c.user == u;
    var m :| m in ms && c in credits(m);
    var d := CreditOfScorer(m, credits, c);
    assert d in sb;
    assert NoNegative(sb) by {
      forall e | e in sb
        ensures e.amount >= 0.0
      {
        var n :| n in ms && e in SonnebornCredits(n);
      }
    }
    ScoreAtLeast(sb, d);
  }

  lemma CreditOfScorer(m: CompletedMatch, credits: CompletedMatch -> seq<Credit>, c: Credit) returns (d: Credit)
    requires credits == WinCredits || credits == SwissCredits
    requires c in credits(m)
    ensures d in SonnebornCredits(m) && d.user == c.user
  {
    var ds := SonnebornCredits(m);
    d := if ds[0].user == c.user then ds[0] else ds[1];
    assert ds[0] in ds;
  }

  lemma PointsArePositive(ms: seq<CompletedMatch>, credits: CompletedMatch -> seq<Credit>)
    requires credits == WinCredits || credits == SwissCredits
    ensures forall c :: c in AllCredits(ms, credits) ==> c.amount > 0.0
  {
    hide AllCredits;
    CreditsOf(ms, credits);
    forall c | c in AllCredits(ms, credits)
      ensures c.amount > 0.0
    {
      var m :| m in ms && c in credits(m);
    }
  }

  /** With some point given, the top players of the table are players that were given points. */
  lemma TopHasPoints(ms: seq<CompletedMatch>, credits: CompletedMatch -> seq<Credit>, t: Table, players: set<int>, c: Credit)
    requires credits == WinCredits || credits == SwissCredits
    requires IsTable(t, AllCredits(ms, credits), players) && c in AllCredits(ms, credits)
    ensures c.user in t && t[c.user] >= 0.0
    ensures forall u :: IsTop(t, Nobody(), u) ==> u in Users(AllCredits(ms, credits))
  {
    hide AllCredits, Score;
    var cs := AllCredits(ms, credits);
    PointsArePositive(ms, credits);
    assert NoNegative(cs);
    ScoreAtLeast(cs, c);
    assert c.user in Users(cs);
    forall u | IsTop(t, Nobody(), u)
      ensures u in Users(cs)
    {
      assert t[c.user] <= t[u];
      if u !in Users(cs) { NotCredited(cs, u); }
    }
  }

  /** No panic once a point was given, for Elos that are not negative. */
  lemma NoPanic(ms: seq<CompletedMatch>, credits: CompletedMatch -> seq<Credit>, t: Table, players: set<int>, c: Credit)
    requires credits == WinCredits || credits == SwissCredits
    requires NonNegativeElos(ms)
    requires IsTable(t, AllCredits(ms, credits), players) && c in AllCredits(ms, credits)
    ensures exists u :: u in t && t[u] >= 0.0
    ensures forall u :: IsTop(t, Nobody(), u) ==>
              u in Users(AllCredits(ms, SonnebornCredits)) && Score(AllCredits(ms, SonnebornCredits), u) >= 0.0
  {
    hide AllCredits, Score, IsTable, IsTop, NonNegativeElos;
    TopHasPoints(ms, credits, t, players, c);
    forall u | IsTop(t, Nobody(), u)
      ensures u in Users(AllCredits(ms, SonnebornCredits)) && Score(AllCredits(ms, SonnebornCredits), u) >= 0.0
    {
      ScorersAreInSonneborn(ms, credits, u);
    }
  }

  lemma DecisiveIsCredited(ms: seq<CompletedMatch>)
    ensures HasDecisive(ms) ==> exists c :: c in AllCredits(ms, WinCredits)
    ensures !HasDecisive(ms) ==> Users(AllCredits(ms, WinCredits)) == {}
  {
    hide AllCredits;
    CreditsOf(ms, WinCredits);
    if HasDecisive(ms) {
      var m :| m in ms && m.result != Draw;
      var c := WinCredits(m)[0];
      assert c in WinCredits(m);
      assert c in AllCredits(ms, WinCredits);
    }
  }

  lemma AnyMatchIsCredited(ms: seq<CompletedMatch>)
    requires ms != []
    ensures exists c :: c in AllCredits(ms, SwissCredits)
  {
    hide AllCredits;
    CreditsOf(ms, SwissCredits);
    var c := SwissCredits(ms[0])[0];
    assert ms[0] in ms && c in SwissCredits(ms[0]);
    assert c in AllCredits(ms, SwissCredits);
  }

  method FindRoundRobinWinner(ms: seq<CompletedMatch>) returns (w: Winning)
    ensures w.Winner? ==> IsTieBrokenWinner(ms, AllCredits(ms, WinCredits), {}, w)
    ensures NonNegativeElos(ms) ==> (w.Panic? <==> !HasDecisive(ms))
  {
    hide AllCredits, Score, IsTop, NonNegativeElos, HasDecisive, IsTieBrokenWinner;
    var t := MakeWinCountTable(ms);
    w := FindTableWinner(ms, t, AllCredits(ms, WinCredits), {});
    DecisiveIsCredited(ms);
    if NonNegativeElos(ms) && HasDecisive(ms) {
      ghost var c :| c in AllCredits(ms, WinCredits);
      NoPanic(ms, WinCredits, t, {}, c);
    }
  }

  method FindSwissWinner(ms: seq<CompletedMatch>) returns (w: Winning)
    ensures w.Winner? ==> IsTieBrokenWinner(ms, AllCredits(ms, SwissCredits), Seats(ms), w)
    ensures NonNegativeElos(ms) ==> (w.Panic? <==> ms == [])
  {
    hide AllCredits, Score, IsTop, NonNegativeElos, IsTieBrokenWinner;
    var t := MakeSwissTable(ms);
    w := FindTableWinner(ms, t, AllCredits(ms, SwissCredits), Seats(ms));
    if NonNegativeElos(ms) && ms != [] {
      AnyMatchIsCredited(ms);
      ghost var c :| c in AllCredits(ms, SwissCredits);
      NoPanic(ms, SwissCredits, t, Seats(ms), c);
    }
  }

  /** The winner of a tournament. Round-robin panics just when every match was drawn; a Swiss
      tournament with a match always has a winner. */
  method FindTournamentWinner(ruleset: Ruleset, ms: seq<CompletedMatch>) returns (w: Winning)
    ensures ruleset == Knockout && ms != [] ==>
              w == Winner(KnockoutWinner(ms[|ms| - 1]).0, KnockoutWinner(ms[|ms| - 1]).1)
    ensures ruleset == Knockout ==> (w.Panic? <==> ms == [])
    ensures ruleset == RoundRobin && w.Winner? ==> IsTieBrokenWinner(ms, AllCredits(ms, WinCredits), {}, w)
    ensures ruleset == RoundRobin && NonNegativeElos(ms) ==> (w.Panic? <==> !HasDecisive(ms))
    ensures ruleset == Swiss && w.Winner? ==> IsTieBrokenWinner(ms, AllCredits(ms, SwissCredits), Seats(ms), w)
    ensures ruleset == Swiss && NonNegativeElos(ms) ==> (w.Panic? <==> ms == [])
  {
    hide AllCredits, NonNegativeElos, HasDecisive, IsTieBrokenWinner;
    match ruleset {
      case Knockout =>
        if |ms| == 0 {
          return Panic;
        }
        var (id, tiebreaker) := KnockoutWinner(ms[|ms| - 1]);
        w := Winner(id, tiebreaker);
      case RoundRobin =>
        w := FindRoundRobinWinner(ms);
      case Swiss =>
        w := FindSwissWinner(ms);
    }
  }
}
