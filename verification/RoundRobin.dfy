/** The round-robin schedule in closed form. White of the first match never moves; the other
    players sit in a cycle of seats and move on by one seat each round. */
module RoundRobins {
  import opened Division
  import opened Matcher
  import opened Pairing
  import opened Rounds
  import opened Scoring
  import opened Winners

  /** How many seats the cycle has. */
  function CycleLength(n: nat): nat
    requires n >= 1
  {
    2 * n - 1
  }

  /** The player on a seat: seat 0 is black of the first match, then white and black of each
      further match. */
  function At(ps: seq<Pair>, seat: nat): int
    requires ps != [] && seat < CycleLength(|ps|)
  {
    if seat % 2 == 0 then ps[seat / 2].black else ps[(seat + 1) / 2].white
  }

  /** The schedule: the pairs of round k, counted from 0. */
  function Schedule(first: seq<Pair>, k: nat): (ps: seq<Pair>)
    ensures |ps| == |first|
    decreases k
  {
    if k == 0 then first else Rotated(Schedule(first, k - 1))
  }

  /** The seat a player had at the start who sits on this seat in round k. */
  function Origin(n: nat, seat: nat, k: nat): (s: nat)
    requires n >= 1 && seat < CycleLength(n)
    ensures s < CycleLength(n)
  {
    (seat - k) % CycleLength(n)
  }

  /** One round moves every player one seat on. */
  lemma RotationMovesOneSeat(ps: seq<Pair>, seat: nat)
    requires ps != [] && seat < CycleLength(|ps|)
    ensures Rotated(ps)[0].white == ps[0].white
    ensures At(Rotated(ps), seat) == At(ps, if seat == 0 then CycleLength(|ps|) - 1 else seat - 1)
  {
    hide Rotated;
    RotatedAt(ps, 0);
    if seat % 2 == 0 {
      RotatedAt(ps, seat / 2);
    } else {
      RotatedAt(ps, (seat + 1) / 2);
    }
  }

  lemma OriginStep(n: nat, seat: nat, k: nat)
    requires n >= 1 && seat < CycleLength(n) && k >= 1
    ensures Origin(n, seat, k) == Origin(n, if seat == 0 then CycleLength(n) - 1 else seat - 1, k - 1)
  {
    if seat == 0 {
      ModPlus(0 - k, CycleLength(n));
    }
  }

  lemma ModPlus(x: int, m: nat)
    requires m >= 1
    ensures (x + m) % m == x % m
  {
    ModShift(x, 1, m);
  }

  /** The closed form of the schedule: the anchor stays and everyone else has moved k seats. */
  lemma {:induction false} ScheduleClosedForm(first: seq<Pair>, k: nat, seat: nat)
    requires first != [] && seat < CycleLength(|first|)
    ensures Schedule(first, k)[0].white == first[0].white
    ensures At(Schedule(first, k), seat) == At(first, Origin(|first|, seat, k))
    decreases k
  {
    hide At, Origin, Rotated;
    if k == 0 {
      StaysInRoundZero(|first|, seat);
    } else {
      var n := |first|;
      RotationMovesOneSeat(Schedule(first, k - 1), seat);
      OriginStep(n, seat, k);
      ScheduleClosedForm(first, k - 1, if seat == 0 then CycleLength(n) - 1 else seat - 1);
    }
  }

  lemma StaysInRoundZero(n: nat, seat: nat)
    requires n >= 1 && seat < CycleLength(n)
    ensures Origin(n, seat, 0) == seat
  {
  }

  lemma SameSeats(ps: seq<Pair>, qs: seq<Pair>)
    requires |ps| == |qs| && ps != [] && ps[0].white == qs[0].white
    requires forall seat :: 0 <= seat < CycleLength(|ps|) ==> At(ps, seat) == At(qs, seat)
    ensures ps == qs
  {
    forall i | 0 <= i < |ps|
      ensures ps[i] == qs[i]
    {
      assert At(ps, 2 * i) == At(qs, 2 * i);
      if i > 0 { assert At(ps, 2 * i - 1) == At(qs, 2 * i - 1); }
    }
  }

  /** The schedule repeats after as many rounds as the cycle has seats. */
  lemma SchedulePeriod(first: seq<Pair>, k: nat)
    requires first != []
    ensures Schedule(first, k + CycleLength(|first|)) == Schedule(first, k)
  {
    hide At, Origin, Schedule;
    var n := |first|;
    var ps, qs := Schedule(first, k + CycleLength(n)), Schedule(first, k);
    ScheduleClosedForm(first, k + CycleLength(n), 0);
    ScheduleClosedForm(first, k, 0);
    forall seat | 0 <= seat < CycleLength(n)
      ensures At(ps, seat) == At(qs, seat)
    {
      ScheduleClosedForm(first, k + CycleLength(n), seat);
      ScheduleClosedForm(first, k, seat);
      OriginPeriod(n, seat, k);
    }
    SameSeats(ps, qs);
  }

  lemma OriginPeriod(n: nat, seat: nat, k: nat)
    requires n >= 1 && seat < CycleLength(n)
    ensures Origin(n, seat, k + CycleLength(n)) == Origin(n, seat, k)
  {
    ModPlus(seat - k - CycleLength(n), CycleLength(n));
  }

  // ----- every round is a perfect matching -----

  /** The players of the last pair follow all others. */
  lemma {:induction false} PlayersAppend(ps: seq<Pair>, p: Pair)
    ensures Players(ps + [p]) == Players(ps) + multiset{p.white, p.black}
    decreases |ps|
  {
    if ps == [] {
      assert ps + [p] == [p];
      assert [p][1..] == [];
    } else {
      assert (ps + [p])[1..] == ps[1..] + [p];
      PlayersAppend(ps[1..], p);
    }
  }

  /** Rotating pair by pair: the first i rotated pairs hold the first i pairs' players, with
      black of pair i - 1 left out for the last black of all. */
  lemma {:induction false} RotatedPlayersUpTo(ps: seq<Pair>, i: nat)
    requires 1 <= i <= |ps|
    ensures Players(Rotated(ps)[..i]) + multiset{ps[i - 1].black}
         == Players(ps[..i]) + multiset{ps[|ps| - 1].black}
    decreases i
  {
    hide Players, Rotated;
    var rotated, z := Rotated(ps), ps[|ps| - 1].black;
    RotatedAt(ps, i - 1);
    PrefixPlayers(ps, i);
    PrefixPlayers(rotated, i);
    if i == 1 {
      assert rotated[..0] == ps[..0];
      SwapLast(Players(ps[..0]), ps[0].white, z, ps[0].black);
    } else {
      RotatedPlayersUpTo(ps, i - 1);
      MoveOne(Players(rotated[..i - 1]), Players(ps[..i - 1]), ps[i - 2].black, z, ps[i - 1]);
    }
  }

  lemma PrefixPlayers(ps: seq<Pair>, i: nat)
    requires 1 <= i <= |ps|
    ensures Players(ps[..i]) == Players(ps[..i - 1]) + multiset{ps[i - 1].white, ps[i - 1].black}
  {
    hide Players;
    assert ps[..i] == ps[..i - 1] + [ps[i - 1]];
    PlayersAppend(ps[..i - 1], ps[i - 1]);
  }

  lemma SwapLast(p: multiset<int>, w: int, z: int, b: int)
    ensures p + multiset{w, z} + multiset{b} == p + multiset{w, b} + multiset{z}
  {
  }

  lemma MoveOne(r: multiset<int>, p: multiset<int>, b: int, z: int, q: Pair)
    requires r + multiset{b} == p + multiset{z}
    ensures r + multiset{b, q.white} + multiset{q.black} == p + multiset{q.white, q.black} + multiset{z}
  {
    assert r + multiset{b, q.white} + multiset{q.black} == (r + multiset{b}) + multiset{q.white, q.black};
    assert p + multiset{q.white, q.black} + multiset{z} == (p + multiset{z}) + multiset{q.white, q.black};
  }

  lemma RotatedPlayers(ps: seq<Pair>)
    ensures Players(Rotated(ps)) == Players(ps)
  {
    hide Players, Rotated;
    if ps != [] {
      RotatedPlayersUpTo(ps, |ps|);
      assert ps[..|ps|] == ps && Rotated(ps)[..|ps|] == Rotated(ps);
      var z := ps[|ps| - 1].black;
      var r, p := Players(Rotated(ps)), Players(ps);
      assert r + multiset{z} == p + multiset{z};
      assert multiset{z} + r == r + multiset{z} && multiset{z} + p == p + multiset{z};
      SameRest(z, Players(Rotated(ps)), Players(ps));
    } else {
      assert Rotated(ps) == ps;
    }
  }

  /** Every round matches the same players, each exactly once. */
  lemma {:induction false} EveryRoundIsPerfect(first: seq<Pair>, k: nat)
    ensures Players(Schedule(first, k)) == Players(first)
    decreases k
  {
    hide Players, Rotated;
    if k > 0 {
      EveryRoundIsPerfect(first, k - 1);
      RotatedPlayers(Schedule(first, k - 1));
    }
  }

  // ----- who meets whom -----

  ghost predicate DistinctPlayers(ps: seq<Pair>) { forall p :: Players(ps)[p] <= 1 }

  ghost predicate Meets(ps: seq<Pair>, a: int, b: int) {
    exists i :: 0 <= i < |ps| && IsMatch(ps[i], a, b)
  }

  predicate IsMatch(p: Pair, a: int, b: int) { p == Pair(a, b) || p == Pair(b, a) }

  function NextSeat(n: nat, seat: nat): (s: nat)
    requires n >= 1 && seat < CycleLength(n)
    ensures s < CycleLength(n)
  {
    if seat == CycleLength(n) - 1 then 0 else seat + 1
  }

  predicate Adjacent(n: nat, a: nat, b: nat)
    requires n >= 1 && a < CycleLength(n) && b < CycleLength(n)
  {
    NextSeat(n, a) == b || NextSeat(n, b) == a
  }

  lemma PlayersCons(ps: seq<Pair>)
    requires ps != []
    ensures Players(ps) == multiset{ps[0].white, ps[0].black} + Players(ps[1..])
  {
  }

  lemma {:induction false} PairPlayers(ps: seq<Pair>, i: nat)
    requires i < |ps|
    ensures Players(ps) >= multiset{ps[i].white, ps[i].black}
    decreases i
  {
    hide Players;
    PlayersCons(ps);
    if i > 0 {
      PairPlayers(ps[1..], i - 1);
      PartOfMore(multiset{ps[i].white, ps[i].black}, multiset{}, Players(ps[1..]), multiset{ps[0].white, ps[0].black});
    }
  }

  lemma PartOfMore(a: multiset<int>, b: multiset<int>, m: multiset<int>, more: multiset<int>)
    requires a + b <= m
    ensures a <= more + m && a + b <= more + m
  {
  }

  lemma PartsJoin(a: multiset<int>, b: multiset<int>, m: multiset<int>)
    requires b <= m
    ensures a + b <= a + m
  {
  }

  lemma {:induction false} TwoPairsPlayers(ps: seq<Pair>, i: nat, j: nat)
    requires i < j < |ps|
    ensures Players(ps) >= multiset{ps[i].white, ps[i].black} + multiset{ps[j].white, ps[j].black}
    decreases i
  {
    hide Players;
    PlayersCons(ps);
    var a, b := multiset{ps[i].white, ps[i].black}, multiset{ps[j].white, ps[j].black};
    if i > 0 {
      TwoPairsPlayers(ps[1..], i - 1, j - 1);
      PartOfMore(a, b, Players(ps[1..]), multiset{ps[0].white, ps[0].black});
    } else {
      PairPlayers(ps[1..], j - 1);
      PartsJoin(a, b, Players(ps[1..]));
    }
  }

  lemma DistinctAcross(ps: seq<Pair>, i: nat, j: nat)
    requires DistinctPlayers(ps) && i < |ps| && j < |ps|
    ensures ps[i].white != ps[j].black
    ensures i != j ==> ps[i].white != ps[j].white && ps[i].black != ps[j].black
  {
    hide Players;
    if i == j {
      PairPlayers(ps, i);
      assert multiset{ps[i].white, ps[i].black}[ps[i].white] <= Players(ps)[ps[i].white];
    } else {
      var low, high := if i < j then i else j, if i < j then j else i;
      TwoPairsPlayers(ps, low, high);
      var four := multiset{ps[low].white, ps[low].black} + multiset{ps[high].white, ps[high].black};
      assert forall p :: four[p] <= Players(ps)[p] <= 1;
      assert four[ps[low].white] <= 1 && four[ps[low].black] <= 1;
    }
  }

  /** Different seats hold different players, none of them the anchor. */
  lemma DistinctSeats(ps: seq<Pair>, a: nat, b: nat)
    requires DistinctPlayers(ps) && ps != [] && a < CycleLength(|ps|) && b < CycleLength(|ps|)
    ensures At(ps, a) != ps[0].white
    ensures At(ps, a) == At(ps, b) ==> a == b
  {
    hide DistinctPlayers;
    var i, j := (a + 1) / 2, (b + 1) / 2;
    DistinctAcross(ps, 0, i);
    DistinctAcross(ps, i, j);
    DistinctAcross(ps, j, i);
    if i > 0 { DistinctAcross(ps, i, 0); }
  }

  lemma MatchSeats(ps: seq<Pair>, i: nat)
    requires i < |ps|
    ensures ps[i].black == At(ps, 2 * i)
    ensures i > 0 ==> ps[i].white == At(ps, 2 * i - 1)
  {
  }

  lemma OriginNext(n: nat, seat: nat, k: nat)
    requires n >= 1 && seat + 1 < CycleLength(n)
    ensures Origin(n, seat + 1, k) == NextSeat(n, Origin(n, seat, k))
  {
    var m := CycleLength(n);
    var r := (seat - k) % m;
    AddMod(seat - k, 1, m);
    if r + 1 == m {
      DivUnique(r + 1, 1, 0, m);
    } else {
      DivUnique(r + 1, 0, r + 1, m);
    }
  }

  /** The round in which the player from seat a sits on a given seat. */
  function RoundFor(n: nat, seat: nat, a: nat): (k: nat)
    requires n >= 1 && seat < CycleLength(n) && a < CycleLength(n)
    ensures k < CycleLength(n)
  {
    (seat - a) % CycleLength(n)
  }

  lemma RoundForSeat(n: nat, seat: nat, a: nat)
    requires n >= 1 && seat < CycleLength(n) && a < CycleLength(n)
    ensures Origin(n, seat, RoundFor(n, seat, a)) == a
  {
    var m := CycleLength(n);
    var q, k := (seat - a) / m, (seat - a) % m;
    assert seat - a == q * m + k;
    DivUnique(seat - k, q, a, m);
  }

  /** The anchor meets the player who has come to seat 0. */
  lemma AnchorMeets(first: seq<Pair>, k: nat, b: nat)
    requires first != [] && DistinctPlayers(first) && b < CycleLength(|first|)
    ensures Meets(Schedule(first, k), first[0].white, At(first, b)) <==> Origin(|first|, 0, k) == b
  {
    hide Schedule, At, Origin, DistinctPlayers;
    var n, ps, anchor, y := |first|, Schedule(first, k), first[0].white, At(first, b);
    ScheduleClosedForm(first, k, 0);
    MatchSeats(ps, 0);
    DistinctSeats(first, b, Origin(n, 0, k));
    if Meets(ps, anchor, y) {
      var i :| 0 <= i < |ps| && IsMatch(ps[i], anchor, y);
      if i > 0 {
        MatchSeats(ps, i);
        ScheduleClosedForm(first, k, 2 * i);
        ScheduleClosedForm(first, k, 2 * i - 1);
        DistinctSeats(first, Origin(n, 2 * i, k), b);
        DistinctSeats(first, Origin(n, 2 * i - 1, k), b);
      }
    }
    if Origin(n, 0, k) == b { assert IsMatch(ps[0], anchor, y); }
  }

  /** Two others who meet come from neighbouring seats. */
  lemma MeetingIsAdjacent(first: seq<Pair>, k: nat, a: nat, b: nat)
    requires first != [] && DistinctPlayers(first) && a < CycleLength(|first|) && b < CycleLength(|first|)
    requires Meets(Schedule(first, k), At(first, a), At(first, b))
    ensures Adjacent(|first|, a, b)
  {
    hide Schedule, At, Origin, DistinctPlayers, NextSeat;
    var n, ps := |first|, Schedule(first, k);
    var i :| 0 <= i < |ps| && IsMatch(ps[i], At(first, a), At(first, b));
    MatchSeats(ps, i);
    ScheduleClosedForm(first, k, 2 * i);
    var s := Origin(n, 2 * i, k);
    DistinctSeats(first, s, a);
    DistinctSeats(first, s, b);
    DistinctSeats(first, a, s);
    DistinctSeats(first, b, s);
    if i > 0 {
      ScheduleClosedForm(first, k, 2 * i - 1);
      OriginNext(n, 2 * i - 1, k);
      var r := Origin(n, 2 * i - 1, k);
      DistinctSeats(first, r, a);
      DistinctSeats(first, r, b);
    }
  }

  /** Neighbours do meet, with more than one match in a round. */
  lemma AdjacentMeet(first: seq<Pair>, a: nat) returns (k: nat)
    requires |first| >= 2 && a < CycleLength(|first|)
    ensures k < CycleLength(|first|)
    ensures Meets(Schedule(first, k), At(first, a), At(first, NextSeat(|first|, a)))
  {
    hide Schedule, At, Origin, RoundFor, NextSeat;
    var n := |first|;
    k := RoundFor(n, 1, a);
    RoundForSeat(n, 1, a);
    OriginNext(n, 1, k);
    ScheduleClosedForm(first, k, 1);
    ScheduleClosedForm(first, k, 2);
    MatchSeats(Schedule(first, k), 1);
    assert IsMatch(Schedule(first, k)[1], At(first, a), At(first, NextSeat(n, a)));
  }

  /** Two players other than the anchor ever meet just when they started on neighbouring seats. */
  lemma OthersMeetIffAdjacent(first: seq<Pair>, a: nat, b: nat)
    requires |first| >= 2 && DistinctPlayers(first) && a < CycleLength(|first|) && b < CycleLength(|first|)
    ensures (exists k: nat :: Meets(Schedule(first, k), At(first, a), At(first, b))) <==> Adjacent(|first|, a, b)
  {
    hide Schedule, At, NextSeat, DistinctPlayers, Meets;
    var n := |first|;
    if k: nat :| Meets(Schedule(first, k), At(first, a), At(first, b)) {
      MeetingIsAdjacent(first, k, a, b);
    }
    if NextSeat(n, a) == b {
      var k := AdjacentMeet(first, a);
    } else if NextSeat(n, b) == a {
      var k := AdjacentMeet(first, b);
      MeetsBothWays(Schedule(first, k), At(first, b), At(first, a));
    }
  }

  lemma MeetsBothWays(ps: seq<Pair>, a: int, b: int)
    ensures Meets(ps, a, b) ==> Meets(ps, b, a)
  {
    if Meets(ps, a, b) {
      var i :| 0 <= i < |ps| && IsMatch(ps[i], a, b);
      assert IsMatch(ps[i], b, a);
    }
  }

  // ----- the whole tournament -----

  /** In how many of the first rounds two players meet. */
  ghost function Meetings(first: seq<Pair>, a: int, b: int, rounds: nat): nat
    decreases rounds
  {
    if rounds == 0 then 0
    else Meetings(first, a, b, rounds - 1) + (if Meets(Schedule(first, rounds - 1), a, b) then 1 else 0)
  }

  lemma SeatsInAllRounds(n: nat)
    requires n >= 1
    ensures RoundRobinRounds(2 * n) == n * CycleLength(n) >= CycleLength(n)
  {
    MulGrows(n, CycleLength(n));
    assert 2 * n * (2 * n - 1) == 2 * (n * (2 * n - 1));
  }

  /** After m full turns of the cycle and j further rounds. */
  lemma {:induction false} AnchorMeetings(first: seq<Pair>, seat: nat, m: nat, j: nat)
    requires first != [] && DistinctPlayers(first) && seat < CycleLength(|first|) && j <= CycleLength(|first|)
    ensures Meetings(first, first[0].white, At(first, seat), m * CycleLength(|first|) + j)
         == m + (if j > RoundFor(|first|, 0, seat) then 1 else 0)
    decreases m, j
  {
    hide DistinctPlayers, Schedule, At, Origin, Meets, RoundFor;
    var n := |first|;
    if j > 0 {
      AnchorMeetings(first, seat, m, j - 1);
      AnchorMeets(first, m * CycleLength(n) + j - 1, seat);
      SeatZero(n, seat, m, j - 1);
    } else if m > 0 {
      AnchorMeetings(first, seat, m - 1, CycleLength(n));
      assert (m - 1) * CycleLength(n) + CycleLength(n) == m * CycleLength(n) + 0;
    }
  }

  lemma SeatZero(n: nat, seat: nat, m: nat, j: nat)
    requires n >= 1 && seat < CycleLength(n) && j < CycleLength(n)
    ensures Origin(n, 0, m * CycleLength(n) + j) == seat <==> j == RoundFor(n, 0, seat)
  {
    var l := CycleLength(n);
    ModShift(0 - j, 0 - m, l);
    assert (0 - j) + (0 - m) * l == 0 - (m * l + j);
    if seat == 0 {
      DivUnique(0 - seat, 0, 0, l);
    } else {
      DivUnique(0 - seat, -1, l - seat, l);
    }
    if j == 0 {
      DivUnique(0 - j, 0, 0, l);
    } else {
      DivUnique(0 - j, -1, l - j, l);
    }
  }

  /** Over all rounds of the tournament the anchor meets each other player exactly n times,
      n being the number of matches of a round. */
  lemma AnchorMeetsEachEqually(first: seq<Pair>, seat: nat)
    requires first != [] && DistinctPlayers(first) && seat < CycleLength(|first|)
    ensures Meetings(first, first[0].white, At(first, seat), RoundRobinRounds(2 * |first|)) == |first|
  {
    hide DistinctPlayers, At, Meetings, CycleLength;
    SeatsInAllRounds(|first|);
    AnchorMeetings(first, seat, |first|, 0);
  }

  ghost predicate EveryoneMeets(first: seq<Pair>, rounds: nat) {
    forall a, b :: a in Players(first) && b in Players(first) && a != b ==> MeetWithin(first, a, b, rounds)
  }

  ghost predicate MeetWithin(first: seq<Pair>, a: int, b: int, rounds: nat) {
    exists k: nat :: k < rounds && Meets(Schedule(first, k), a, b)
  }

  /** Every player is the anchor or sits on a seat of the cycle. */
  lemma PlayerHasSeat(first: seq<Pair>, a: int) returns (seat: nat)
    requires a in Players(first)
    ensures first != []
    ensures a != first[0].white ==> seat < CycleLength(|first|) && At(first, seat) == a
  {
    var i := FindPlayer(first, a);
    seat := if first[i].black == a then 2 * i else if i == 0 then 0 else 2 * i - 1;
  }

  lemma SeatHasPlayer(first: seq<Pair>, seat: nat)
    requires first != [] && seat < CycleLength(|first|)
    ensures At(first, seat) in Players(first)
  {
    hide Players;
    var i := (seat + 1) / 2;
    PairPlayers(first, i);
    assert first[i].white in multiset{first[i].white, first[i].black};
  }

  lemma FewAllMeet(first: seq<Pair>, a: int, b: int)
    requires DistinctPlayers(first) && |first| <= 2
    requires a in Players(first) && b in Players(first) && a != b
    ensures MeetWithin(first, a, b, RoundRobinRounds(2 * |first|))
  {
    hide DistinctPlayers, Players, Schedule, Meets, Origin, RoundFor, At;
    var s := PlayerHasSeat(first, a);
    var t := PlayerHasSeat(first, b);
    var n, anchor := |first|, first[0].white;
    SeatsInAllRounds(n);
    if a == anchor {
      RoundForSeat(n, 0, t);
      AnchorMeets(first, RoundFor(n, 0, t), t);
    } else if b == anchor {
      RoundForSeat(n, 0, s);
      AnchorMeets(first, RoundFor(n, 0, s), s);
      MeetsBothWays(Schedule(first, RoundFor(n, 0, s)), b, a);
    } else if NextSeat(n, s) == t {
      var k := AdjacentMeet(first, s);
    } else {
      var k := AdjacentMeet(first, t);
      MeetsBothWays(Schedule(first, k), b, a);
    }
  }

  /** The rotation lets every two players meet only in tournaments of at most four players. */
  lemma EveryoneMeetsIffAtMostFour(first: seq<Pair>)
    requires DistinctPlayers(first)
    ensures EveryoneMeets(first, RoundRobinRounds(2 * |first|)) <==> 2 * |first| <= 4
  {
    hide DistinctPlayers, Players, Schedule, Meets, At;
    var n := |first|;
    if n <= 2 {
      forall a, b | a in Players(first) && b in Players(first) && a != b
        ensures MeetWithin(first, a, b, RoundRobinRounds(2 * n))
      {
        FewAllMeet(first, a, b);
      }
    } else {
      SeatHasPlayer(first, 0);
      SeatHasPlayer(first, 2);
      DistinctSeats(first, 0, 2);
      if EveryoneMeets(first, RoundRobinRounds(2 * n)) {
        assert MeetWithin(first, At(first, 0), At(first, 2), RoundRobinRounds(2 * n));
        var k: nat :| k < RoundRobinRounds(2 * n) && Meets(Schedule(first, k), At(first, 0), At(first, 2));
        MeetingIsAdjacent(first, k, 0, 2);
      }
    }
  }

  // ----- the runs of the matchmaking -----

  /** The rounds of every run of the matchmaking follow the schedule, whatever the results. */
  lemma {:induction false} RunFollowsSchedule(first: seq<Pair>, rounds: seq<seq<CompletedMatch>>, k: nat)
    requires IsRun(RoundRobin, first, rounds) && k < |rounds|
    ensures PairsOf(rounds[k]) == Schedule(first, k)
    decreases k
  {
    hide Rotated, PairsOf;
    if k > 0 {
      RunFollowsSchedule(first, rounds, k - 1);
      RunStep(RoundRobin, first, rounds, k);
    }
  }
}
