/** Perfect matchings of a ranked list of players: pairing neighbours has the least total
    gap of all, pairing the two ends inwards the greatest. */
module Pairing {
  datatype Pair = Pair(white: int, black: int)

  function Abs(x: real): real { if x < 0.0 then -x else x }

  function Gap(p: Pair, key: int -> real): real { Abs(key(p.white) - key(p.black)) }

  function TotalGap(ps: seq<Pair>, key: int -> real): real
    decreases |ps|
  {
    if ps == [] then 0.0 else Gap(ps[0], key) + TotalGap(ps[1..], key)
  }

  function Players(ps: seq<Pair>): multiset<int>
    decreases |ps|
  {
    if ps == [] then multiset{} else multiset{ps[0].white, ps[0].black} + Players(ps[1..])
  }

  /** Every player of the list is in exactly one pair (as often as it is listed). */
  predicate IsPerfect(ps: seq<Pair>, ids: seq<int>) { Players(ps) == multiset(ids) }

  predicate Descending(ids: seq<int>, key: int -> real) {
    forall i, j :: 0 <= i < j < |ids| ==> key(ids[i]) >= key(ids[j])
  }

  /** Neighbours paired: first with second, third with fourth, and so on. */
  function Neighbours(ids: seq<int>): seq<Pair>
    decreases |ids|
  {
    if |ids| < 2 then [] else [Pair(ids[0], ids[1])] + Neighbours(ids[2..])
  }

  /** Ends paired inwards: first with last, second with last but one, and so on. */
  function CrissCross(ids: seq<int>): seq<Pair>
    decreases |ids|
  {
    if |ids| < 2 then [] else [Pair(ids[0], ids[|ids| - 1])] + CrissCross(ids[1..|ids| - 1])
  }

  /** The i-th pair of neighbours. */
  lemma {:induction false} NeighboursAt(ids: seq<int>, i: nat)
    requires 2 * i + 1 < |ids|
    ensures i < |Neighbours(ids)| && Neighbours(ids)[i] == Pair(ids[2 * i], ids[2 * i + 1])
    decreases i
  {
    if i > 0 { NeighboursAt(ids[2..], i - 1); }
  }

  /** The i-th pair of ends. */
  lemma {:induction false} CrissCrossAt(ids: seq<int>, i: nat)
    requires 2 * i + 1 < |ids|
    ensures i < |CrissCross(ids)| && CrissCross(ids)[i] == Pair(ids[i], ids[|ids| - 1 - i])
    decreases i
  {
    hide CrissCross;
    var inner := ids[1..|ids| - 1];
    CrissCrossEnds(ids, inner);
    if i > 0 {
      CrissCrossAt(inner, i - 1);
      assert inner[i - 1] == ids[i] && inner[|inner| - i] == ids[|ids| - 1 - i];
    }
  }

  lemma CrissCrossEnds(ids: seq<int>, inner: seq<int>)
    requires |ids| >= 2 && inner == ids[1..|ids| - 1]
    ensures CrissCross(ids) == [Pair(ids[0], ids[|ids| - 1])] + CrissCross(inner)
  {
  }

  lemma {:induction false} CrissCrossCount(ids: seq<int>)
    ensures |CrissCross(ids)| == |ids| / 2
    decreases |ids|
  {
    if |ids| >= 2 { CrissCrossCount(ids[1..|ids| - 1]); }
  }

  // ----- taking one pair out -----

  function Without(ps: seq<Pair>, i: nat): seq<Pair>
    requires i < |ps|
  {
    ps[..i] + ps[i + 1..]
  }

  lemma {:induction false} TakeOut(ps: seq<Pair>, i: nat, key: int -> real)
    requires i < |ps|
    ensures TotalGap(ps, key) == Gap(ps[i], key) + TotalGap(Without(ps, i), key)
    ensures Players(ps) == multiset{ps[i].white, ps[i].black} + Players(Without(ps, i))
    decreases i
  {
    hide Gap, TotalGap, Players;
    if i == 0 {
      GapOfCons(ps[0], ps[1..], key);
      assert ps == [ps[0]] + ps[1..];
      assert Without(ps, 0) == ps[1..];
    } else {
      var rest := Without(ps[1..], i - 1);
      TakeOut(ps[1..], i - 1, key);
      GapOfCons(ps[0], rest, key);
      GapOfCons(ps[0], ps[1..], key);
      assert Without(ps, i) == [ps[0]] + rest;
      assert ps == [ps[0]] + ps[1..];
    }
  }

  lemma GapOfCons(p: Pair, ps: seq<Pair>, key: int -> real)
    ensures TotalGap([p] + ps, key) == Gap(p, key) + TotalGap(ps, key)
    ensures Players([p] + ps) == multiset{p.white, p.black} + Players(ps)
  {
    assert ([p] + ps)[1..] == ps;
  }

  lemma {:induction false} FindPlayer(ps: seq<Pair>, a: int) returns (i: nat)
    requires a in Players(ps)
    ensures i < |ps| && (ps[i].white == a || ps[i].black == a)
    decreases |ps|
  {
    if ps[0].white == a || ps[0].black == a {
      i := 0;
    } else {
      var j := FindPlayer(ps[1..], a);
      i := j + 1;
    }
  }

  function Partner(p: Pair, a: int): int { if p.white == a then p.black else p.white }

  /** Takes the pair of a player out of a matching. */
  lemma TakePlayer(ps: seq<Pair>, a: int, key: int -> real) returns (x: int, rest: seq<Pair>)
    requires a in Players(ps)
    ensures TotalGap(ps, key) == Abs(key(a) - key(x)) + TotalGap(rest, key)
    ensures Players(ps) == multiset{a, x} + Players(rest)
    ensures |rest| == |ps| - 1
  {
    hide TotalGap, Players, Gap, Abs;
    var i := FindPlayer(ps, a);
    TakeOut(ps, i, key);
    x := Partner(ps[i], a);
    rest := Without(ps, i);
    PairOfPlayer(ps[i], a, key);
  }

  lemma PairOfPlayer(p: Pair, a: int, key: int -> real)
    requires p.white == a || p.black == a
    ensures Gap(p, key) == Abs(key(a) - key(Partner(p, a)))
    ensures multiset{p.white, p.black} == multiset{a, Partner(p, a)}
  {
  }

  // ----- pairing neighbours -----

  lemma {:induction false} NeighboursPerfect(ids: seq<int>)
    requires |ids| % 2 == 0
    ensures IsPerfect(Neighbours(ids), ids) && |Neighbours(ids)| == |ids| / 2
    decreases |ids|
  {
    if |ids| >= 2 {
      NeighboursPerfect(ids[2..]);
      assert ids == [ids[0], ids[1]] + ids[2..];
      assert Neighbours(ids)[1..] == Neighbours(ids[2..]);
    } else {
      assert ids == [];
    }
  }

  /** The exchange: two players from the top paired with each other and their partners with
      each other make no greater gap. */
  lemma ExchangeNear(a: real, b: real, x: real, y: real)
    requires a >= b >= x && b >= y
    ensures Abs(a - b) + Abs(x - y) <= Abs(a - x) + Abs(b - y)
  {
  }

  /** The exchange from the two ends: pairing top with bottom makes no smaller gap. */
  lemma ExchangeFar(a: real, z: real, x: real, y: real)
    requires a >= x >= z && a >= y >= z
    ensures Abs(a - x) + Abs(z - y) <= Abs(a - z) + Abs(x - y)
  {
  }

  lemma {:induction false} TotalGapNonNegative(ps: seq<Pair>, key: int -> real)
    ensures TotalGap(ps, key) >= 0.0
    decreases |ps|
  {
    if ps != [] { TotalGapNonNegative(ps[1..], key); }
  }

  /** Multisets with the same sum but different first members. */
  lemma Crossed(x: int, p: multiset<int>, b: int, m: multiset<int>)
    requires multiset{x} + p == multiset{b} + m && x != b
    ensures b in p && x in m
  {
    assert (multiset{x} + p)[b] >= 1;
    assert (multiset{b} + m)[x] >= 1;
  }

  lemma Cancelled(x: int, b: int, y: int, p: multiset<int>, m: multiset<int>)
    requires multiset{x} + (multiset{b, y} + p) == multiset{b} + m
    ensures multiset{x, y} + p == m && x in m && y in m
  {
    assert multiset{x} + (multiset{b, y} + p) == multiset{b} + (multiset{x, y} + p);
    assert (multiset{x, y} + p) == m by {
      forall z
        ensures (multiset{x, y} + p)[z] == m[z]
      {
        assert (multiset{b} + (multiset{x, y} + p))[z] == (multiset{b} + m)[z];
      }
    }
  }

  lemma CancelTwo(a: int, x: int, b: int, p: multiset<int>, m: multiset<int>)
    requires multiset{a, x} + p == multiset{a, b} + m
    ensures multiset{x} + p == multiset{b} + m
  {
    forall z
      ensures (multiset{x} + p)[z] == (multiset{b} + m)[z]
    {
      assert (multiset{a, x} + p)[z] == (multiset{a, b} + m)[z];
    }
  }

  /** From any matching of two players a and b and a multiset m: a matching of m alone with
      the two players x and y that a and b had been paired with paired with each other. */
  lemma Exchange(ps: seq<Pair>, a: int, b: int, m: multiset<int>, key: int -> real)
      returns (x: int, y: int, rest: seq<Pair>, direct: bool)
    requires Players(ps) == multiset{a, b} + m
    ensures Players(rest) == m
    ensures direct ==> TotalGap(ps, key) == Abs(key(a) - key(b)) + TotalGap(rest, key)
    ensures !direct ==> x in m && y in m
    ensures !direct ==> TotalGap(ps, key) == Abs(key(a) - key(x)) + Abs(key(b) - key(y))
                                            + (TotalGap(rest, key) - Abs(key(x) - key(y)))
  {
    hide TotalGap, Players, Abs;
    assert (multiset{a, b} + m)[a] >= 1;
    var others;
    x, others := TakePlayer(ps, a, key);
    CancelTwo(a, x, b, Players(others), m);
    if x == b {
      CancelTwo(a, a, a, Players(others), Players(others));
      SameRest(b, Players(others), m);
      y, rest, direct := x, others, true;
    } else {
      Crossed(x, Players(others), b, m);
      var remaining;
      y, remaining := TakePlayer(others, b, key);
      Cancelled(x, b, y, Players(remaining), m);
      GapOfCons(Pair(x, y), remaining, key);
      rest, direct := [Pair(x, y)] + remaining, false;
    }
  }

  lemma SameRest(b: int, p: multiset<int>, m: multiset<int>)
    requires multiset{b} + p == multiset{b} + m
    ensures p == m
  {
    forall z
      ensures p[z] == m[z]
    {
      assert (multiset{b} + p)[z] == (multiset{b} + m)[z];
    }
  }

  lemma DescendingMember(ids: seq<int>, i: nat, j: nat, x: int, key: int -> real)
    requires Descending(ids, key) && i <= j <= |ids| && x in multiset(ids[i..j])
    ensures forall k :: 0 <= k < i ==> key(ids[k]) >= key(x)
    ensures forall k :: j <= k < |ids| ==> key(x) >= key(ids[k])
  {
    assert x in ids[i..j];
    var k :| 0 <= k < |ids[i..j]| && ids[i..j][k] == x;
    assert ids[i + k] == x;
  }

  /** Taking the two best out of a matching as a pair does not make its gap greater. */
  lemma BestTwoOut(ids: seq<int>, ps: seq<Pair>, rest: seq<int>, key: int -> real) returns (qs: seq<Pair>)
    requires |ids| >= 2 && Descending(ids, key) && IsPerfect(ps, ids) && rest == ids[2..]
    ensures IsPerfect(qs, rest) && Abs(key(ids[0]) - key(ids[1])) + TotalGap(qs, key) <= TotalGap(ps, key)
  {
    hide Abs, Players, TotalGap, Descending;
    assert ids == [ids[0], ids[1]] + rest;
    var x, y, others, direct := Exchange(ps, ids[0], ids[1], multiset(rest), key);
    if !direct {
      assert ids[2..|ids|] == rest;
      DescendingMember(ids, 2, |ids|, x, key);
      DescendingMember(ids, 2, |ids|, y, key);
      BestFirst(ids, key);
      ExchangeNear(key(ids[0]), key(ids[1]), key(x), key(y));
    }
    qs := others;
  }

  lemma BestFirst(ids: seq<int>, key: int -> real)
    requires |ids| >= 2 && Descending(ids, key)
    ensures key(ids[0]) >= key(ids[1]) && Descending(ids[2..], key)
  {
  }

  lemma NeighboursStart(ids: seq<int>, rest: seq<int>)
    requires |ids| >= 2 && rest == ids[2..]
    ensures Neighbours(ids) == [Pair(ids[0], ids[1])] + Neighbours(rest)
  {
  }

  /** Pairing the neighbours of a ranking has the least total gap of all perfect matchings. */
  lemma {:induction false} NeighboursLeastGap(ids: seq<int>, ps: seq<Pair>, key: int -> real)
    requires |ids| % 2 == 0 && Descending(ids, key) && IsPerfect(ps, ids)
    ensures TotalGap(Neighbours(ids), key) <= TotalGap(ps, key)
    decreases |ids|
  {
    hide Abs, Players, TotalGap, Descending, IsPerfect;
    TotalGapNonNegative(ps, key);
    if |ids| >= 2 {
      var rest := ids[2..];
      var qs := BestTwoOut(ids, ps, rest, key);
      BestFirst(ids, key);
      NeighboursLeastGap(rest, qs, key);
      NeighboursStart(ids, rest);
      GapOfCons(Pair(ids[0], ids[1]), Neighbours(rest), key);
    } else {
      NoGap(Neighbours(ids), key);
    }
  }

  lemma NoGap(ps: seq<Pair>, key: int -> real)
    requires ps == []
    ensures TotalGap(ps, key) == 0.0 && Players(ps) == multiset{}
  {
  }

  // ----- pairing the ends inwards -----

  lemma {:induction false} CrissCrossPerfect(ids: seq<int>)
    requires |ids| % 2 == 0
    ensures IsPerfect(CrissCross(ids), ids) && |CrissCross(ids)| == |ids| / 2
    decreases |ids|
  {
    if |ids| >= 2 {
      var inner := ids[1..|ids| - 1];
      CrissCrossPerfect(inner);
      EndsAndInner(ids);
      assert CrissCross(ids)[1..] == CrissCross(inner);
    } else {
      assert ids == [];
    }
  }

  lemma EndsAndInner(ids: seq<int>)
    requires |ids| >= 2
    ensures multiset(ids) == multiset{ids[0], ids[|ids| - 1]} + multiset(ids[1..|ids| - 1])
  {
    var inner, z := ids[1..|ids| - 1], ids[|ids| - 1];
    var head := [ids[0]] + inner;
    assert ids == head + [z];
    assert multiset(head + [z]) == multiset(head) + multiset{z};
    assert multiset(head) == multiset{ids[0]} + multiset(inner);
  }

  lemma CrissCrossStep(ids: seq<int>)
    ensures |ids| >= 2 ==> CrissCross(ids) == [Pair(ids[0], ids[|ids| - 1])] + CrissCross(ids[1..|ids| - 1])
    ensures |ids| < 2 ==> CrissCross(ids) == []
  {
  }

  lemma DescendingInner(ids: seq<int>, key: int -> real)
    requires |ids| >= 2 && Descending(ids, key)
    ensures Descending(ids[1..|ids| - 1], key)
  {
  }

  /** Pairing the ends of a ranking inwards has the greatest total gap of all perfect matchings. */
  lemma {:induction false} CrissCrossGreatestGap(ids: seq<int>, ps: seq<Pair>, key: int -> real)
    requires |ids| % 2 == 0 && Descending(ids, key) && IsPerfect(ps, ids)
    ensures TotalGap(ps, key) <= TotalGap(CrissCross(ids), key)
    decreases |ids|
  {
    hide Abs, Players, TotalGap, CrissCross, Descending;
    if |ids| >= 2 {
      var last := |ids| - 1;
      var inner := ids[1..last];
      EndsAndInner(ids);
      CrissCrossStep(ids);
      DescendingInner(ids, key);
      var x, y, qs, direct := Exchange(ps, ids[0], ids[last], multiset(inner), key);
      if !direct {
        DescendingMember(ids, 1, last, x, key);
        DescendingMember(ids, 1, last, y, key);
        ExchangeFar(key(ids[0]), key(ids[last]), key(x), key(y));
      }
      CrissCrossGreatestGap(inner, qs, key);
      GapOfCons(Pair(ids[0], ids[last]), CrissCross(inner), key);
    } else {
      NoPlayersNoPairs(ps);
      NoGap(ps, key);
      CrissCrossStep(ids);
      NoGap(CrissCross(ids), key);
    }
  }

  lemma NoPlayersNoPairs(ps: seq<Pair>)
    requires Players(ps) == multiset{}
    ensures ps == []
  {
  }
}
