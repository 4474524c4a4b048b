/** Ranking players by a score, best first and by ID among equals: a total order, so that
    the ranking depends only on who is ranked. */
module Ranking {
  predicate Before(a: int, b: int, key: int -> real) {
    key(a) > key(b) || (key(a) == key(b) && a <= b)
  }

  predicate Ranked(ids: seq<int>, key: int -> real) {
    forall i, j :: 0 <= i < j < |ids| ==> Before(ids[i], ids[j], key)
  }

  function Insert(ids: seq<int>, a: int, key: int -> real): (r: seq<int>)
    requires Ranked(ids, key)
    ensures Ranked(r, key) && multiset(r) == multiset(ids) + multiset{a}
    decreases |ids|
  {
    if ids == [] then [a]
    else if Before(a, ids[0], key) then [a] + ids
    else
      var rest := Insert(ids[1..], a, key);
      assert ids == [ids[0]] + ids[1..];
      InsertedAfter(ids, a, rest, key);
      [ids[0]] + rest
  }

  lemma InsertedAfter(ids: seq<int>, a: int, rest: seq<int>, key: int -> real)
    requires ids != [] && Ranked(ids, key) && !Before(a, ids[0], key)
    requires Ranked(rest, key) && multiset(rest) == multiset(ids[1..]) + multiset{a}
    ensures Ranked([ids[0]] + rest, key)
  {
    forall j | 0 <= j < |rest|
      ensures Before(ids[0], rest[j], key)
    {
      assert rest[j] in multiset(rest);
      if rest[j] != a { assert rest[j] in ids[1..]; }
    }
  }

  /** The ranking of the given players. */
  function Rank(ids: seq<int>, key: int -> real): (r: seq<int>)
    ensures Ranked(r, key) && multiset(r) == multiset(ids) && |r| == |ids|
    decreases |ids|
  {
    if ids == [] then []
    else
      var rest := Rank(ids[1..], key);
      assert ids == [ids[0]] + ids[1..];
      var r := Insert(rest, ids[0], key);
      assert |multiset(r)| == |multiset(ids)|;
      r
  }

  lemma TailMultiset(s: seq<int>)
    requires s != []
    ensures multiset(s[1..]) == multiset(s) - multiset{s[0]}
  {
    assert s == [s[0]] + s[1..];
  }

  lemma SameLength(s: seq<int>, t: seq<int>)
    requires multiset(s) == multiset(t)
    ensures |s| == |t|
  {
    assert |s| == |multiset(s)| == |multiset(t)| == |t|;
  }

  lemma SameHead(s: seq<int>, t: seq<int>, key: int -> real)
    requires Ranked(s, key) && Ranked(t, key) && multiset(s) == multiset(t) && s != [] && t != []
    ensures s[0] == t[0]
  {
    assert s[0] in multiset(t) && t[0] in multiset(s);
    var i :| 0 <= i < |t| && t[i] == s[0];
    var j :| 0 <= j < |s| && s[j] == t[0];
  }

  /** Two rankings of the same players are the same list. */
  lemma {:induction false} RankedUnique(s: seq<int>, t: seq<int>, key: int -> real)
    requires Ranked(s, key) && Ranked(t, key) && multiset(s) == multiset(t)
    ensures s == t
    decreases |s|
  {
    hide Before;
    SameLength(s, t);
    if s != [] {
      SameHead(s, t, key);
      TailMultiset(s);
      TailMultiset(t);
      RankedUnique(s[1..], t[1..], key);
      assert s == [s[0]] + s[1..] && t == [t[0]] + t[1..];
    }
  }

  /** The ranking does not depend on the order the players come in. */
  lemma RankIgnoresOrder(s: seq<int>, t: seq<int>, key: int -> real)
    requires multiset(s) == multiset(t)
    ensures Rank(s, key) == Rank(t, key)
  {
    RankedUnique(Rank(s, key), Rank(t, key), key);
  }
}
