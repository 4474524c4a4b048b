/** A player's Elo history in buckets: per mode, the games within a day, or a week for long
    histories, of a first game count as one bucket with their average. Times are counted in
    nanoseconds from the zero time, and there is no average without games. */
module EloHistory {
  import opened Division
  import opened Sets

  datatype Row = Row(mode: int, playedOn: nat, white: int, black: int, whiteElo: real, blackElo: real)

  /** A game as it counts for the player: when it was played and the player's Elo in it. */
  datatype Point = Point(time: nat, elo: real)

  datatype Element = Element(timestamp: nat, elo: real)

  datatype BucketState = BucketState(eloTotal: real, eloCount: nat, startTime: nat, elements: seq<Element>)

  const HOUR := 3600 * 1000000000

  function ShortDuration(): nat { 24 * HOUR }

  function LongDuration(): nat { 7 * 24 * HOUR }

  function Year(): nat { 365 * 24 * HOUR }

  function Truncate(t: nat, d: nat): nat
    requires d > 0
  {
    t / d * d
  }

  // ----- one bucket -----

  function EmptyBucket(): BucketState { BucketState(0.0, 0, 0, []) }

  function Flushed(b: BucketState, d: nat): BucketState
    requires d > 0
  {
    if b.eloCount <= 0 || b.startTime == 0 then b
    else b.(elements := b.elements + [Element(Truncate(b.startTime, d), b.eloTotal / b.eloCount as real)])
  }

  function Added(b: BucketState, p: Point, d: nat): BucketState
    requires d > 0
  {
    if b.startTime == 0 then b.(eloTotal := b.eloTotal + p.elo, eloCount := b.eloCount + 1, startTime := p.time)
    else if p.time > b.startTime + d then Flushed(b, d).(eloTotal := p.elo, eloCount := 1, startTime := p.time)
    else b.(eloTotal := b.eloTotal + p.elo, eloCount := b.eloCount + 1)
  }

  function Folded(ps: seq<Point>, d: nat): BucketState
    requires d > 0
    decreases |ps|
  {
    if ps == [] then EmptyBucket() else Added(Folded(ps[..|ps| - 1], d), ps[|ps| - 1], d)
  }

  class Bucket {
    var eloTotal: real
    var eloCount: nat
    var startTime: nat
    var elements: seq<Element>

    ghost function State(): BucketState
      reads this
    {
      BucketState(eloTotal, eloCount, startTime, elements)
    }

    constructor ()
      ensures State() == EmptyBucket()
    {
      eloTotal, eloCount, startTime, elements := 0.0, 0, 0, [];
    }

    method Append(d: nat)
      requires d > 0
      modifies this
      ensures State() == Flushed(old(State()), d)
    {
      hide Truncate;
      if eloCount <= 0 || startTime == 0 {
        return;
      }
      elements := elements + [Element(Truncate(startTime, d), eloTotal / eloCount as real)];
    }

    method Add(p: Point, d: nat)
      requires d > 0
      modifies this
      ensures State() == Added(old(State()), p, d)
    {
      hide Flushed;
      if startTime == 0 {
        eloTotal, eloCount, startTime := eloTotal + p.elo, eloCount + 1, p.time;
      } else if p.time > startTime + d {
        Append(d);
        eloTotal, eloCount, startTime := p.elo, 1, p.time;
      } else {
        eloTotal, eloCount := eloTotal + p.elo, eloCount + 1;
      }
    }
  }

  // ----- all rows -----

  /** The player's games of one mode. */
  function PointsOf(rows: seq<Row>, user: int, mode: int): seq<Point>
    decreases |rows|
  {
    if rows == [] then [] else PointsOf(rows[..|rows| - 1], user, mode) + PointOf(rows[|rows| - 1], user, mode)
  }

  function PointOf(r: Row, user: int, mode: int): seq<Point> {
    if r.mode != mode then []
    else if user == r.white then [Point(r.playedOn, r.whiteElo)]
    else if user == r.black then [Point(r.playedOn, r.blackElo)]
    else []
  }

  function DurationOf(rows: seq<Row>): nat
    requires rows != []
    ensures DurationOf(rows) > 0
  {
    if rows[|rows| - 1].playedOn - rows[0].playedOn > Year() then LongDuration() else ShortDuration()
  }

  /** The rows of a mode with the player on one of the seats. */
  function GamesOf(rows: seq<Row>, user: int, mode: int): seq<Row>
    decreases |rows|
  {
    if rows == [] then []
    else
      var r := rows[|rows| - 1];
      GamesOf(rows[..|rows| - 1], user, mode) + (if r.mode == mode && (r.white == user || r.black == user) then [r] else [])
  }

  /** Each point is one of those games, in order, with the Elo of the player's own seat. */
  lemma {:induction false} PointsAreOwnElos(rows: seq<Row>, user: int, mode: int)
    ensures |PointsOf(rows, user, mode)| == |GamesOf(rows, user, mode)|
    ensures forall k :: 0 <= k < |PointsOf(rows, user, mode)| ==>
              var g, p := GamesOf(rows, user, mode)[k], PointsOf(rows, user, mode)[k];
              && p.time == g.playedOn
              && (g.white == user ==> p.elo == g.whiteElo)
              && (g.white != user ==> g.black == user && p.elo == g.blackElo)
    decreases |rows|
  {
    if rows != [] { PointsAreOwnElos(rows[..|rows| - 1], user, mode); }
  }

  /** Histories of more than 365 days are cut into weeks, others into days. */
  lemma DurationsInHours(rows: seq<Row>)
    requires rows != []
    ensures var hour := 3600000000000;
            DurationOf(rows) == if rows[|rows| - 1].playedOn - rows[0].playedOn > 8760 * hour then 168 * hour else 24 * hour
  {
  }

  /** A timestamp is the time rounded down to a multiple of the duration. */
  lemma TruncatedDown(t: nat, d: nat)
    requires d > 0
    ensures Truncate(t, d) <= t < Truncate(t, d) + d && Truncate(t, d) % d == 0
  {
    DivUnique(t / d * d, t / d, 0, d);
  }

  lemma PointsStep(rows: seq<Row>, i: nat, user: int, mode: int, d: nat)
    requires i < |rows| && d > 0
    ensures PointsOf(rows[..i + 1], user, mode) == PointsOf(rows[..i], user, mode) + PointOf(rows[i], user, mode)
    ensures PointOf(rows[i], user, mode) == [] ==>
              PointsOf(rows[..i + 1], user, mode) == PointsOf(rows[..i], user, mode)
    ensures PointOf(rows[i], user, mode) != [] ==>
              Folded(PointsOf(rows[..i + 1], user, mode), d)
              == Added(Folded(PointsOf(rows[..i], user, mode), d), PointOf(rows[i], user, mode)[0], d)
  {
    hide Added;
    assert rows[..i + 1][..i] == rows[..i];
    var before, p := PointsOf(rows[..i], user, mode), PointOf(rows[i], user, mode);
    if p != [] {
      assert (before + p)[..|before|] == before;
    } else {
      assert before + p == before;
    }
  }

  /** The buckets of the modes are different objects, and each has taken in its mode's games. */
  ghost predicate Holds(buckets: map<int, Bucket>, rows: seq<Row>, user: int, d: nat)
    requires d > 0
    reads set m | m in buckets :: buckets[m]
  {
    && (forall m, n :: m in buckets && n in buckets && m != n ==> buckets[m] != buckets[n])
    && (forall m :: m in buckets ==> buckets[m].State() == Folded(PointsOf(rows, user, m), d))
  }

  /** The bucket of a mode, made when it is first asked for. */
  method Get(buckets: map<int, Bucket>, mode: int) returns (bucket: Bucket, after: map<int, Bucket>)
    ensures after == buckets[mode := bucket]
    ensures mode in buckets ==> bucket == buckets[mode]
    ensures mode !in buckets ==> fresh(bucket) && bucket.State() == EmptyBucket()
  {
    if mode in buckets {
      bucket := buckets[mode];
    } else {
      bucket := new Bucket();
    }
    after := buckets[mode := bucket];
  }

  /** One row into the bucket of its mode. */
  method AddRow(buckets: map<int, Bucket>, rows: seq<Row>, i: nat, user: int, d: nat) returns (after: map<int, Bucket>)
    requires d > 0 && i < |rows| && Holds(buckets, rows[..i], user, d)
    requires rows[i].mode !in buckets ==> PointsOf(rows[..i], user, rows[i].mode) == []
    modifies set m | m in buckets :: buckets[m]
    ensures after.Keys == buckets.Keys + {rows[i].mode}
    ensures forall m :: m in after && m !in buckets ==> fresh(after[m])
    ensures forall m :: m in buckets ==> after[m] == buckets[m]
    ensures Holds(after, rows[..i + 1], user, d)
  {
    hide Folded, Added, PointsOf;
    var row := rows[i];
    var bucket;
    bucket, after := Get(buckets, row.mode);
    FoldedNothing(PointsOf(rows[..i], user, row.mode), d);
    OtherPoints(rows, i, user);
    PointsStep(rows, i, user, row.mode, d);
    if user == row.white {
      bucket.Add(Point(row.playedOn, row.whiteElo), d);
    } else if user == row.black {
      bucket.Add(Point(row.playedOn, row.blackElo), d);
    }
  }

  /** A row counts for its own mode only. */
  lemma OtherPoints(rows: seq<Row>, i: nat, user: int)
    requires i < |rows|
    ensures forall m :: m != rows[i].mode ==> PointsOf(rows[..i + 1], user, m) == PointsOf(rows[..i], user, m)
  {
    hide PointsOf;
    forall m | m != rows[i].mode
      ensures PointsOf(rows[..i + 1], user, m) == PointsOf(rows[..i], user, m)
    {
      PointsStep(rows, i, user, m, 1);
    }
  }

  lemma FoldedNothing(ps: seq<Point>, d: nat)
    requires d > 0
    ensures ps == [] ==> Folded(ps, d) == EmptyBucket()
  {
  }

  /** The buckets as they stand when all rows are in and the last ones are closed. */
  function HistoryOf(rows: seq<Row>, user: int, mode: int, d: nat): seq<Element>
    requires d > 0
  {
    Flushed(Folded(PointsOf(rows, user, mode), d), d).elements
  }

  /** Rows of unknown modes, and of games of others, are passed over; modes without a bucket
      are not listed. */
  method AggregateEloHistoryBuckets(rows: seq<Row>, user: int, modes: set<int>)
      returns (history: map<int, seq<Element>>, duration: nat)
    ensures rows == [] ==> history == map[] && duration == 0
    ensures rows != [] ==> duration == DurationOf(rows)
    ensures rows != [] ==> forall m :: m in history <==> m in modes && HistoryOf(rows, user, m, duration) != []
    ensures rows != [] ==> forall m :: m in history ==> history[m] == HistoryOf(rows, user, m, duration)
  {
    hide Folded, Added, Flushed, PointsOf;
    if |rows| == 0 {
      return map[], 0;
    }
    duration := DurationOf(rows);
    var buckets := FillBuckets(rows, user, modes, duration);
    history := CloseBuckets(buckets, rows, user, modes, duration);
  }

  method FillBuckets(rows: seq<Row>, user: int, modes: set<int>, d: nat) returns (buckets: map<int, Bucket>)
    requires d > 0
    ensures buckets.Keys <= modes && forall m :: m in buckets ==> fresh(buckets[m])
    ensures Holds(buckets, rows, user, d)
    ensures forall m :: m in modes && m !in buckets ==> PointsOf(rows, user, m) == []
  {
    hide Folded, PointsOf, Holds;
    buckets := map[];
    NothingHeld(rows[..0], user, d);
    for i := 0 to |rows|
      invariant buckets.Keys <= modes && forall m :: m in buckets ==> fresh(buckets[m])
      invariant Holds(buckets, rows[..i], user, d)
      invariant forall m :: m in modes && m !in buckets ==> PointsOf(rows[..i], user, m) == []
    {
      OtherPoints(rows, i, user);
      if rows[i].mode !in modes {
        SameHeld(buckets, rows[..i], rows[..i + 1], user, d);
        continue;
      }
      buckets := AddRow(buckets, rows, i, user, d);
    }
    assert rows[..|rows|] == rows;
  }

  lemma NothingHeld(rows: seq<Row>, user: int, d: nat)
    requires d > 0 && rows == []
    ensures Holds(map[], rows, user, d)
    ensures forall m :: PointsOf(rows, user, m) == []
  {
  }

  lemma SameHeld(buckets: map<int, Bucket>, rows: seq<Row>, more: seq<Row>, user: int, d: nat)
    requires d > 0 && Holds(buckets, rows, user, d)
    requires forall m :: m in buckets ==> PointsOf(more, user, m) == PointsOf(rows, user, m)
    ensures Holds(buckets, more, user, d)
  {
    hide Folded, PointsOf;
  }

  /** Closes the last bucket of every mode and lists the modes that have elements. */
  method CloseBuckets(given: map<int, Bucket>, rows: seq<Row>, user: int, modes: set<int>, d: nat)
      returns (history: map<int, seq<Element>>)
    requires d > 0 && given.Keys <= modes && Holds(given, rows, user, d)
    requires forall m :: m in modes && m !in given ==> PointsOf(rows, user, m) == []
    modifies set m | m in given :: given[m]
    ensures forall m :: m in history <==> m in modes && HistoryOf(rows, user, m, d) != []
    ensures forall m :: m in history ==> history[m] == HistoryOf(rows, user, m, d)
  {
    hide Folded, PointsOf, Flushed;
    history := map[];
    var remaining := modes;
    while remaining != {}
      invariant remaining <= modes
      invariant forall m :: m in remaining && m in given ==> given[m].State() == Folded(PointsOf(rows, user, m), d)
      invariant forall m :: m in history <==> m in modes - remaining && HistoryOf(rows, user, m, d) != []
      invariant forall m :: m in history ==> history[m] == HistoryOf(rows, user, m, d)
      decreases |remaining|
    {
      ghost var someone := SomeMember(remaining);
      var mode :| mode in remaining;
      var bucket, after := Get(given, mode);
      FoldedNothing(PointsOf(rows, user, mode), d);
      bucket.Append(d);
      if |bucket.elements| > 0 {
        history := history[mode := bucket.elements];
      }
      remaining := remaining - {mode};
    }
  }

  // ----- what the buckets hold -----

  predicate AllFilled(gs: seq<seq<Point>>) { forall i :: 0 <= i < |gs| ==> |gs[i]| > 0 }

  /** The games in groups: a game more than the duration after a group's first starts a new one. */
  function Grouped(ps: seq<Point>, d: nat): (gs: seq<seq<Point>>)
    ensures AllFilled(gs)
    ensures gs == [] <==> ps == []
    decreases |ps|
  {
    if ps == [] then []
    else
      var gs, p := Grouped(ps[..|ps| - 1], d), ps[|ps| - 1];
      if gs == [] || p.time > gs[|gs| - 1][0].time + d then gs + [[p]]
      else gs[..|gs| - 1] + [gs[|gs| - 1] + [p]]
  }

  function EloSum(ps: seq<Point>): real
    decreases |ps|
  {
    if ps == [] then 0.0 else EloSum(ps[..|ps| - 1]) + ps[|ps| - 1].elo
  }

  function ElementOf(g: seq<Point>, d: nat): Element
    requires g != [] && d > 0
  {
    Element(Truncate(g[0].time, d), EloSum(g) / |g| as real)
  }

  function ElementsOf(gs: seq<seq<Point>>, d: nat): seq<Element>
    requires d > 0 && AllFilled(gs)
    decreases |gs|
  {
    if gs == [] then []
    else ElementsOf(gs[..|gs| - 1], d) + [ElementOf(gs[|gs| - 1], d)]
  }

  /** The fold keeps the finished groups as elements and the current one as its sums. */
  lemma {:induction false} FoldIsGrouping(ps: seq<Point>, d: nat)
    requires d > 0 && forall i :: 0 <= i < |ps| ==> ps[i].time > 0
    ensures var gs, b := Grouped(ps, d), Folded(ps, d);
            && (ps == [] ==> b == EmptyBucket())
            && (ps != [] ==>
                  && b.elements == ElementsOf(gs[..|gs| - 1], d)
                  && b.eloTotal == EloSum(gs[|gs| - 1]) && b.eloCount == |gs[|gs| - 1]|
                  && b.startTime == gs[|gs| - 1][0].time > 0)
    decreases |ps|
  {
    hide Truncate;
    if ps != [] {
      var front, p := ps[..|ps| - 1], ps[|ps| - 1];
      FoldIsGrouping(front, d);
      var gs: seq<seq<Point>>, after: seq<seq<Point>> := Grouped(front, d), Grouped(ps, d);
      if gs == [] {
        assert after == [[p]] && after[..0] == [];
        SumOfOne(p);
      } else if p.time > gs[|gs| - 1][0].time + d {
        assert after[..|after| - 1] == gs;
        SumOfOne(p);
      } else {
        var last := gs[|gs| - 1];
        assert after[..|after| - 1] == gs[..|gs| - 1];
        assert (last + [p])[..|last|] == last;
      }
    }
  }

  lemma SumOfOne(p: Point)
    ensures EloSum([p]) == p.elo
  {
    assert [p][..0] == [];
  }

  /** The history of a mode is the averages of the groups of its games. */
  lemma HistoryIsGroups(rows: seq<Row>, user: int, mode: int, d: nat)
    requires d > 0 && forall i :: 0 <= i < |rows| ==> rows[i].playedOn > 0
    ensures HistoryOf(rows, user, mode, d) == ElementsOf(Grouped(PointsOf(rows, user, mode), d), d)
  {
    hide Truncate, Folded, PointsOf, Grouped;
    var ps := PointsOf(rows, user, mode);
    PointTimes(rows, user, mode);
    FoldIsGrouping(ps, d);
    var gs := Grouped(ps, d);
  }

  lemma {:induction false} PointTimes(rows: seq<Row>, user: int, mode: int)
    requires forall i :: 0 <= i < |rows| ==> rows[i].playedOn > 0
    ensures forall i :: 0 <= i < |PointsOf(rows, user, mode)| ==> PointsOf(rows, user, mode)[i].time > 0
    decreases |rows|
  {
    if rows != [] { PointTimes(rows[..|rows| - 1], user, mode); }
  }

  function Joined(gs: seq<seq<Point>>): seq<Point>
    decreases |gs|
  {
    if gs == [] then [] else Joined(gs[..|gs| - 1]) + gs[|gs| - 1]
  }

  lemma JoinedAppend(gs: seq<seq<Point>>, g: seq<Point>)
    ensures Joined(gs + [g]) == Joined(gs) + g
  {
    assert (gs + [g])[..|gs|] == gs;
  }

  lemma JoinedLarger(gs: seq<seq<Point>>, p: Point)
    requires gs != []
    ensures Joined(gs[..|gs| - 1] + [gs[|gs| - 1] + [p]]) == Joined(gs) + [p]
  {
    var front, last := gs[..|gs| - 1], gs[|gs| - 1];
    JoinedAppend(front, last + [p]);
    assert Joined(front) + (last + [p]) == (Joined(front) + last) + [p];
  }

  /** Every game is in exactly one group, in order. */
  lemma {:induction false} GroupsHoldEachOnce(ps: seq<Point>, d: nat)
    ensures Joined(Grouped(ps, d)) == ps
    decreases |ps|
  {
    hide Grouped, Joined;
    if ps == [] {
      NothingJoined(Grouped(ps, d));
    } else {
      var front, p := ps[..|ps| - 1], ps[|ps| - 1];
      GroupsHoldEachOnce(front, d);
      GroupedStep(ps, d);
      var gs: seq<seq<Point>> := Grouped(front, d);
      if gs == [] || p.time > gs[|gs| - 1][0].time + d {
        JoinedAppend(gs, [p]);
      } else {
        JoinedLarger(gs, p);
      }
      assert front + [p] == ps;
    }
  }

  lemma NothingJoined(gs: seq<seq<Point>>)
    requires gs == []
    ensures Joined(gs) == []
  {
  }

  ghost predicate InTimeOrder(ps: seq<Point>) { forall i, j :: 0 <= i < j < |ps| ==> ps[i].time <= ps[j].time }

  /** The games of a group are within one duration of its first. */
  ghost predicate WithinDuration(g: seq<Point>, d: nat) {
    g != [] && forall i :: 0 <= i < |g| ==> g[0].time <= g[i].time <= g[0].time + d
  }

  ghost predicate GroupsApart(gs: seq<seq<Point>>, d: nat) {
    && (forall k :: 0 <= k < |gs| ==> WithinDuration(gs[k], d))
    && (forall j, k :: 0 <= j < k < |gs| ==> StartsLater(gs[j], gs[k], d))
  }

  ghost predicate StartsLater(g: seq<Point>, h: seq<Point>, d: nat) {
    g != [] && h != [] && h[0].time > g[0].time + d
  }

  lemma NewGroupApart(gs: seq<seq<Point>>, p: Point, d: nat)
    requires GroupsApart(gs, d) && AllFilled(gs)
    requires gs != [] ==> p.time > gs[|gs| - 1][0].time + d
    ensures GroupsApart(gs + [[p]], d)
  {
    hide WithinDuration;
    var n := |gs|;
    assert WithinDuration([p], d) by { OneWithin(p, d); }
    forall j | 0 <= j < n
      ensures StartsLater(gs[j], [p], d)
    {
      if j < n - 1 { assert StartsLater(gs[j], gs[n - 1], d); }
    }
  }

  lemma OneWithin(p: Point, d: nat)
    ensures WithinDuration([p], d)
  {
  }

  lemma LargerGroupApart(gs: seq<seq<Point>>, p: Point, d: nat)
    requires GroupsApart(gs, d) && AllFilled(gs) && gs != []
    requires gs[|gs| - 1][0].time <= p.time <= gs[|gs| - 1][0].time + d
    ensures GroupsApart(gs[..|gs| - 1] + [gs[|gs| - 1] + [p]], d)
  {
    hide WithinDuration;
    var n, last := |gs|, gs[|gs| - 1];
    assert WithinDuration(last, d);
    LargerWithin(last, p, d);
    forall j | 0 <= j < n - 1
      ensures StartsLater(gs[j], last + [p], d)
    {
      assert StartsLater(gs[j], gs[n - 1], d);
    }
  }

  lemma LargerWithin(g: seq<Point>, p: Point, d: nat)
    requires WithinDuration(g, d) && g[0].time <= p.time <= g[0].time + d
    ensures WithinDuration(g + [p], d)
  {
  }

  lemma GroupedStep(ps: seq<Point>, d: nat)
    requires ps != []
    ensures var gs, p := Grouped(ps[..|ps| - 1], d), ps[|ps| - 1];
            Grouped(ps, d) == if gs == [] || p.time > gs[|gs| - 1][0].time + d then gs + [[p]]
                              else gs[..|gs| - 1] + [gs[|gs| - 1] + [p]]
  {
  }

  lemma FrontInOrder(ps: seq<Point>)
    requires InTimeOrder(ps) && ps != []
    ensures InTimeOrder(ps[..|ps| - 1])
    ensures |ps| > 1 ==> ps[|ps| - 2].time <= ps[|ps| - 1].time
  {
  }

  lemma {:induction false} GroupsAreApart(ps: seq<Point>, d: nat)
    requires InTimeOrder(ps)
    ensures GroupsApart(Grouped(ps, d), d)
    ensures ps != [] ==> Grouped(ps, d)[|Grouped(ps, d)| - 1][0].time <= ps[|ps| - 1].time
    decreases |ps|
  {
    hide Grouped, GroupsApart, InTimeOrder;
    if ps == [] {
      NoGroupsApart(Grouped(ps, d), d);
    } else {
      var front, p := ps[..|ps| - 1], ps[|ps| - 1];
      FrontInOrder(ps);
      GroupsAreApart(front, d);
      GroupedStep(ps, d);
      var gs: seq<seq<Point>> := Grouped(front, d);
      if gs == [] || p.time > gs[|gs| - 1][0].time + d {
        NewGroupApart(gs, p, d);
      } else {
        LargerGroupApart(gs, p, d);
      }
    }
  }

  lemma NoGroupsApart(gs: seq<seq<Point>>, d: nat)
    requires gs == []
    ensures GroupsApart(gs, d)
  {
  }

  lemma TruncationKeepsApart(s: nat, t: nat, d: nat)
    requires d > 0 && t > s + d
    ensures Truncate(s, d) < Truncate(t, d)
  {
    var q, r := s / d, t / d;
    assert s == q * d + s % d && t == r * d + t % d;
    if r < q { MulGrows(q - r, d); }
    if r > q { MulGrows(r - q, d); }
  }

  lemma {:induction false} ElementAt(gs: seq<seq<Point>>, d: nat, k: nat)
    requires d > 0 && AllFilled(gs) && k < |gs|
    ensures |ElementsOf(gs, d)| == |gs| && ElementsOf(gs, d)[k] == ElementOf(gs[k], d)
    decreases |gs|
  {
    hide ElementOf;
    var front := gs[..|gs| - 1];
    if k < |gs| - 1 {
      ElementAt(front, d, k);
      assert gs[k] == front[k];
    } else if |front| > 0 {
      ElementAt(front, d, 0);
    }
  }

  lemma {:induction false} RowsInOrderGivePoints(rows: seq<Row>, user: int, mode: int)
    requires forall i, j :: 0 <= i < j < |rows| ==> rows[i].playedOn <= rows[j].playedOn
    ensures InTimeOrder(PointsOf(rows, user, mode))
    ensures forall i :: 0 <= i < |PointsOf(rows, user, mode)| ==>
              rows != [] && PointsOf(rows, user, mode)[i].time <= rows[|rows| - 1].playedOn
    decreases |rows|
  {
    if rows != [] {
      RowsInOrderGivePoints(rows[..|rows| - 1], user, mode);
    }
  }

  /** The timestamps of the buckets of a mode strictly increase. */
  lemma TimestampsIncrease(rows: seq<Row>, user: int, mode: int, d: nat, j: nat, k: nat)
    requires d > 0 && forall i :: 0 <= i < |rows| ==> rows[i].playedOn > 0
    requires forall i, l :: 0 <= i < l < |rows| ==> rows[i].playedOn <= rows[l].playedOn
    requires j < k < |HistoryOf(rows, user, mode, d)|
    ensures HistoryOf(rows, user, mode, d)[j].timestamp < HistoryOf(rows, user, mode, d)[k].timestamp
  {
    hide Truncate, PointsOf, Grouped, HistoryOf, ElementsOf, InTimeOrder;
    var ps := PointsOf(rows, user, mode);
    var gs := Grouped(ps, d);
    HistoryIsGroups(rows, user, mode, d);
    RowsInOrderGivePoints(rows, user, mode);
    GroupsAreApart(ps, d);
    NoElements(gs, d);
    ElementAt(gs, d, j);
    ElementAt(gs, d, k);
    assert StartsLater(gs[j], gs[k], d);
    TruncationKeepsApart(gs[j][0].time, gs[k][0].time, d);
  }

  lemma {:induction false} NoElements(gs: seq<seq<Point>>, d: nat)
    requires d > 0 && AllFilled(gs)
    ensures |ElementsOf(gs, d)| == |gs|
    decreases |gs|
  {
    if gs != [] { NoElements(gs[..|gs| - 1], d); }
  }

  /** The averages of the buckets, each times its number of games. */
  function Weighted(gs: seq<seq<Point>>, d: nat): real
    requires d > 0 && AllFilled(gs)
    decreases |gs|
  {
    if gs == [] then 0.0
    else Weighted(gs[..|gs| - 1], d) + |gs[|gs| - 1]| as real * ElementOf(gs[|gs| - 1], d).elo
  }

  lemma {:induction false} SumAppend(a: seq<Point>, b: seq<Point>)
    ensures EloSum(a + b) == EloSum(a) + EloSum(b)
    decreases |b|
  {
    if b == [] {
      assert a + b == a;
    } else {
      assert (a + b)[..|a + b| - 1] == a + b[..|b| - 1];
      SumAppend(a, b[..|b| - 1]);
    }
  }

  lemma {:induction false} WeightedIsSum(gs: seq<seq<Point>>, d: nat)
    requires d > 0 && AllFilled(gs)
    ensures Weighted(gs, d) == EloSum(Joined(gs))
    decreases |gs|
  {
    hide EloSum, Truncate;
    if gs == [] {
      NoSum(Joined(gs));
    } else {
      var front, last := gs[..|gs| - 1], gs[|gs| - 1];
      WeightedIsSum(front, d);
      SumAppend(Joined(front), last);
      TimesAverage(EloSum(last), |last|);
    }
  }

  lemma NoSum(ps: seq<Point>)
    requires ps == []
    ensures EloSum(ps) == 0.0
  {
  }

  lemma TimesAverage(x: real, n: nat)
    requires n > 0
    ensures n as real * (x / n as real) == x
  {
  }

  /** For a player's games in time order: every game of the mode is in exactly one bucket, the
      buckets' averages times their sizes add up to all its Elos, and a bucket's games are
      within one duration of its first. */
  lemma BucketsAreFaithful(rows: seq<Row>, user: int, mode: int, d: nat)
    requires d > 0 && forall i :: 0 <= i < |rows| ==> rows[i].playedOn > 0
    requires forall i, j :: 0 <= i < j < |rows| ==> rows[i].playedOn <= rows[j].playedOn
    ensures var ps := PointsOf(rows, user, mode);
            var gs := Grouped(ps, d);
            && HistoryOf(rows, user, mode, d) == ElementsOf(gs, d)
            && Joined(gs) == ps
            && Weighted(gs, d) == EloSum(ps)
            && GroupsApart(gs, d)
  {
    hide Truncate, PointsOf, Grouped, HistoryOf, ElementsOf, InTimeOrder, Weighted, GroupsApart;
    var ps := PointsOf(rows, user, mode);
    HistoryIsGroups(rows, user, mode, d);
    GroupsHoldEachOnce(ps, d);
    WeightedIsSum(Grouped(ps, d), d);
    RowsInOrderGivePoints(rows, user, mode);
    GroupsAreApart(ps, d);
  }
}
