/** The pool of users who wait for a match: a map of the users, an index sorted by Elo, and the
    matches proposed to pairs of them. The users' response channels are left out. */
module MatchPool {
  import opened Wrappers

  datatype PendingUser = PendingUser(userId: int, userElo: real, ticks: int)

  datatype EloRecord = EloRecord(userId: int, userElo: real)

  datatype Proposal = Proposal(userOne: PendingUser, userTwo: PendingUser, userOneAccept: bool, userTwoAccept: bool)

  datatype Pool = Pool(pending: map<int, PendingUser>, eloIdx: seq<EloRecord>, proposals: seq<Proposal>)

  // ----- what the requests do -----

  /** The first position whose Elo is not below the given one. */
  function FirstAtLeast(idx: seq<EloRecord>, elo: real): (i: nat)
    ensures i <= |idx|
    decreases |idx|
  {
    if idx == [] || idx[0].userElo >= elo then 0 else FirstAtLeast(idx[1..], elo) + 1
  }

  function InsertRecord(idx: seq<EloRecord>, r: EloRecord): seq<EloRecord> {
    var i := FirstAtLeast(idx, r.userElo);
    idx[..i] + [r] + idx[i..]
  }

  function WithUser(p: Pool, u: PendingUser): Pool {
    if u.userId in p.pending then p
    else p.(pending := p.pending[u.userId := u], eloIdx := InsertRecord(p.eloIdx, EloRecord(u.userId, u.userElo)))
  }

  function KeepOthers(idx: seq<EloRecord>, ids: set<int>): seq<EloRecord>
    decreases |idx|
  {
    if idx == [] then []
    else KeepOthers(idx[..|idx| - 1], ids) + (if idx[|idx| - 1].userId in ids then [] else [idx[|idx| - 1]])
  }

  function WithoutUsers(p: Pool, ids: set<int>): Pool {
    p.(pending := p.pending - ids, eloIdx := KeepOthers(p.eloIdx, ids))
  }

  predicate IsIn(m: Proposal, user: int) { user == m.userOne.userId || user == m.userTwo.userId }

  /** The first proposal a user is in. */
  function ProposalOf(ms: seq<Proposal>, user: int): (i: Option<nat>)
    ensures i.Some? ==> i.value < |ms| && IsIn(ms[i.value], user)
    ensures i.None? ==> forall j :: 0 <= j < |ms| ==> !IsIn(ms[j], user)
    decreases |ms|
  {
    if ms == [] then None
    else if IsIn(ms[0], user) then Some(0)
    else
      var rest := ProposalOf(ms[1..], user);
      if rest.None? then None else Some(rest.value + 1)
  }

  function Accepted(m: Proposal, user: int): Proposal {
    if user == m.userOne.userId then m.(userOneAccept := true) else m.(userTwoAccept := true)
  }

  function Begun(p: Pool, user: int, elo: real): Pool { WithUser(p, PendingUser(user, elo, 0)) }

  function Confirmed(p: Pool, user: int): Pool {
    var i := ProposalOf(p.proposals, user);
    if i.None? then p
    else
      var m := Accepted(p.proposals[i.value], user);
      p.(proposals := if m.userOneAccept && m.userTwoAccept
                      then p.proposals[..i.value] + p.proposals[i.value + 1..]
                      else p.proposals[i.value := m])
  }

  function OtherOf(m: Proposal, user: int): PendingUser {
    if user == m.userOne.userId then m.userTwo else m.userOne
  }

  function Cancelled(p: Pool, user: int): Pool {
    var q := WithoutUsers(p, {user});
    var i := ProposalOf(q.proposals, user);
    if i.None? then q
    else
      WithUser(q.(proposals := q.proposals[..i.value] + q.proposals[i.value + 1..]), OtherOf(q.proposals[i.value], user))
  }

  // ----- the ranges of the users -----

  /** How far from its own Elo a user looks for a match. */
  function Offset(u: PendingUser, factor: int): real { (u.ticks * factor) as real }

  predicate InRange(u: PendingUser, of: PendingUser, factor: int) {
    of.userElo - Offset(of, factor) <= u.userElo <= of.userElo + Offset(of, factor)
  }

  predicate Mutual(a: PendingUser, b: PendingUser, factor: int) { InRange(a, b, factor) && InRange(b, a, factor) }

  /** The users whose range holds at least themselves. */
  function InOwnRange(p: Pool, factor: int): set<int> {
    set u | u in p.pending && Offset(p.pending[u], factor) >= 0.0
  }

  function Older(u: PendingUser): PendingUser { u.(ticks := u.ticks + 1) }

  function OneTickOlder(pending: map<int, PendingUser>): map<int, PendingUser> {
    map u | u in pending :: Older(pending[u])
  }

  /** A tick of the node as it comes out: whoever is in their own range is gone, matched with
      nobody, and the others have waited one tick more. */
  function Ticked(p: Pool, factor: int): Pool {
    var q := WithoutUsers(p, InOwnRange(p, factor));
    q.(pending := OneTickOlder(q.pending))
  }

  /** Two users are in each other's range if their Elos are no further apart than either of them
      has waited for, by the factor for a tick. */
  lemma MutualMeansClose(a: PendingUser, b: PendingUser, factor: int)
    ensures var gap := if a.userElo < b.userElo then b.userElo - a.userElo else a.userElo - b.userElo;
            Mutual(a, b, factor) <==> gap <= (a.ticks * factor) as real && gap <= (b.ticks * factor) as real
  {
  }

  /** Beginning adds a user who is not waiting yet, for no tick so far, and changes nothing else
      of who waits; a user who waits keeps the Elo and the ticks they have. */
  lemma BegunWaits(p: Pool, user: int, elo: real)
    ensures Begun(p, user, elo).pending == if user in p.pending then p.pending else p.pending[user := PendingUser(user, elo, 0)]
    ensures Begun(p, user, elo).proposals == p.proposals
  {
  }

  /** Confirming marks just the user's own acceptance of their proposal; once both players have
      accepted it is gone, the others staying as they are. */
  lemma ConfirmedProposals(p: Pool, user: int)
    ensures Confirmed(p, user).pending == p.pending && Confirmed(p, user).eloIdx == p.eloIdx
    ensures match ProposalOf(p.proposals, user)
            case None => Confirmed(p, user).proposals == p.proposals
            case Some(i) =>
              var m, after := p.proposals[i], Confirmed(p, user).proposals;
              var first := m.userOne.userId == user;
              if (first && m.userTwoAccept) || (!first && m.userOneAccept) then after == p.proposals[..i] + p.proposals[i + 1..]
              else after == p.proposals[i := Proposal(m.userOne, m.userTwo, m.userOneAccept || first, m.userTwoAccept || !first)]
  {
  }

  /** Cancelling takes the user out of the pool and ends their proposal, whose other player waits
      again as they did when it was made; everyone else is left as they are. */
  lemma CancelledPool(p: Pool, user: int)
    ensures var after := Cancelled(p, user);
            match ProposalOf(p.proposals, user)
            case None => after.pending == p.pending - {user} && after.proposals == p.proposals
            case Some(i) =>
              var m := p.proposals[i];
              var other := if m.userOne.userId == user then m.userTwo else m.userOne;
              && after.proposals == p.proposals[..i] + p.proposals[i + 1..]
              && after.pending == (if other.userId in p.pending && other.userId != user then p.pending - {user}
                                   else (p.pending - {user})[other.userId := other])
  {
    hide KeepOthers;
  }

  /** A tick keeps just the users whose range is negative, each with one tick more. */
  lemma TickedPool(p: Pool, factor: int)
    ensures var after := Ticked(p, factor);
            && after.proposals == p.proposals
            && (forall u :: u in after.pending <==> u in p.pending && p.pending[u].ticks * factor < 0)
            && (forall u :: u in after.pending ==>
                  after.pending[u] == PendingUser(p.pending[u].userId, p.pending[u].userElo, p.pending[u].ticks + 1))
  {
    hide KeepOthers;
  }

  // ----- the map and the index agree -----

  ghost predicate SortedByElo(idx: seq<EloRecord>) {
    forall i, j :: 0 <= i < j < |idx| ==> idx[i].userElo <= idx[j].userElo
  }

  /** Exactly one record for each pending user, with its Elo. */
  ghost predicate Agree(pending: map<int, PendingUser>, idx: seq<EloRecord>) {
    && (forall u :: u in pending ==> pending[u].userId == u && exists i :: 0 <= i < |idx| && idx[i].userId == u)
    && (forall i :: 0 <= i < |idx| ==> idx[i].userId in pending && pending[idx[i].userId].userElo == idx[i].userElo)
    && (forall i, j :: 0 <= i < j < |idx| ==> idx[i].userId != idx[j].userId)
  }

  ghost predicate Sound(p: Pool) {
    SortedByElo(p.eloIdx) && Agree(p.pending, p.eloIdx)
  }

  lemma {:induction false} FirstAtLeastSplits(idx: seq<EloRecord>, elo: real)
    requires SortedByElo(idx)
    ensures forall i :: 0 <= i < FirstAtLeast(idx, elo) ==> idx[i].userElo < elo
    ensures forall i :: FirstAtLeast(idx, elo) <= i < |idx| ==> elo <= idx[i].userElo
    decreases |idx|
  {
    if idx != [] && idx[0].userElo < elo {
      FirstAtLeastSplits(idx[1..], elo);
      assert forall i :: 1 <= i < |idx| ==> idx[i] == idx[1..][i - 1];
    }
  }

  lemma {:induction false} FirstIsUnique(idx: seq<EloRecord>, elo: real, k: nat)
    requires k <= |idx|
    requires forall i :: 0 <= i < k ==> idx[i].userElo < elo
    requires k < |idx| ==> elo <= idx[k].userElo
    ensures k == FirstAtLeast(idx, elo)
    decreases |idx|
  {
    if idx != [] && idx[0].userElo < elo { FirstIsUnique(idx[1..], elo, k - 1); }
  }

  lemma InsertAt(idx: seq<EloRecord>, r: EloRecord, j: nat)
    requires j <= |idx|
    ensures var k := FirstAtLeast(idx, r.userElo);
            InsertRecord(idx, r)[j] == (if j < k then idx[j] else if j == k then r else idx[j - 1])
    ensures |InsertRecord(idx, r)| == |idx| + 1
  {
  }

  lemma InsertKeepsSorted(idx: seq<EloRecord>, r: EloRecord)
    requires SortedByElo(idx)
    ensures SortedByElo(InsertRecord(idx, r))
  {
    hide InsertRecord, FirstAtLeast;
    FirstAtLeastSplits(idx, r.userElo);
    var after := InsertRecord(idx, r);
    InsertAt(idx, r, 0);
    forall i, j | 0 <= i < j < |after|
      ensures after[i].userElo <= after[j].userElo
    {
      InsertAt(idx, r, i);
      InsertAt(idx, r, j);
    }
  }

  lemma InsertKeepsAgree(p: Pool, u: PendingUser)
    requires Agree(p.pending, p.eloIdx) && u.userId !in p.pending
    ensures Agree(WithUser(p, u).pending, WithUser(p, u).eloIdx)
  {
    hide InsertRecord, FirstAtLeast;
    var r := EloRecord(u.userId, u.userElo);
    var idx, after, pending := p.eloIdx, InsertRecord(p.eloIdx, r), p.pending[u.userId := u];
    var k := FirstAtLeast(idx, u.userElo);
    InsertAt(idx, r, 0);
    forall v | v in pending
      ensures pending[v].userId == v && exists i :: 0 <= i < |after| && after[i].userId == v
    {
      if v == u.userId {
        InsertAt(idx, r, k);
        assert after[k].userId == v;
      } else {
        var i :| 0 <= i < |idx| && idx[i].userId == v;
        var j := if i < k then i else i + 1;
        InsertAt(idx, r, j);
        assert after[j].userId == v;
      }
    }
    forall i | 0 <= i < |after|
      ensures after[i].userId in pending && pending[after[i].userId].userElo == after[i].userElo
    {
      InsertAt(idx, r, i);
    }
    forall i, j | 0 <= i < j < |after|
      ensures after[i].userId != after[j].userId
    {
      InsertAt(idx, r, i);
      InsertAt(idx, r, j);
    }
  }

  lemma {:induction false} KeepOthersKeeps(idx: seq<EloRecord>, ids: set<int>)
    ensures forall r :: r in KeepOthers(idx, ids) <==> r in idx && r.userId !in ids
    decreases |idx|
  {
    if idx != [] {
      KeepOthersKeeps(idx[..|idx| - 1], ids);
      assert idx == idx[..|idx| - 1] + [idx[|idx| - 1]];
    }
  }

  ghost predicate DistinctUsers(idx: seq<EloRecord>) {
    forall i, j :: 0 <= i < j < |idx| ==> idx[i].userId != idx[j].userId
  }

  lemma LastIsOrdered(kept: seq<EloRecord>, last: EloRecord)
    requires SortedByElo(kept) && DistinctUsers(kept)
    requires forall r :: r in kept ==> r.userId != last.userId && r.userElo <= last.userElo
    ensures SortedByElo(kept + [last]) && DistinctUsers(kept + [last])
  {
    forall i | 0 <= i < |kept|
      ensures kept[i].userId != last.userId && kept[i].userElo <= last.userElo
    {
      assert kept[i] in kept;
    }
  }

  lemma FrontIsOrdered(idx: seq<EloRecord>)
    requires SortedByElo(idx) && DistinctUsers(idx) && idx != []
    ensures SortedByElo(idx[..|idx| - 1]) && DistinctUsers(idx[..|idx| - 1])
    ensures forall r :: r in idx[..|idx| - 1] ==> r.userId != idx[|idx| - 1].userId && r.userElo <= idx[|idx| - 1].userElo
  {
    forall r | r in idx[..|idx| - 1]
      ensures r.userId != idx[|idx| - 1].userId && r.userElo <= idx[|idx| - 1].userElo
    {
      var i :| 0 <= i < |idx| - 1 && idx[i] == r;
    }
  }

  lemma {:induction false} KeepOthersOrdered(idx: seq<EloRecord>, ids: set<int>)
    requires SortedByElo(idx) && DistinctUsers(idx)
    ensures SortedByElo(KeepOthers(idx, ids)) && DistinctUsers(KeepOthers(idx, ids))
    decreases |idx|
  {
    hide SortedByElo, DistinctUsers;
    if idx != [] {
      var front, last := idx[..|idx| - 1], idx[|idx| - 1];
      FrontIsOrdered(idx);
      KeepOthersOrdered(front, ids);
      KeepOthersKeeps(front, ids);
      var kept := KeepOthers(front, ids);
      LastIsOrdered(kept, last);
      assert kept + [] == kept;
    }
  }

  lemma RemovalKeepsSound(p: Pool, ids: set<int>)
    requires Sound(p)
    ensures Sound(WithoutUsers(p, ids))
  {
    hide KeepOthers;
    var after := KeepOthers(p.eloIdx, ids);
    KeepOthersKeeps(p.eloIdx, ids);
    KeepOthersOrdered(p.eloIdx, ids);
    forall u | u in p.pending - ids
      ensures exists i :: 0 <= i < |after| && after[i].userId == u
    {
      var i :| 0 <= i < |p.eloIdx| && p.eloIdx[i].userId == u;
      assert p.eloIdx[i] in after;
    }
    forall i | 0 <= i < |after|
      ensures after[i].userId in p.pending - ids && p.pending[after[i].userId].userElo == after[i].userElo
    {
      assert after[i] in p.eloIdx;
    }
  }

  lemma InsertKeepsSound(p: Pool, u: PendingUser)
    requires Sound(p)
    ensures Sound(WithUser(p, u))
  {
    hide InsertRecord, SortedByElo, Agree;
    if u.userId !in p.pending {
      InsertKeepsSorted(p.eloIdx, EloRecord(u.userId, u.userElo));
      InsertKeepsAgree(p, u);
    }
  }

  lemma OlderKeepsSound(p: Pool)
    requires Sound(p)
    ensures Sound(p.(pending := OneTickOlder(p.pending)))
  {
  }

  // ----- runs -----

  datatype Action =
    | Begin(user: int, elo: real)
    | Confirm(user: int)
    | Cancel(user: int)
    | Tick

  function Next(p: Pool, a: Action, factor: int): Pool {
    match a
    case Begin(user, elo) => Begun(p, user, elo)
    case Confirm(user) => Confirmed(p, user)
    case Cancel(user) => Cancelled(p, user)
    case Tick => Ticked(p, factor)
  }

  function After(actions: seq<Action>, factor: int): Pool
    decreases |actions|
  {
    if actions == [] then Pool(map[], [], [])
    else Next(After(actions[..|actions| - 1], factor), actions[|actions| - 1], factor)
  }

  lemma NextKeepsSound(p: Pool, a: Action, factor: int)
    requires Sound(p)
    ensures Sound(Next(p, a, factor))
  {
    hide Sound, WithUser, WithoutUsers, InOwnRange, OneTickOlder;
    match a {
      case Begin(user, elo) =>
        InsertKeepsSound(p, PendingUser(user, elo, 0));
      case Confirm(user) =>
        SameUsers(p, Confirmed(p, user));
      case Cancel(user) =>
        var q := WithoutUsers(p, {user});
        RemovalKeepsSound(p, {user});
        var i := ProposalOf(q.proposals, user);
        if i.Some? {
          var r := q.(proposals := q.proposals[..i.value] + q.proposals[i.value + 1..]);
          SameUsers(q, r);
          InsertKeepsSound(r, OtherOf(q.proposals[i.value], user));
        }
      case Tick =>
        RemovalKeepsSound(p, InOwnRange(p, factor));
        OlderKeepsSound(WithoutUsers(p, InOwnRange(p, factor)));
    }
  }

  lemma SameUsers(p: Pool, q: Pool)
    requires Sound(p) && q.pending == p.pending && q.eloIdx == p.eloIdx
    ensures Sound(q)
  {
  }

  /** In every run the index is sorted and agrees with the map, nobody has waited a negative
      time, and no match is ever proposed: a tick drops users without proposing them. */
  lemma {:induction false} EveryRunIsSound(actions: seq<Action>, factor: int)
    ensures Sound(After(actions, factor))
    ensures forall u :: u in After(actions, factor).pending ==> After(actions, factor).pending[u].ticks >= 0
    ensures After(actions, factor).proposals == []
    decreases |actions|
  {
    hide Sound, InsertRecord, KeepOthers, InOwnRange;
    if actions == [] {
      EmptyIsSound(After(actions, factor));
    } else {
      var p, a := After(actions[..|actions| - 1], factor), actions[|actions| - 1];
      EveryRunIsSound(actions[..|actions| - 1], factor);
      NextKeepsSound(p, a, factor);
    }
  }

  lemma EmptyIsSound(p: Pool)
    requires p == Pool(map[], [], [])
    ensures Sound(p)
  {
  }

  /** A tick with a factor that is not negative empties the pool. */
  lemma TickEmptiesPool(actions: seq<Action>, factor: nat)
    ensures Ticked(After(actions, factor), factor) == Pool(map[], [], [])
  {
    hide After, SortedByElo, KeepOthers;
    var p := After(actions, factor);
    EveryRunIsSound(actions, factor);
    forall u | u in p.pending
      ensures Offset(p.pending[u], factor) >= 0.0
    {
      assert p.pending[u].ticks * factor >= 0;
    }
    var gone := InOwnRange(p, factor);
    assert p.pending - gone == map[];
    NothingKept(p.eloIdx, gone);
  }

  lemma {:induction false} NothingKept(idx: seq<EloRecord>, gone: set<int>)
    requires forall i :: 0 <= i < |idx| ==> idx[i].userId in gone
    ensures KeepOthers(idx, gone) == []
    decreases |idx|
  {
    if idx != [] { NothingKept(idx[..|idx| - 1], gone); }
  }

  lemma {:induction false} AllKept(idx: seq<EloRecord>, gone: set<int>)
    requires gone == {}
    ensures KeepOthers(idx, gone) == idx
    decreases |idx|
  {
    if idx != [] {
      AllKept(idx[..|idx| - 1], gone);
      assert idx == idx[..|idx| - 1] + [idx[|idx| - 1]];
    }
  }
}
