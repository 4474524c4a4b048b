/** The node that serves the requests of the matchmaking pool, one at a time. */
module Matchmaker {
  import opened Wrappers
  import opened MatchPool

  /** What a request sends back: to whom, and the players of a confirmed match. */
  datatype Response =
    | Joined(user: int)
    | Confirmation(user: int, userOne: int, userTwo: int)
    | Cancellation(user: int)

  predicate OtherAccepted(p: Proposal, user: int) { if user == p.userOne.userId then p.userTwoAccept else p.userOneAccept }

  class Node {
    const tickFactor: int
    var pendingUsers: map<int, PendingUser>
    var userEloIdx: seq<EloRecord>
    var matchProposals: seq<Proposal>
    var potentialProposals: seq<(int, int)>
    var pairedUsers: set<int>

    ghost function State(): Pool
      reads this
    {
      Pool(pendingUsers, userEloIdx, matchProposals)
    }

    ghost predicate Valid()
      reads this
    {
      Sound(State())
    }

    constructor (tickFactor: int)
      ensures Valid() && State() == After([], tickFactor) && this.tickFactor == tickFactor
    {
      this.tickFactor := tickFactor;
      pendingUsers := map[];
      userEloIdx, matchProposals, potentialProposals := [], [], [];
      pairedUsers := {};
    }

    method HandleBeginRequest(user: int, elo: real) returns (sent: seq<Response>)
      requires Valid()
      modifies this
      ensures Valid() && State() == Begun(old(State()), user, elo)
      ensures sent == [Joined(user)]
    {
      InsertPendingUser(PendingUser(user, elo, 0));
      sent := [Joined(user)];
    }

    /** Marks the user's acceptance; the match is confirmed to both when both have accepted. */
    method HandleConfirmRequest(user: int) returns (sent: seq<Response>)
      requires Valid()
      modifies this
      ensures Valid() && State() == Confirmed(old(State()), user)
      ensures match ProposalOf(old(matchProposals), user)
              case None => sent == []
              case Some(i) =>
                var p := old(matchProposals)[i];
                var one, two := p.userOne.userId, p.userTwo.userId;
                if OtherAccepted(p, user) then sent == [Confirmation(one, one, two), Confirmation(two, one, two)] else sent == []
    {
      hide Sound;
      var index := GetMatchProposal(user);
      if index.None? {
        return [];
      }
      var proposal := matchProposals[index.value];
      if user == proposal.userOne.userId {
        proposal := proposal.(userOneAccept := true);
      } else {
        proposal := proposal.(userTwoAccept := true);
      }
      ghost var before := State();
      matchProposals := matchProposals[index.value := proposal];
      sent := [];
      if proposal.userOneAccept && proposal.userTwoAccept {
        var one, two := proposal.userOne.userId, proposal.userTwo.userId;
        sent := [Confirmation(one, one, two), Confirmation(two, one, two)];
        matchProposals := matchProposals[..index.value] + matchProposals[index.value + 1..];
      }
      SameUsers(before, State());
    }

    /** Takes the user out of the pool, and out of a match: the other player waits again. */
    method HandleCancelRequest(user: int) returns (sent: seq<Response>)
      requires Valid()
      modifies this
      ensures Valid() && State() == Cancelled(old(State()), user)
      ensures match ProposalOf(old(matchProposals), user)
              case None => sent == []
              case Some(i) => sent == [Cancellation(OtherOf(old(matchProposals)[i], user).userId)]
    {
      hide Sound, KeepOthers, WithUser;
      DeletePendingUsers({user});
      var index := GetMatchProposal(user);
      if index.None? {
        return [];
      }
      var proposal := matchProposals[index.value];
      var other := if user == proposal.userOne.userId then proposal.userTwo else proposal.userOne;
      ghost var before := State();
      matchProposals := matchProposals[..index.value] + matchProposals[index.value + 1..];
      SameUsers(before, State());
      InsertPendingUser(other);
      sent := [Cancellation(other.userId)];
    }

    /** The position for a new record, by binary search. */
    method Search(elo: real) returns (i: nat)
      requires Valid()
      ensures i == FirstAtLeast(userEloIdx, elo)
    {
      hide FirstAtLeast;
      var low, high := 0, |userEloIdx|;
      while low < high
        invariant 0 <= low <= high <= |userEloIdx|
        invariant forall k :: 0 <= k < low ==> userEloIdx[k].userElo < elo
        invariant forall k :: high <= k < |userEloIdx| ==> elo <= userEloIdx[k].userElo
      {
        var mid := (low + high) / 2;
        if userEloIdx[mid].userElo >= elo {
          high := mid;
        } else {
          low := mid + 1;
        }
      }
      FirstIsUnique(userEloIdx, elo, low);
      i := low;
    }

    method InsertPendingUser(u: PendingUser)
      requires Valid()
      modifies this`pendingUsers, this`userEloIdx
      ensures Valid() && State() == WithUser(old(State()), u)
    {
      if u.userId in pendingUsers {
        return;
      }
      InsertKeepsSound(State(), u);
      var i := Search(u.userElo);
      pendingUsers := pendingUsers[u.userId := u];
      userEloIdx := userEloIdx[..i] + [EloRecord(u.userId, u.userElo)] + userEloIdx[i..];
    }

    method GetMatchProposal(user: int) returns (index: Option<nat>)
      ensures index == ProposalOf(matchProposals, user)
    {
      for i := 0 to |matchProposals|
        invariant ProposalOf(matchProposals, user) == Later(ProposalOf(matchProposals[i..], user), i)
      {
        if IsIn(matchProposals[i], user) {
          return Some(i);
        }
        assert matchProposals[i..][1..] == matchProposals[i + 1..];
      }
      index := None;
    }

    method DeletePendingUsers(ids: set<int>)
      requires Valid()
      modifies this`pendingUsers, this`userEloIdx
      ensures Valid() && State() == WithoutUsers(old(State()), ids)
    {
      hide Sound, KeepOthers;
      RemovalKeepsSound(State(), ids);
      pendingUsers := pendingUsers - ids;
      userEloIdx := KeepOthers(userEloIdx, ids);
    }

    // ----- the tick -----

    /** The scan for a partner: the first record from start on whose user is not paired yet and
        is mutually in range, if there is one. The scan gives up at the first record out of the
        user's range; as the index is sorted, it misses nothing by that. */
    method ScanForPartner(currIdx: nat, start: nat, paired: set<int>) returns (found: Option<nat>)
      requires Valid() && currIdx <= start && currIdx < |userEloIdx|
      ensures found.Some? ==> start <= found.value < |userEloIdx| && IsPartner(currIdx, found.value, paired)
      ensures found.Some? ==> forall i :: start <= i < found.value && i < |userEloIdx| ==> !IsPartner(currIdx, i, paired)
      ensures found.None? ==> forall i :: start <= i < |userEloIdx| ==> !IsPartner(currIdx, i, paired)
    {
      hide Offset;
      var curr := pendingUsers[userEloIdx[currIdx].userId];
      var i := start;
      while i < |userEloIdx|
        invariant start <= i
        invariant forall j :: start <= j < i && j < |userEloIdx| ==> !IsPartner(currIdx, j, paired)
        decreases |userEloIdx| - i
      {
        var user := userEloIdx[i].userId;
        if user in paired {
          i := i + 1;
          continue;
        }
        var potential := pendingUsers[user];
        if Mutual(curr, potential, tickFactor) {
          return Some(i);
        }
        if !InRange(potential, curr, tickFactor) {
          OutOfRangeFromHere(currIdx, i);
          return None;
        }
        i := i + 1;
      }
      found := None;
    }

    /** The record's user is free and the two are in each other's range. */
    predicate IsPartner(currIdx: nat, i: nat, paired: set<int>)
      requires Valid() && currIdx < |userEloIdx| && i < |userEloIdx|
      reads this
    {
      && userEloIdx[i].userId !in paired
      && Mutual(pendingUsers[userEloIdx[currIdx].userId], pendingUsers[userEloIdx[i].userId], tickFactor)
    }

    lemma OutOfRangeFromHere(currIdx: nat, i: nat)
      requires Valid() && currIdx <= i < |userEloIdx|
      requires !InRange(pendingUsers[userEloIdx[i].userId], pendingUsers[userEloIdx[currIdx].userId], tickFactor)
      ensures forall j :: i <= j < |userEloIdx| ==>
                !InRange(pendingUsers[userEloIdx[j].userId], pendingUsers[userEloIdx[currIdx].userId], tickFactor)
    {
      hide Offset;
      assert userEloIdx[currIdx].userElo <= userEloIdx[i].userElo;
      forall j | i <= j < |userEloIdx|
        ensures !InRange(pendingUsers[userEloIdx[j].userId], pendingUsers[userEloIdx[currIdx].userId], tickFactor)
      {
        assert userEloIdx[i].userElo <= userEloIdx[j].userElo;
      }
    }

    /** The scan starts at the user itself, so it finds the user itself or nobody. */
    lemma ScanFindsSelf(currIdx: nat, found: Option<nat>, paired: set<int>)
      requires Valid() && currIdx < |userEloIdx| && userEloIdx[currIdx].userId !in paired
      requires found.Some? ==> currIdx <= found.value < |userEloIdx| && IsPartner(currIdx, found.value, paired)
      requires found.Some? ==> forall i :: currIdx <= i < found.value && i < |userEloIdx| ==> !IsPartner(currIdx, i, paired)
      requires found.None? ==> forall i :: currIdx <= i < |userEloIdx| ==> !IsPartner(currIdx, i, paired)
      ensures found == if Offset(pendingUsers[userEloIdx[currIdx].userId], tickFactor) >= 0.0 then Some(currIdx) else None
    {
      hide Offset;
      assert Offset(pendingUsers[userEloIdx[currIdx].userId], tickFactor) >= 0.0 <==> IsPartner(currIdx, currIdx, paired);
    }

    /** Pairs are collected in a local list that starts as the stored one and is never stored
        back, so the stored list stays empty. */
    method FindPotentialProposals()
      requires Valid()
      modifies this`potentialProposals, this`pairedUsers
      ensures potentialProposals == []
      ensures pairedUsers == InOwnRange(State(), tickFactor)
    {
      hide SortedByElo, Mutual, Offset;
      potentialProposals := [];
      var collected := potentialProposals;
      var paired: set<int> := {};
      for currIdx := 0 to |userEloIdx|
        invariant Valid() && paired == PairedUpTo(currIdx)
        invariant State() == old(State()) && potentialProposals == []
        invariant forall p :: p in collected ==> p.0 == p.1
      {
        var user := userEloIdx[currIdx].userId;
        NotPairedYet(currIdx);
        OneMorePaired(currIdx);
        var found := ScanForPartner(currIdx, currIdx, paired);
        ScanFindsSelf(currIdx, found, paired);
        if found.Some? {
          var partner := userEloIdx[found.value].userId;
          collected := collected + [(user, partner)];
          paired := paired + {user, partner};
        }
      }
      AllPaired();
      pairedUsers := paired;
    }

    /** The users of the first records that are in their own range. */
    ghost function PairedUpTo(n: nat): set<int>
      requires Valid() && n <= |userEloIdx|
      reads this
    {
      set i | 0 <= i < n && Offset(pendingUsers[userEloIdx[i].userId], tickFactor) >= 0.0 :: userEloIdx[i].userId
    }

    lemma NotPairedYet(n: nat)
      requires Valid() && n < |userEloIdx|
      ensures userEloIdx[n].userId !in PairedUpTo(n)
    {
    }

    lemma OneMorePaired(n: nat)
      requires Valid() && n < |userEloIdx|
      ensures PairedUpTo(n + 1) ==
              if Offset(pendingUsers[userEloIdx[n].userId], tickFactor) >= 0.0
              then PairedUpTo(n) + {userEloIdx[n].userId} else PairedUpTo(n)
    {
      hide Offset;
    }

    lemma AllPaired()
      requires Valid()
      ensures PairedUpTo(|userEloIdx|) == InOwnRange(State(), tickFactor)
    {
      hide Offset, SortedByElo;
      forall u | u in InOwnRange(State(), tickFactor)
        ensures u in PairedUpTo(|userEloIdx|)
      {
        var i :| 0 <= i < |userEloIdx| && userEloIdx[i].userId == u;
      }
    }

    /** A match is proposed to each collected pair. */
    method AppendProposals()
      requires forall p :: p in potentialProposals ==> p.0 in pendingUsers && p.1 in pendingUsers
      modifies this`matchProposals
      ensures |matchProposals| == |old(matchProposals)| + |potentialProposals|
      ensures old(matchProposals) <= matchProposals
      ensures forall i :: 0 <= i < |potentialProposals| ==>
                matchProposals[|old(matchProposals)| + i] ==
                Proposal(pendingUsers[potentialProposals[i].0], pendingUsers[potentialProposals[i].1], false, false)
    {
      ghost var n := |matchProposals|;
      for i := 0 to |potentialProposals|
        invariant |matchProposals| == n + i && old(matchProposals) <= matchProposals
        invariant forall j :: 0 <= j < i ==>
                    matchProposals[n + j] ==
                    Proposal(pendingUsers[potentialProposals[j].0], pendingUsers[potentialProposals[j].1], false, false)
      {
        var pair := potentialProposals[i];
        assert pair in potentialProposals;
        matchProposals := matchProposals + [Proposal(pendingUsers[pair.0], pendingUsers[pair.1], false, false)];
      }
    }

    /** A tick of the node: as it comes out, users in their own range are dropped and no match
        is proposed. The running node never calls it. */
    method Tick()
      requires Valid()
      modifies this
      ensures Valid() && State() == Ticked(old(State()), tickFactor)
    {
      hide Sound, InOwnRange, KeepOthers;
      ghost var before := State();
      if |pendingUsers| == 0 && |matchProposals| == 0 {
        NothingToTick(before, tickFactor);
        return;
      }
      FindPotentialProposals();
      assert State() == before;
      AppendProposals();
      SameUsers(before, State());
      DeletePendingUsers(pairedUsers);
      AgeAll();
    }

    /** Every user of the index has waited one tick more. */
    method AgeAll()
      requires Valid()
      modifies this`pendingUsers
      ensures Valid() && pendingUsers == OneTickOlder(old(pendingUsers))
    {
      hide SortedByElo;
      ghost var before := pendingUsers;
      ghost var p := State();
      for i := 0 to |userEloIdx|
        invariant pendingUsers.Keys == before.Keys
        invariant forall j :: 0 <= j < i ==> pendingUsers[userEloIdx[j].userId] == Older(before[userEloIdx[j].userId])
        invariant forall j :: i <= j < |userEloIdx| ==> pendingUsers[userEloIdx[j].userId] == before[userEloIdx[j].userId]
      {
        var user := pendingUsers[userEloIdx[i].userId];
        pendingUsers := pendingUsers[userEloIdx[i].userId := user.(ticks := user.ticks + 1)];
      }
      forall u | u in before
        ensures pendingUsers[u] == Older(before[u])
      {
        var i :| 0 <= i < |userEloIdx| && userEloIdx[i].userId == u;
      }
      assert pendingUsers == OneTickOlder(before);
      OlderKeepsSound(p);
    }
  }

  function Later(i: Option<nat>, n: nat): Option<nat> {
    if i.None? then None else Some(i.value + n)
  }

  lemma NothingToTick(p: Pool, factor: int)
    requires |p.pending| == 0 && p.proposals == []
    ensures Ticked(p, factor) == p
  {
    hide KeepOthers, Offset;
    assert p.pending == map[];
    AllKept(p.eloIdx, InOwnRange(p, factor));
  }
}
