/** One client's part in a run of many: it is the retry loop of its call, overtaken by the
    writes that the others committed meanwhile. */
module Retries {
  import opened Wrappers
  import opened Txn

  function WritesOf<S, E>(log: seq<Entry<S, E>>): (writes: seq<Write<S, E>>)
    ensures |writes| == |log|
  {
    seq(|log|, i requires 0 <= i < |log| => Write(log[i].state, log[i].events))
  }

  /** The store after the first v commits. */
  function CellAt<S, E>(s: Option<S>, log: seq<Entry<S, E>>, v: nat): Cell<S, E>
    requires v <= |log|
  {
    Landed(Cell(s, 0, []), WritesOf(log)[..v])
  }

  lemma CellAtVersion<S, E>(s: Option<S>, log: seq<Entry<S, E>>, v: nat)
    requires v <= |log|
    ensures CellAt(s, log, v).version == v
  {
    LandedVersion(Cell(s, 0, []), WritesOf(log)[..v]);
  }

  lemma CellAtValue<S, E>(s: Option<S>, log: seq<Entry<S, E>>)
    ensures CellAt(s, log, |log|).value == LastState(s, log)
  {
    assert WritesOf(log)[..|log|] == WritesOf(log);
  }

  lemma CellAtLater<S, E>(s: Option<S>, log: seq<Entry<S, E>>, v: nat, w: nat)
    requires v <= w <= |log|
    ensures Landed(CellAt(s, log, v), WritesOf(log)[v..w]) == CellAt(s, log, w)
  {
    LandedTwice(Cell(s, 0, []), WritesOf(log)[..v], WritesOf(log)[v..w]);
    assert WritesOf(log)[..v] + WritesOf(log)[v..w] == WritesOf(log)[..w];
  }

  /** Later commits leave the earlier ones. */
  lemma CellAtStays<S, E>(s: Option<S>, log: seq<Entry<S, E>>, entry: Entry<S, E>, v: nat)
    requires v <= |log|
    ensures CellAt(s, log + [entry], v) == CellAt(s, log, v)
  {
    assert WritesOf(log + [entry])[..v] == WritesOf(log)[..v];
  }

  lemma CellAtNext<S, E>(s: Option<S>, log: seq<Entry<S, E>>, v: nat)
    requires v < |log|
    ensures CellAt(s, log, v + 1) == Landed(CellAt(s, log, v), [Write(log[v].state, log[v].events)])
  {
    CellAtLater(s, log, v, v + 1);
    assert WritesOf(log)[v..v + 1] == [Write(log[v].state, log[v].events)];
  }

  ghost predicate Prepares<S, E, X>(r: Request<S, E, X>, c: Cell<S, E>, attempt: nat) {
    c.value.Some? && Prepared(r, c.value.value, attempt).Success?
  }

  /** The attempts read at the marked versions; each but the last was prepared and overtaken. */
  ghost predicate AreMarks<S, E, X>(r: Request<S, E, X>, s: Option<S>, log: seq<Entry<S, E>>, marks: seq<nat>) {
    && (forall j :: 0 <= j < |marks| ==> marks[j] <= |log|)
    && (forall j :: 0 <= j < |marks| - 1 ==> marks[j] < marks[j + 1] && Prepares(r, CellAt(s, log, marks[j]), j))
  }

  /** How a call ended at its last mark. */
  ghost predicate EndsAt<S, E, X>(r: Request<S, E, X>, s: Option<S>, log: seq<Entry<S, E>>, c: nat, n: nat, v: nat,
                                  outcome: Outcome<S, X>)
    requires v <= |log|
  {
    var cell := CellAt(s, log, v);
    match outcome
    case Committed(t) =>
      && n < MAX_RETRIES && v < |log| && log[v].client == c && t == log[v].state
      && cell.value.Some? && Prepared(r, cell.value.value, n) == Success((log[v].state, log[v].events))
    case Refused(e) => n < MAX_RETRIES && cell.value.Some? && Prepared(r, cell.value.value, n) == Failure(e)
    case NoState => n < MAX_RETRIES && cell.value.None?
    case Exhausted => n == MAX_RETRIES
  }

  ghost predicate HasMarks<S, E, X>(r: Request<S, E, X>, s: Option<S>, log: seq<Entry<S, E>>, c: nat, client: Client<S, X>, marks: seq<nat>) {
    && AreMarks(r, s, log, marks)
    && match client
       case Ready(i) =>
         && |marks| == i && i < MAX_RETRIES
         && (i > 0 ==> marks[i - 1] < |log| && Prepares(r, CellAt(s, log, marks[i - 1]), i - 1))
       case Watching(i, v, t) =>
         |marks| == i + 1 && i < MAX_RETRIES && marks[i] == v && CellAt(s, log, v).value == Some(t)
       case Done(outcome) => marks != [] && EndsAt(r, s, log, c, |marks| - 1, marks[|marks| - 1], outcome)
  }

  lemma MarksStay<S, E, X>(r: Request<S, E, X>, s: Option<S>, log: seq<Entry<S, E>>, entry: Entry<S, E>, c: nat, client: Client<S, X>, marks: seq<nat>)
    requires HasMarks(r, s, log, c, client, marks)
    ensures HasMarks(r, s, log + [entry], c, client, marks)
  {
    hide CellAt, Prepared;
    forall j | 0 <= j < |marks|
      ensures CellAt(s, log + [entry], marks[j]) == CellAt(s, log, marks[j])
    {
      CellAtStays(s, log, entry, marks[j]);
    }
  }

  /** One more mark, after an attempt that was overtaken. */
  lemma MarkAdded<S, E, X>(r: Request<S, E, X>, s: Option<S>, log: seq<Entry<S, E>>, marks: seq<nat>)
    requires AreMarks(r, s, log, marks)
    requires marks != [] ==> marks[|marks| - 1] < |log| && Prepares(r, CellAt(s, log, marks[|marks| - 1]), |marks| - 1)
    ensures AreMarks(r, s, log, marks + [|log|])
  {
    hide CellAt, Prepares;
  }

  /** A client's own step. */
  lemma OwnStep<S, E, X>(reqs: Requests<S, E, X>, s: Option<S>, a: System<S, E, X>, c: nat, marks: seq<nat>) returns (after: seq<nat>)
    requires Consistent(reqs, s, a) && c in reqs && c in a.clients && HasMarks(reqs[c], s, a.log, c, a.clients[c], marks)
    ensures var b := Step(reqs, a, c); c in b.clients && HasMarks(reqs[c], s, b.log, c, b.clients[c], after)
  {
    hide IsFold, Prepared, CommitsOf, AllEvents, CellAt;
    var r := reqs[c];
    CellAtValue(s, a.log);
    match a.clients[c]
    case Done(_) => after := marks;
    case Ready(i) =>
      MarkAdded(r, s, a.log, marks);
      after := marks + [|a.log|];
    case Watching(i, v, t) =>
      match Prepared(r, t, i)
      case Failure(e) => after := marks;
      case Success(w) =>
        if a.version == v {
          after := marks;
          var entry := Entry(c, i, w.0, w.1);
          MarksStay(r, s, a.log, entry, c, a.clients[c], marks);
        } else if i + 1 < MAX_RETRIES {
          assert ClientConsistent(a, c);
          after := marks;
        } else {
          assert ClientConsistent(a, c);
          MarkAdded(r, s, a.log, marks);
          after := marks + [|a.log|];
        }
  }

  /** Another client's step. */
  lemma OtherStep<S, E, X>(reqs: Requests<S, E, X>, s: Option<S>, a: System<S, E, X>, c: nat, d: nat, marks: seq<nat>)
    requires c != d && c in reqs && c in a.clients && HasMarks(reqs[c], s, a.log, c, a.clients[c], marks)
    ensures var b := Step(reqs, a, d); c in b.clients && HasMarks(reqs[c], s, b.log, c, b.clients[c], marks)
  {
    hide HasMarks, Prepared;
    var b := Step(reqs, a, d);
    assert c in b.clients && b.clients[c] == a.clients[c];
    if b.log != a.log {
      var entry := b.log[|b.log| - 1];
      assert b.log == a.log + [entry];
      MarksStay(reqs[c], s, a.log, entry, c, a.clients[c], marks);
    }
  }

  /** In every run every client has such marks. */
  lemma {:induction false} MarksOf<S, E, X>(reqs: Requests<S, E, X>, s: Option<S>, schedule: seq<nat>, c: nat) returns (marks: seq<nat>)
    requires c in reqs
    ensures var a := Run(reqs, Starting(reqs, s), schedule);
            c in a.clients && HasMarks(reqs[c], s, a.log, c, a.clients[c], marks)
    decreases |schedule|
  {
    hide Step, Consistent, HasMarks;
    if schedule == [] {
      marks := [];
      NoMarks(reqs, s, c);
    } else {
      var before, d := schedule[..|schedule| - 1], schedule[|schedule| - 1];
      marks := MarksOf(reqs, s, before, c);
      var a := Run(reqs, Starting(reqs, s), before);
      EveryRunIsConsistent(reqs, s, before);
      if d == c {
        marks := OwnStep(reqs, s, a, c, marks);
      } else {
        OtherStep(reqs, s, a, c, d, marks);
      }
    }
  }

  lemma NoMarks<S, E, X>(reqs: Requests<S, E, X>, s: Option<S>, c: nat)
    requires c in reqs
    ensures var a := Starting(reqs, s);
            c in a.clients && HasMarks(reqs[c], s, a.log, c, a.clients[c], [])
  {
  }

  /** The writes committed between two marks, for each attempt that was overtaken. */
  function Overtakings<S, E>(log: seq<Entry<S, E>>, marks: seq<nat>): (others: seq<seq<Write<S, E>>>)
    requires forall j :: 0 <= j < |marks| ==> marks[j] <= |log|
    requires forall j :: 0 <= j < |marks| - 1 ==> marks[j] < marks[j + 1]
    requires marks != []
    ensures |others| == |marks| - 1
  {
    seq(|marks| - 1, j requires 0 <= j < |marks| - 1 => WritesOf(log)[marks[j]..marks[j + 1]])
  }

  /** The loop from its first read on is the loop from its j-th read on. */
  lemma {:induction false} LoopReaches<S, E, X>(r: Request<S, E, X>, s: Option<S>, log: seq<Entry<S, E>>, marks: seq<nat>, j: nat)
    requires AreMarks(r, s, log, marks) && j < |marks| <= MAX_RETRIES + 1
    ensures Attempts(CellAt(s, log, marks[0]), r, Overtakings(log, marks), 0)
         == Attempts(CellAt(s, log, marks[j]), r, Overtakings(log, marks), j)
    decreases j
  {
    hide Prepared, CellAt;
    if j > 0 {
      LoopReaches(r, s, log, marks, j - 1);
      CellAtVersion(s, log, marks[j - 1]);
      CellAtVersion(s, log, marks[j]);
      CellAtLater(s, log, marks[j - 1], marks[j]);
      assert Prepares(r, CellAt(s, log, marks[j - 1]), j - 1);
      assert Intruders(Overtakings(log, marks), j - 1) == WritesOf(log)[marks[j - 1]..marks[j]];
    }
  }

  lemma LoopEnds<S, E, X>(r: Request<S, E, X>, s: Option<S>, log: seq<Entry<S, E>>, c: nat, n: nat, v: nat,
                          others: seq<seq<Write<S, E>>>, outcome: Outcome<S, X>)
    requires v <= |log| && EndsAt(r, s, log, c, n, v, outcome) && |others| == n
    ensures n <= MAX_RETRIES && (outcome.Exhausted? <==> n == MAX_RETRIES)
    ensures Attempts(CellAt(s, log, v), r, others, n).1 == outcome
    ensures outcome.Committed? ==> v < |log| && log[v].client == c && Attempts(CellAt(s, log, v), r, others, n).0 == CellAt(s, log, v + 1)
  {
    hide Prepared, CellAt;
    CellAtVersion(s, log, v);
    LandsNothing(CellAt(s, log, v), Intruders(others, n));
    if outcome.Committed? {
      CellAtNext(s, log, v);
      LandedOne(CellAt(s, log, v), Write(log[v].state, log[v].events));
    }
  }

  lemma LandsNothing<S, E>(c: Cell<S, E>, writes: seq<Write<S, E>>)
    ensures writes == [] ==> Landed(c, writes) == c
  {
  }

  /** In every run, a call that has ended is its retry loop, started on the store as of its first
      read and overtaken by the stretches of commits between its reads: it ends with the same
      outcome, and a commit leaves the store as the loop does. */
  lemma ClientRunsItsLoop<S, E, X>(reqs: Requests<S, E, X>, s: Option<S>, schedule: seq<nat>, c: nat)
      returns (marks: seq<nat>)
    requires c in reqs && c in Run(reqs, Starting(reqs, s), schedule).clients
    requires Run(reqs, Starting(reqs, s), schedule).clients[c].Done?
    ensures var a := Run(reqs, Starting(reqs, s), schedule);
            && marks != [] && AreMarks(reqs[c], s, a.log, marks)
            && var loop := Attempts(CellAt(s, a.log, marks[0]), reqs[c], Overtakings(a.log, marks), 0);
               && loop.1 == a.clients[c].outcome
               && |marks| <= 6 && (loop.1.Exhausted? <==> |marks| == 6)
               && (loop.1.Committed? ==>
                     exists k :: 0 <= k < |a.log| && a.log[k].client == c && loop.0 == CellAt(s, a.log, k + 1))
  {
    hide Run, Prepared, CellAt, Attempts, AreMarks, EndsAt;
    marks := MarksOf(reqs, s, schedule, c);
    var a := Run(reqs, Starting(reqs, s), schedule);
    MarksInLog(reqs[c], s, a.log, marks);
    var n := |marks| - 1;
    LoopEnds(reqs[c], s, a.log, c, n, marks[n], Overtakings(a.log, marks), a.clients[c].outcome);
    LoopReaches(reqs[c], s, a.log, marks, n);
  }

  lemma MarksInLog<S, E, X>(r: Request<S, E, X>, s: Option<S>, log: seq<Entry<S, E>>, marks: seq<nat>)
    requires AreMarks(r, s, log, marks)
    ensures forall j :: 0 <= j < |marks| ==> marks[j] <= |log|
    ensures forall j :: 0 <= j < |marks| - 1 ==> marks[j] < marks[j + 1]
  {
  }
}
