/** Optimistic locking on one stored value: watch and read, update, and a write that the
    store refuses if the value was written since; at most five attempts. Many clients do
    this at once; their reads and writes interleave in any order. */
module Txn {
  import opened Wrappers

  const MAX_RETRIES: nat := 5

  /** What a call passes in: the update of the state (given the attempt, so that it may draw
      fresh random numbers each time) and the events committed with the new state. */
  datatype Request<!S, !E, !X> = Request(update: (S, nat) -> Result<S, X>, commit: S -> Result<seq<E>, X>)

  datatype Outcome<S, X> = Committed(state: S) | Refused(error: X) | NoState | Exhausted

  datatype Client<S, X> = Ready(attempt: nat) | Watching(attempt: nat, version: nat, read: S) | Done(outcome: Outcome<S, X>)

  /** One commit: whose, on which attempt, the state it wrote and the events it emitted. */
  datatype Entry<S, E> = Entry(client: nat, attempt: nat, state: S, events: seq<E>)

  /** The store, the clients, and the commits so far in order. */
  datatype System<S, E, X> = System(value: Option<S>, version: nat, events: seq<E>,
                                    clients: map<nat, Client<S, X>>, log: seq<Entry<S, E>>)

  type Requests<!S, !E, !X> = map<nat, Request<S, E, X>>

  /** What a client is about to write: the new state with its events, or its error. */
  function Prepared<S, E, X>(r: Request<S, E, X>, s: S, attempt: nat): Result<(S, seq<E>), X> {
    match r.update(s, attempt)
    case Failure(e) => Failure(e)
    case Success(t) =>
      match r.commit(t)
      case Failure(e) => Failure(e)
      case Success(events) => Success((t, events))
  }

  function Starting<S, E, X>(reqs: Requests<S, E, X>, s: Option<S>): System<S, E, X> {
    System(s, 0, [], map c | c in reqs :: Ready(0), [])
  }

  /** A step of one client: a watched read if it is ready, else its update and write. */
  function Step<S, E, X>(reqs: Requests<S, E, X>, a: System<S, E, X>, c: nat): System<S, E, X> {
    if c !in reqs || c !in a.clients then a
    else
      match a.clients[c]
      case Done(_) => a
      case Ready(i) =>
        if a.value.None? then a.(clients := a.clients[c := Done(NoState)])
        else a.(clients := a.clients[c := Watching(i, a.version, a.value.value)])
      case Watching(i, v, s) =>
        match Prepared(reqs[c], s, i)
        case Failure(e) => a.(clients := a.clients[c := Done(Refused(e))])
        case Success(w) =>
          if a.version == v then
            System(Some(w.0), a.version + 1, a.events + w.1,
                   a.clients[c := Done(Committed(w.0))], a.log + [Entry(c, i, w.0, w.1)])
          else if i + 1 < MAX_RETRIES then a.(clients := a.clients[c := Ready(i + 1)])
          else a.(clients := a.clients[c := Done(Exhausted)])
  }

  /** The system after the given clients have stepped in the given order. */
  function Run<S, E, X>(reqs: Requests<S, E, X>, a: System<S, E, X>, schedule: seq<nat>): System<S, E, X>
    decreases |schedule|
  {
    if schedule == [] then a
    else Step(reqs, Run(reqs, a, schedule[..|schedule| - 1]), schedule[|schedule| - 1])
  }

  lemma RunTwoSteps<S, E, X>(reqs: Requests<S, E, X>, a: System<S, E, X>, schedule: seq<nat>, c: nat)
    ensures Run(reqs, a, schedule + [c, c]) == Step(reqs, Step(reqs, Run(reqs, a, schedule), c), c)
  {
    hide Step;
    var both := schedule + [c, c];
    var one := both[..|both| - 1];
    assert one[..|one| - 1] == schedule && one[|one| - 1] == c;
  }

  /** A call that reads and writes with nobody in between commits at its first attempt. */
  lemma AloneCommits<S, E, X>(reqs: Requests<S, E, X>, a: System<S, E, X>, c: nat, w: (S, seq<E>))
    requires c in reqs && c in a.clients && a.clients[c] == Ready(0) && a.value.Some?
    requires Prepared(reqs[c], a.value.value, 0) == Success(w)
    ensures Step(reqs, Step(reqs, a, c), c) == System(Some(w.0), a.version + 1, a.events + w.1,
              a.clients[c := Done(Committed(w.0))], a.log + [Entry(c, 0, w.0, w.1)])
  {
    hide Prepared;
    var b := Step(reqs, a, c);
    assert b.clients[c] == Watching(0, a.version, a.value.value);
    assert b.clients[c := Done(Committed(w.0))] == a.clients[c := Done(Committed(w.0))];
  }

  /** The schedule on which the first n calls run one after the other. */
  function InTurn(n: nat): seq<nat> { if n == 0 then [] else InTurn(n - 1) + [n - 1, n - 1] }

  function StateBefore<S>(s: S, states: seq<S>, i: nat): S
    requires i <= |states|
  {
    if i == 0 then s else states[i - 1]
  }

  /** The first n clients have committed the given states and events in turn, the later ones
      have not begun. */
  ghost predicate CommittedInTurn<S, E, X>(reqs: Requests<S, E, X>, s: S, states: seq<S>, events: seq<seq<E>>, n: nat, a: System<S, E, X>)
    requires n <= |states| == |events|
  {
    && |a.log| == n && a.clients.Keys == reqs.Keys
    && (forall i :: 0 <= i < n ==> a.log[i] == Entry(i, 0, states[i], events[i]))
    && (forall c :: c in reqs && c >= n ==> a.clients[c] == Ready(0))
    && a.value == Some(StateBefore(s, states, n))
  }

  lemma NextInTurn<S, E, X>(reqs: Requests<S, E, X>, s: S, states: seq<S>, events: seq<seq<E>>, c: nat, a: System<S, E, X>)
    requires c < |states| == |events| && CommittedInTurn(reqs, s, states, events, c, a) && c in reqs
    ensures c in a.clients && a.clients[c] == Ready(0) && a.value == Some(StateBefore(s, states, c))
    ensures CommittedInTurn(reqs, s, states, events, c + 1,
              System(Some(states[c]), a.version + 1, a.events + events[c],
                     a.clients[c := Done(Committed(states[c]))], a.log + [Entry(c, 0, states[c], events[c])]))
  {
  }

  /** Calls that run one after the other all commit, each at its first attempt: the log is the
      states they make, in order. */
  lemma {:induction false} InTurnAllCommit<S, E, X>(reqs: Requests<S, E, X>, s: S, states: seq<S>, events: seq<seq<E>>, n: nat)
    requires n <= |states| == |events|
    requires forall i: nat :: i < |states| ==>
               i in reqs && Prepared(reqs[i], StateBefore(s, states, i), 0) == Success((states[i], events[i]))
    ensures CommittedInTurn(reqs, s, states, events, n, Run(reqs, Starting(reqs, Some(s)), InTurn(n)))
  {
    hide Prepared, Step, Run, CommittedInTurn, StateBefore;
    var start := Starting(reqs, Some(s));
    if n == 0 {
      NothingRun(reqs, start, InTurn(n));
      NoneInTurn(reqs, s, states, events);
    } else {
      InTurnAllCommit(reqs, s, states, events, n - 1);
      var before, c := Run(reqs, start, InTurn(n - 1)), n - 1;
      RunTwoSteps(reqs, start, InTurn(n - 1), c);
      NextInTurn(reqs, s, states, events, c, before);
      AloneCommits(reqs, before, c, (states[c], events[c]));
    }
  }

  lemma NoneInTurn<S, E, X>(reqs: Requests<S, E, X>, s: S, states: seq<S>, events: seq<seq<E>>)
    requires |states| == |events|
    ensures CommittedInTurn(reqs, s, states, events, 0, Starting(reqs, Some(s)))
  {
  }

  lemma NothingRun<S, E, X>(reqs: Requests<S, E, X>, a: System<S, E, X>, schedule: seq<nat>)
    requires schedule == []
    ensures Run(reqs, a, schedule) == a
  {
  }

  // ----- the sequential meaning of a log -----

  /** The log is the updates applied one after the other to s: each entry's state and events
      are what its client's request makes of the state before it. */
  ghost predicate IsFold<S, E, X>(reqs: Requests<S, E, X>, s: Option<S>, log: seq<Entry<S, E>>)
    decreases |log|
  {
    log != [] ==>
      var last := log[|log| - 1];
      var before := LastState(s, log[..|log| - 1]);
      && IsFold(reqs, s, log[..|log| - 1])
      && last.client in reqs && before.Some?
      && Prepared(reqs[last.client], before.value, last.attempt) == Success((last.state, last.events))
  }

  function LastState<S, E>(s: Option<S>, log: seq<Entry<S, E>>): Option<S> {
    if log == [] then s else Some(log[|log| - 1].state)
  }

  function AllEvents<S, E>(log: seq<Entry<S, E>>): seq<E> {
    if log == [] then [] else AllEvents(log[..|log| - 1]) + log[|log| - 1].events
  }

  /** How many commits a client has in the log. */
  function CommitsOf<S, E>(log: seq<Entry<S, E>>, c: nat): nat {
    if log == [] then 0
    else CommitsOf(log[..|log| - 1], c) + (if log[|log| - 1].client == c then 1 else 0)
  }

  /** What every reachable system satisfies. */
  ghost predicate Consistent<S, E, X>(reqs: Requests<S, E, X>, s: Option<S>, a: System<S, E, X>) {
    && a.clients.Keys == reqs.Keys
    && a.version == |a.log|
    && a.value == LastState(s, a.log)
    && a.events == AllEvents(a.log)
    && IsFold(reqs, s, a.log)
    && forall c :: c in a.clients ==> ClientConsistent(a, c)
  }

  ghost predicate ClientConsistent<S, E, X>(a: System<S, E, X>, c: nat)
    requires c in a.clients
  {
    match a.clients[c]
    case Ready(i) => i < MAX_RETRIES && i <= a.version && CommitsOf(a.log, c) == 0
    case Watching(i, v, s) =>
      && i < MAX_RETRIES && i <= v <= a.version && CommitsOf(a.log, c) == 0
      && (v == a.version ==> a.value == Some(s))
    case Done(Committed(_)) => CommitsOf(a.log, c) == 1
    case Done(Exhausted) => CommitsOf(a.log, c) == 0 && |a.log| >= MAX_RETRIES
    case Done(_) => CommitsOf(a.log, c) == 0
  }

  /** A step that writes nothing changes only its own client. */
  lemma QuietStep<S, E, X>(reqs: Requests<S, E, X>, s: Option<S>, a: System<S, E, X>, c: nat, next: Client<S, X>)
    requires Consistent(reqs, s, a) && c in a.clients
    requires ClientConsistent(a.(clients := a.clients[c := next]), c)
    ensures Consistent(reqs, s, a.(clients := a.clients[c := next]))
  {
    hide IsFold, CommitsOf, AllEvents;
    var b := a.(clients := a.clients[c := next]);
    forall d | d in b.clients
      ensures ClientConsistent(b, d)
    {
      assert ClientConsistent(a, d);
    }
  }

  /** A write appends one entry and finishes its client. */
  lemma WritingStep<S, E, X>(reqs: Requests<S, E, X>, s: Option<S>, a: System<S, E, X>, c: nat, w: (S, seq<E>))
    requires Consistent(reqs, s, a) && c in reqs && c in a.clients
    requires a.clients[c].Watching? && a.version == a.clients[c].version
    requires Prepared(reqs[c], a.clients[c].read, a.clients[c].attempt) == Success(w)
    ensures Consistent(reqs, s, System(Some(w.0), a.version + 1, a.events + w.1,
              a.clients[c := Done(Committed(w.0))], a.log + [Entry(c, a.clients[c].attempt, w.0, w.1)]))
  {
    hide Prepared;
    var entry := Entry(c, a.clients[c].attempt, w.0, w.1);
    var log := a.log + [entry];
    var b := System(Some(w.0), a.version + 1, a.events + w.1, a.clients[c := Done(Committed(w.0))], log);
    assert log[..|log| - 1] == a.log;
    assert ClientConsistent(a, c);
    assert IsFold(reqs, s, log);
    forall d | d in b.clients
      ensures ClientConsistent(b, d)
    {
      assert ClientConsistent(a, d);
      assert CommitsOf(log, d) == CommitsOf(a.log, d) + (if d == c then 1 else 0);
    }
  }

  lemma StepKeepsConsistent<S, E, X>(reqs: Requests<S, E, X>, s: Option<S>, a: System<S, E, X>, c: nat)
    requires Consistent(reqs, s, a)
    ensures Consistent(reqs, s, Step(reqs, a, c))
  {
    hide IsFold, Prepared, CommitsOf, AllEvents;
    if c in reqs {
      assert ClientConsistent(a, c);
      match a.clients[c]
      case Done(_) =>
      case Ready(i) =>
        QuietStep(reqs, s, a, c, if a.value.None? then Done(NoState) else Watching(i, a.version, a.value.value));
      case Watching(i, v, t) =>
        match Prepared(reqs[c], t, i)
        case Failure(e) => QuietStep(reqs, s, a, c, Done(Refused(e)));
        case Success(w) =>
          if a.version == v {
            WritingStep(reqs, s, a, c, w);
          } else {
            QuietStep(reqs, s, a, c, if i + 1 < MAX_RETRIES then Ready(i + 1) else Done(Exhausted));
          }
    }
  }

  /** Over every interleaving of any number of clients: the stored state is the fold of the
      committed updates in commit order, the events are those of the commits concatenated, a
      call that reports a commit has exactly one in the log, and one that failed in any way
      has none; a call gives up only after five commits of other clients. */
  lemma {:induction false} EveryRunIsConsistent<S, E, X>(reqs: Requests<S, E, X>, s: Option<S>, schedule: seq<nat>)
    ensures Consistent(reqs, s, Run(reqs, Starting(reqs, s), schedule))
    decreases |schedule|
  {
    if schedule != [] {
      EveryRunIsConsistent(reqs, s, schedule[..|schedule| - 1]);
      StepKeepsConsistent(reqs, s, Run(reqs, Starting(reqs, s), schedule[..|schedule| - 1]), schedule[|schedule| - 1]);
    }
  }

  /** A property of state and events that each single update keeps, run alone, holds of the
      store in every interleaving. */
  lemma {:induction false} SequentialPropertyLifts<S(!new), E(!new), X>(
    reqs: Requests<S, E, X>, s: S, schedule: seq<nat>, holds: (S, seq<E>) -> bool)
    requires holds(s, [])
    requires forall c, t: S, i: nat, events: seq<E> ::
               c in reqs && holds(t, events) && Prepared(reqs[c], t, i).Success? ==>
                 holds(Prepared(reqs[c], t, i).value.0, events + Prepared(reqs[c], t, i).value.1)
    ensures var a := Run(reqs, Starting(reqs, Some(s)), schedule);
            a.value.Some? && holds(a.value.value, a.events)
  {
    EveryRunIsConsistent(reqs, Some(s), schedule);
    FoldKeeps(reqs, s, Run(reqs, Starting(reqs, Some(s)), schedule).log, holds);
  }

  lemma {:induction false} FoldKeeps<S(!new), E(!new), X>(
    reqs: Requests<S, E, X>, s: S, log: seq<Entry<S, E>>, holds: (S, seq<E>) -> bool)
    requires holds(s, []) && IsFold(reqs, Some(s), log)
    requires forall c, t: S, i: nat, events: seq<E> ::
               c in reqs && holds(t, events) && Prepared(reqs[c], t, i).Success? ==>
                 holds(Prepared(reqs[c], t, i).value.0, events + Prepared(reqs[c], t, i).value.1)
    ensures LastState(Some(s), log).Some? && holds(LastState(Some(s), log).value, AllEvents(log))
    decreases |log|
  {
    if log != [] {
      var before, last := log[..|log| - 1], log[|log| - 1];
      FoldKeeps(reqs, s, before, holds);
      assert Prepared(reqs[last.client], LastState(Some(s), before).value, last.attempt).Success?;
    }
  }

  /** Each entry of a fold is its client's request applied to the state before it. */
  lemma {:induction false} FoldEntry<S, E, X>(reqs: Requests<S, E, X>, s: Option<S>, log: seq<Entry<S, E>>, i: nat)
    requires IsFold(reqs, s, log) && i < |log|
    ensures log[i].client in reqs && LastState(s, log[..i]).Some?
    ensures Prepared(reqs[log[i].client], LastState(s, log[..i]).value, log[i].attempt)
         == Success((log[i].state, log[i].events))
    decreases |log|
  {
    hide Prepared;
    var before := log[..|log| - 1];
    if i < |log| - 1 {
      FoldEntry(reqs, s, before, i);
      assert before[..i] == log[..i];
    }
  }

  // ----- the retry loop of one call -----

  /** The watched key and the event stream written along with it. */
  datatype Cell<S, E> = Cell(value: Option<S>, version: nat, events: seq<E>)

  /** A write of another client that lands between a call's watched read and its own write. */
  datatype Write<S, E> = Write(state: S, events: seq<E>)

  function Landed<S, E>(c: Cell<S, E>, writes: seq<Write<S, E>>): Cell<S, E>
    decreases |writes|
  {
    if writes == [] then c
    else
      var before := Landed(c, writes[..|writes| - 1]);
      var w := writes[|writes| - 1];
      Cell(Some(w.state), before.version + 1, before.events + w.events)
  }

  function Intruders<S, E>(others: seq<seq<Write<S, E>>>, i: nat): seq<Write<S, E>> {
    if i < |others| then others[i] else []
  }

  /** The cell and the outcome after the attempts from the i-th on; others[i] are the writes
      that land during attempt i. */
  function Attempts<S, E, X>(c: Cell<S, E>, r: Request<S, E, X>, others: seq<seq<Write<S, E>>>, i: nat): (Cell<S, E>, Outcome<S, X>)
    requires i <= MAX_RETRIES
    decreases MAX_RETRIES - i, |others|
  {
    if i == MAX_RETRIES then (c, Exhausted)
    else if c.value.None? then (c, NoState)
    else
      match Prepared(r, c.value.value, i)
      case Failure(e) => (c, Refused(e))
      case Success(w) =>
        var after := Landed(c, Intruders(others, i));
        if after.version == c.version then
          (Cell(Some(w.0), c.version + 1, c.events + w.1), Committed(w.0))
        else Attempts(after, r, others, i + 1)
  }

  class Store<S, E> {
    var value: Option<S>
    var version: nat
    var events: seq<E>

    ghost function Contents(): Cell<S, E>
      reads this
    {
      Cell(value, version, events)
    }

    /** The writes of other clients. */
    method Intrude(writes: seq<Write<S, E>>)
      modifies this
      ensures Contents() == Landed(old(Contents()), writes)
    {
      for k := 0 to |writes|
        invariant Contents() == Landed(old(Contents()), writes[..k])
      {
        assert writes[..k + 1][..k] == writes[..k];
        value, version, events := Some(writes[k].state), version + 1, events + writes[k].events;
      }
      assert writes[..|writes|] == writes;
    }

    /** Watch, read, update, write if unwatched writes did not intervene; else try again. */
    method UpdateTxn<X>(r: Request<S, E, X>, others: seq<seq<Write<S, E>>>) returns (outcome: Outcome<S, X>)
      modifies this
      ensures (Contents(), outcome) == Attempts(old(Contents()), r, others, 0)
    {
      for i := 0 to MAX_RETRIES
        invariant Attempts(Contents(), r, others, i) == Attempts(old(Contents()), r, others, 0)
      {
        var watched := version;
        if value.None? {
          return NoState;
        }
        var updated := r.update(value.value, i);
        if updated.Failure? {
          return Refused(updated.error);
        }
        var committed := r.commit(updated.value);
        if committed.Failure? {
          return Refused(committed.error);
        }
        ghost var read := Contents();
        Intrude(Intruders(others, i));
        LandedVersion(read, Intruders(others, i));
        if version == watched {
          value, version, events := Some(updated.value), version + 1, events + committed.value;
          return Committed(updated.value);
        }
      }
      outcome := Exhausted;
    }
  }

  lemma {:induction false} LandedVersion<S, E>(c: Cell<S, E>, writes: seq<Write<S, E>>)
    ensures Landed(c, writes).version == c.version + |writes|
    decreases |writes|
  {
    if writes != [] { LandedVersion(c, writes[..|writes| - 1]); }
  }

  /** The writes of others during n attempts from the i-th on, in order. */
  function Between<S, E>(others: seq<seq<Write<S, E>>>, i: nat, n: nat): seq<Write<S, E>>
    decreases n, |others|
  {
    if n == 0 then [] else Intruders(others, i) + Between(others, i + 1, n - 1)
  }

  lemma {:induction false} LandedTwice<S, E>(c: Cell<S, E>, a: seq<Write<S, E>>, b: seq<Write<S, E>>)
    ensures Landed(Landed(c, a), b) == Landed(c, a + b)
    decreases |b|
  {
    if b == [] {
      assert a + b == a;
    } else {
      LandedTwice(c, a, b[..|b| - 1]);
      assert (a + b)[..|a + b| - 1] == a + b[..|b| - 1];
    }
  }

  /** n attempts were overtaken by others' writes; the call then wrote once, prepared from
      the state those writes left, or wrote nothing and reports why. */
  ghost predicate Explains<S, E, X>(c: Cell<S, E>, r: Request<S, E, X>, others: seq<seq<Write<S, E>>>, i: nat,
                                    n: nat, d: Cell<S, E>, outcome: Outcome<S, X>) {
    && i + n <= MAX_RETRIES
    && (forall j :: i <= j < i + n ==> Intruders(others, j) != [])
    && ExplainsFrom(Landed(c, Between(others, i, n)), r, i + n, d, outcome)
  }

  ghost predicate ExplainsFrom<S, E, X>(before: Cell<S, E>, r: Request<S, E, X>, attempt: nat,
                                        d: Cell<S, E>, outcome: Outcome<S, X>) {
    match outcome
    case Committed(t) =>
      && before.value.Some? && Prepared(r, before.value.value, attempt).Success?
      && var w := Prepared(r, before.value.value, attempt).value;
         t == w.0 && d == Landed(before, [Write(w.0, w.1)])
    case Refused(e) =>
      before.value.Some? && Prepared(r, before.value.value, attempt) == Failure(e) && d == before
    case NoState => before.value.None? && d == before
    case Exhausted => attempt == MAX_RETRIES && d == before
  }

  /** What a call leaves in the store: the writes others made during its failed attempts, and
      after them its own write, prepared from the state they left, exactly if it reports a
      commit; a call that errs or gives up writes nothing. It gives up after five attempts,
      each of them overtaken. */
  lemma {:induction false} CallEffect<S, E, X>(c: Cell<S, E>, r: Request<S, E, X>, others: seq<seq<Write<S, E>>>, i: nat)
      returns (n: nat)
    requires i <= MAX_RETRIES
    ensures Explains(c, r, others, i, n, Attempts(c, r, others, i).0, Attempts(c, r, others, i).1)
    decreases MAX_RETRIES - i
  {
    hide Prepared, Landed, ExplainsFrom, Explains;
    if i < MAX_RETRIES && c.value.Some? && Prepared(r, c.value.value, i).Success? {
      var landed := Landed(c, Intruders(others, i));
      LandedVersion(c, Intruders(others, i));
      if landed.version == c.version {
        n := 0;
        FirstAttempt(c, r, others, i);
      } else {
        var m := CallEffect(landed, r, others, i + 1);
        n := m + 1;
        LaterAttempt(c, r, others, i, m, Attempts(c, r, others, i).0, Attempts(c, r, others, i).1);
      }
    } else {
      n := 0;
      FirstAttempt(c, r, others, i);
    }
  }

  lemma LaterAttempt<S, E, X>(c: Cell<S, E>, r: Request<S, E, X>, others: seq<seq<Write<S, E>>>, i: nat,
                              m: nat, d: Cell<S, E>, outcome: Outcome<S, X>)
    requires Intruders(others, i) != []
    requires Explains(Landed(c, Intruders(others, i)), r, others, i + 1, m, d, outcome)
    ensures Explains(c, r, others, i, m + 1, d, outcome)
  {
    hide Prepared, Landed, ExplainsFrom, Intruders;
    LandedTwice(c, Intruders(others, i), Between(others, i + 1, m));
  }

  lemma FirstAttempt<S, E, X>(c: Cell<S, E>, r: Request<S, E, X>, others: seq<seq<Write<S, E>>>, i: nat)
    requires i <= MAX_RETRIES
    requires i < MAX_RETRIES && c.value.Some? && Prepared(r, c.value.value, i).Success? ==>
               Landed(c, Intruders(others, i)).version == c.version
    ensures Explains(c, r, others, i, 0, Attempts(c, r, others, i).0, Attempts(c, r, others, i).1)
  {
    hide Prepared;
    assert Landed(c, []) == c;
    if i < MAX_RETRIES && c.value.Some? && Prepared(r, c.value.value, i).Success? {
      var w := Prepared(r, c.value.value, i).value;
      LandedOne(c, Write(w.0, w.1));
    }
  }

  lemma LandedOne<S, E>(c: Cell<S, E>, w: Write<S, E>)
    ensures Landed(c, [w]) == Cell(Some(w.state), c.version + 1, c.events + w.events)
  {
    assert [w][..0] == [];
  }
}
