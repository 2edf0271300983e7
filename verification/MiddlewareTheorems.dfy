/**
 What the middleware promises over whole runs: a handler runs at most once per key, retries
 get the remembered answer, waiters are served in turn, and exactly how a lost connection
 breaks the first promise.
 */
module MiddlewareTheorems {
  import opened Prelude
  import opened Idempotency
  import opened Middleware

  ghost function Reached(events: seq<Event>): State { Run(Initial, events) }

  lemma ReachedInv(events: seq<Event>)
    ensures Inv(Reached(events))
  {
    RunKeepsInv(Initial, events);
  }

  /** Over every interleaving: a second run on a key starts only if the first was cut off from
      its answer, or more than the replay period (24 hours) after that answer. */
  lemma AtMostOnce(events: seq<Event>, i: nat, j: nat)
    requires var s := Reached(events); i < j < |s.runs| && s.runs[i].key == s.runs[j].key
    ensures var s := Reached(events);
            || s.runs[i].dropped
            || (s.runs[i].answer.Some? && s.runs[i].answer.value.expiresAt <= s.runs[j].startedAt)
  {
    ReachedInv(events);
  }

  /** While no run on a key is spent, every JSON answer sent for that key is the answer of
      the one and only run. */
  lemma RetriesGetTheOneAnswer(events: seq<Event>, r: nat)
    requires var s := Reached(events); r < |s.requests| && s.requests[r].phase.Replied?
    requires var s := Reached(events);
             forall i :: 0 <= i < |s.runs| && s.runs[i].key == s.requests[r].key ==> !Spent(s.runs[i], s.now)
    ensures var s := Reached(events);
            exists i :: && 0 <= i < |s.runs| && s.runs[i].key == s.requests[r].key
                        && s.runs[i].answer.Some? && s.runs[i].answer.value.result == s.requests[r].phase.reply
                        && forall j :: 0 <= j < |s.runs| && s.runs[j].key == s.requests[r].key ==> j == i
  {
    var s := Reached(events);
    ReachedInv(events);
    var i :| 0 <= i < |s.runs| && s.runs[i].key == s.requests[r].key
             && s.runs[i].answer.Some? && s.runs[i].answer.value.result == s.requests[r].phase.reply;
    forall j | 0 <= j < |s.runs| && s.runs[j].key == s.requests[r].key ensures j == i {
      assert RunOk(s, j) && RunOk(s, i);
    }
  }

  /** At most one request per key is between grant and release. */
  lemma OneHolder(events: seq<Event>, r: nat, u: nat)
    requires var s := Reached(events);
             Holds(s, r) && Holds(s, u) && s.requests[r].key == s.requests[u].key
    ensures r == u
  {
    ReachedInv(events);
    MutualExclusion(Reached(events), r, u);
  }

  /** Grants are first come, first served: when a request has been granted the lock, everyone who
      joined the line of its key earlier has already freed it. */
  lemma GrantedInOrderOfArrival(events: seq<Event>, r: nat, u: nat)
    requires var s := Reached(events);
             && In(s, r) && In(s, u) && s.requests[r].key == s.requests[u].key
             && s.requests[r].HasTicket() && s.requests[u].HasTicket() && !s.requests[u].phase.Waiting?
             && s.requests[r].ticket < s.requests[u].ticket
    ensures var s := Reached(events);
            TicketExists(s, r) && s.lock.tickets[s.requests[r].ticket].released && s.requests[r].phase.Running?
  {
    ReachedInv(events);
    assert RequestOk(Reached(events), r) && RequestOk(Reached(events), u);
  }

  // ---------------------------------------------------------------------------
  // Progress
  // ---------------------------------------------------------------------------

  predicate Owns(s: State, r: nat, t: nat) {
    In(s, r) && s.requests[r].HasTicket() && s.requests[r].ticket == t
  }

  /** Nobody waits for a promise that no one is left to resolve. */
  ghost predicate OwnedInv(s: State) {
    forall t :: 0 <= t < |s.lock.tickets| && !s.lock.tickets[t].released ==> exists r :: Owns(s, r, t)
  }

  lemma StepKeepsOwned(s: State, e: Event)
    requires Inv(s) && OwnedInv(s)
    ensures OwnedInv(Step(s, e))
  {
    var s' := Step(s, e);
    forall t | 0 <= t < |s'.lock.tickets| && !s'.lock.tickets[t].released ensures exists r :: Owns(s', r, t) {
      if t < |s.lock.tickets| {
        StepReleasesOnly(s, e, t);
        var r :| Owns(s, r, t);
        StepKeepsOwner(s, e, r, t);
      } else {
        assert Owns(s', e.request, t);
      }
    }
  }

  lemma StepReleasesOnly(s: State, e: Event, t: nat)
    requires t < |s.lock.tickets|
    ensures t < |Step(s, e).lock.tickets|
    ensures s.lock.tickets[t].released ==> Step(s, e).lock.tickets[t].released
  {
  }

  /** A request gives its ticket up only by releasing it. */
  lemma StepKeepsOwner(s: State, e: Event, r: nat, t: nat)
    requires Owns(s, r, t) && t < |s.lock.tickets| && !Step(s, e).lock.tickets[t].released
    ensures Owns(Step(s, e), r, t)
  {
  }

  lemma {:induction false} RunKeepsOwned(s: State, events: seq<Event>)
    requires Inv(s) && OwnedInv(s)
    ensures OwnedInv(Run(s, events))
    decreases |events|
  {
    if events != [] {
      StepKeepsInv(s, events[0]);
      StepKeepsOwned(s, events[0]);
      RunKeepsOwned(Step(s, events[0]), events[1..]);
    }
  }

  lemma {:induction false} RunConcat(s: State, first: seq<Event>, second: seq<Event>)
    ensures Run(s, first + second) == Run(Run(s, first), second)
    decreases |first|
  {
    if first == [] {
      assert first + second == second;
    } else {
      assert (first + second)[1..] == first[1..] + second;
      RunConcat(Step(s, first[0]), first[1..], second);
    }
  }

  lemma RunOne(s: State, e: Event)
    ensures Run(s, [e]) == Step(s, e)
  {
    assert [e][1..] == [];
  }

  lemma RunTwo(s: State, e: Event, f: Event)
    ensures Run(s, [e, f]) == Step(Step(s, e), f)
  {
    assert [e, f][1..] == [f];
    RunOne(Step(s, e), f);
  }

  /** One pass through the protocol for the request at the head of the line; its handler, if it
      runs, answers through `res.json`. */
  function Serve(r: nat): seq<Event> { [Grant(r), Recheck(r)] + [AfterRecheck(r), Answer(r, Reply(200, ""))] }

  /** `r` is first in line with its ticket not yet released. */
  ghost predicate Heads(s: State, r: nat) {
    && In(s, r) && s.requests[r].HasTicket() && TicketExists(s, r)
    && Turn(s.lock.tickets, s.requests[r].ticket) && !s.lock.tickets[s.requests[r].ticket].released
    && (s.requests[r].phase.Running? ==> s.requests[r].phase.run < |s.runs|)
  }

  /** From `s` to `s'` only `r` moved on, and only its own ticket may have been released. */
  ghost predicate OnlyMoved(s: State, s': State, r: nat)
    requires In(s, r)
  {
    && |s'.requests| == |s.requests| && s'.requests[r].ticket == s.requests[r].ticket
    && (forall u :: 0 <= u < |s.requests| && u != r ==> s'.requests[u] == s.requests[u])
    && |s'.lock.tickets| == |s.lock.tickets|
    && (forall t :: 0 <= t < |s.lock.tickets| ==> s'.lock.tickets[t].key == s.lock.tickets[t].key)
    && (forall t :: 0 <= t < |s.lock.tickets| && s.lock.tickets[t].released ==> s'.lock.tickets[t].released)
  }

  lemma HeadPrepares(s: State, r: nat)
    requires LockInv(s.lock) && Heads(s, r)
    ensures var s' := Step(Step(s, Grant(r)), Recheck(r));
            OnlyMoved(s, s', r) && Heads(s', r) && (s'.requests[r].phase.Rechecked? || s'.requests[r].phase.Running?)
  {
    ChainIsQueue(s.lock, s.requests[r].ticket);
  }

  lemma HeadLeaves(s: State, r: nat)
    requires Heads(s, r) && (s.requests[r].phase.Rechecked? || s.requests[r].phase.Running?)
    ensures var s' := Step(Step(s, AfterRecheck(r)), Answer(r, Reply(200, "")));
            OnlyMoved(s, s', r) && s'.lock.tickets[s.requests[r].ticket].released
  {
  }

  lemma ServeReleases(s: State, r: nat)
    requires LockInv(s.lock) && Heads(s, r)
    ensures var s' := Run(s, Serve(r));
            OnlyMoved(s, s', r) && s'.lock.tickets[s.requests[r].ticket].released
  {
    RunConcat(s, [Grant(r), Recheck(r)], [AfterRecheck(r), Answer(r, Reply(200, ""))]);
    RunTwo(s, Grant(r), Recheck(r));
    HeadPrepares(s, r);
    var s2 := Run(s, [Grant(r), Recheck(r)]);
    RunTwo(s2, AfterRecheck(r), Answer(r, Reply(200, "")));
    HeadLeaves(s2, r);
  }

  lemma OwnerHeads(s: State, t: nat) returns (q: nat)
    requires Inv(s) && OwnedInv(s) && t < |s.lock.tickets|
    requires Turn(s.lock.tickets, t) && !s.lock.tickets[t].released
    ensures Owns(s, q, t) && Heads(s, q) && s.requests[q].key == s.lock.tickets[t].key
  {
    q :| Owns(s, q, t);
    assert RequestOk(s, q);
  }

  /** `r` waits, and every ticket of its key below `from` was released. */
  ghost predicate WaitsFrom(s: State, r: nat, from: nat) {
    && In(s, r) && s.requests[r].phase.Waiting? && TicketExists(s, r) && from <= s.requests[r].ticket
    && s.lock.tickets[s.requests[r].ticket].key == s.requests[r].key
    && forall t :: 0 <= t < from && s.lock.tickets[t].key == s.requests[r].key ==> s.lock.tickets[t].released
  }

  lemma ServeNext(s: State, r: nat, from: nat) returns (q: nat)
    requires Inv(s) && OwnedInv(s) && WaitsFrom(s, r, from) && from < s.requests[r].ticket
    requires s.lock.tickets[from].key == s.requests[r].key && !s.lock.tickets[from].released
    ensures var s' := Run(s, Serve(q));
            WaitsFrom(s', r, from + 1) && s'.requests[r].ticket == s.requests[r].ticket
  {
    q := OwnerHeads(s, from);
    ServeReleases(s, q);
  }

  ghost predicate CanBeGranted(s: State, r: nat) {
    exists events :: r < |Run(s, events).requests| && Run(s, events).requests[r].phase.Granted?
  }

  lemma GrantNow(s: State, r: nat)
    requires LockInv(s.lock) && In(s, r) && WaitsFrom(s, r, s.requests[r].ticket)
    ensures CanBeGranted(s, r)
  {
    ChainIsQueue(s.lock, s.requests[r].ticket);
    RunOne(s, Grant(r));
    assert Run(s, [Grant(r)]).requests[r].phase.Granted?;
  }

  lemma LaterGrantCounts(s: State, first: seq<Event>, r: nat)
    requires CanBeGranted(Run(s, first), r)
    ensures CanBeGranted(s, r)
  {
    var rest :| r < |Run(Run(s, first), rest).requests| && Run(Run(s, first), rest).requests[r].phase.Granted?;
    RunConcat(s, first, rest);
    assert Run(s, first + rest).requests[r].phase.Granted?;
  }

  /** If holders keep answering, every waiter is granted the lock. */
  lemma {:induction false} WaiterIsServed(s: State, r: nat, from: nat)
    requires Inv(s) && OwnedInv(s) && WaitsFrom(s, r, from)
    ensures CanBeGranted(s, r)
    decreases s.requests[r].ticket - from
  {
    if from == s.requests[r].ticket {
      GrantNow(s, r);
    } else if s.lock.tickets[from].key != s.requests[r].key || s.lock.tickets[from].released {
      WaiterIsServed(s, r, from + 1);
    } else {
      var q := ServeNext(s, r, from);
      RunKeepsInv(s, Serve(q));
      RunKeepsOwned(s, Serve(q));
      WaiterIsServed(Run(s, Serve(q)), r, from + 1);
      LaterGrantCounts(s, Serve(q), r);
    }
  }

  /** From every reachable state, every waiting request can still get the lock. */
  lemma NoWaiterIsLost(events: seq<Event>, r: nat)
    requires var s := Reached(events); r < |s.requests| && s.requests[r].phase.Waiting?
    ensures exists more :: r < |Reached(events + more).requests| && Reached(events + more).requests[r].phase.Granted?
  {
    ReachedInv(events);
    RunKeepsOwned(Initial, events);
    assert RequestOk(Reached(events), r);
    WaiterIsServed(Reached(events), r, 0);
    var more :| r < |Run(Reached(events), more).requests| && Run(Reached(events), more).requests[r].phase.Granted?;
    RunConcat(Initial, events, more);
  }

  /** `u` joined the line of the key before `r`. */
  predicate Ahead(s: State, u: nat, r: nat)
    requires In(s, r)
  {
    && In(s, u) && s.requests[u].key == s.requests[r].key && s.requests[u].HasTicket()
    && s.requests[u].ticket < s.requests[r].ticket
  }

  /** Over every run: a waiting request can be granted the lock at once, if and only if every
      request ahead of it has freed its own. */
  lemma GrantEnabledExactly(events: seq<Event>, r: nat)
    requires var s := Reached(events); In(s, r) && s.requests[r].phase.Waiting?
    ensures var s := Reached(events);
            Enabled(s, Grant(r)) <==>
              forall u: nat :: Ahead(s, u, r) ==> TicketExists(s, u) && s.lock.tickets[s.requests[u].ticket].released
  {
    ReachedInv(events);
    RunKeepsOwned(Initial, events);
    GrantEnabled(Reached(events), r);
  }

  lemma GrantEnabled(s: State, r: nat)
    requires LockInv(s.lock) && RequestsInv(s) && OwnedInv(s) && In(s, r) && s.requests[r].phase.Waiting?
    ensures Enabled(s, Grant(r)) <==>
              forall u: nat :: Ahead(s, u, r) ==> TicketExists(s, u) && s.lock.tickets[s.requests[u].ticket].released
  {
    assert RequestOk(s, r);
    ChainIsQueue(s.lock, s.requests[r].ticket);
    forall u: nat | Ahead(s, u, r) ensures RequestOk(s, u) {}
    forall t | 0 <= t < s.requests[r].ticket && !s.lock.tickets[t].released
               && s.lock.tickets[t].key == s.requests[r].key
      ensures exists u: nat :: Ahead(s, u, r) && s.requests[u].ticket == t
    {
      var u :| Owns(s, u, t);
      assert RequestOk(s, u);
      assert Ahead(s, u, r);
    }
  }

  // ---------------------------------------------------------------------------
  // When the promise fails
  // ---------------------------------------------------------------------------

  /** Some continuation of `s`, with no time passing, runs the handler of `key` once more. */
  ghost predicate CanRunAgain(s: State, key: Key) {
    exists events :: && |Run(s, events).runs| == |s.runs| + 1
                     && Run(s, events).runs[|s.runs|].key == key && Run(s, events).now == s.now
  }

  lemma GrantThenRun(s: State, q: nat)
    requires Inv(s) && Enabled(s, Grant(q)) && Lookup(s.memory, s.requests[q].key, s.now).None?
    ensures var s' := Run(s, [Grant(q), Recheck(q)] + [AfterRecheck(q)]);
            s'.now == s.now && |s'.runs| == |s.runs| + 1 && s'.runs[|s.runs|].key == s.requests[q].key
  {
    RunConcat(s, [Grant(q), Recheck(q)], [AfterRecheck(q)]);
    RunTwo(s, Grant(q), Recheck(q));
    RunOne(Run(s, [Grant(q), Recheck(q)]), AfterRecheck(q));
    GrantThenRecheck(s, q);
  }

  lemma GrantThenRecheck(s: State, q: nat)
    requires Enabled(s, Grant(q)) && Lookup(s.memory, s.requests[q].key, s.now).None?
    ensures var s' := Step(Step(s, Grant(q)), Recheck(q));
            && s'.now == s.now && s'.runs == s.runs && Enabled(s', AfterRecheck(q))
            && s'.requests[q].phase == Rechecked(None) && s'.requests[q].key == s.requests[q].key
  {
  }

  /** The first unreleased ticket of a key, if there is one. */
  lemma {:induction false} FirstInLine(tickets: seq<Ticket>, key: Key, from: nat) returns (t: nat)
    requires from <= |tickets|
    requires forall u :: 0 <= u < from && tickets[u].key == key ==> tickets[u].released
    ensures t <= |tickets|
    ensures forall u :: 0 <= u < t && tickets[u].key == key ==> tickets[u].released
    ensures t < |tickets| ==> tickets[t].key == key && !tickets[t].released
    decreases |tickets| - from
  {
    if from == |tickets| || (tickets[from].key == key && !tickets[from].released) {
      t := from;
    } else {
      t := FirstInLine(tickets, key, from + 1);
    }
  }

  /** A key whose lock nobody holds and whose answer nobody remembers lets a handler in. */
  lemma UnprotectedKeyRuns(s: State, key: Key)
    requires Inv(s) && OwnedInv(s) && Lookup(s.memory, key, s.now).None?
    requires forall r: nat :: Holds(s, r) ==> s.requests[r].key != key
    ensures CanRunAgain(s, key)
  {
    var t := FirstInLine(s.lock.tickets, key, 0);
    if t < |s.lock.tickets| {
      var q :| Owns(s, q, t);
      assert RequestOk(s, q);
      assert !Holds(s, q);
      ChainIsQueue(s.lock, t);
      GrantThenRun(s, q);
    } else {
      NewcomerRuns(s, key);
    }
  }

  lemma NewcomerRuns(s: State, key: Key)
    requires Inv(s) && OwnedInv(s) && Lookup(s.memory, key, s.now).None?
    requires forall t :: 0 <= t < |s.lock.tickets| && s.lock.tickets[t].key == key ==> s.lock.tickets[t].released
    ensures CanRunAgain(s, key)
  {
    var q := |s.requests|;
    var enter := [Arrive(key), AfterLookup(q)];
    RunTwo(s, Arrive(key), AfterLookup(q));
    RunKeepsInv(s, enter);
    var s' := Run(s, enter);
    ChainIsQueue(s'.lock, |s.lock.tickets|);
    GrantThenRun(s', q);
    RunConcat(s, enter, [Grant(q), Recheck(q)] + [AfterRecheck(q)]);
  }

  /** An answer for the key outlives `until`, and nobody is past the second lookup empty-handed. */
  predicate Protected(s: State, key: Key, until: int) {
    && key in s.memory && s.memory[key].expiresAt > until
    && forall r :: 0 <= r < |s.requests| && s.requests[r].phase == Rechecked(None) ==> s.requests[r].key != key
  }

  lemma {:induction false} ProtectedKeyStaysQuiet(s: State, key: Key, until: int, events: seq<Event>)
    requires Protected(s, key, until) && Run(s, events).now <= until && until < s.now + TTL_MS
    ensures s.now <= Run(s, events).now && |s.runs| <= |Run(s, events).runs|
    ensures forall i :: |s.runs| <= i < |Run(s, events).runs| ==> Run(s, events).runs[i].key != key
    ensures forall i :: 0 <= i < |s.runs| ==> Run(s, events).runs[i].key == s.runs[i].key
    decreases |events|
  {
    if events != [] {
      TimeAdvances(Step(s, events[0]), events[1..]);
      ProtectedKeyStaysQuiet(Step(s, events[0]), key, until, events[1..]);
    }
  }

  lemma {:induction false} TimeAdvances(s: State, events: seq<Event>)
    ensures s.now <= Run(s, events).now
    decreases |events|
  {
    if events != [] {
      TimeAdvances(Step(s, events[0]), events[1..]);
    }
  }

  lemma NobodyElseHolds(s: State, r: nat)
    requires Inv(s) && Holds(s, r) && s.requests[r].phase.Running? && s.requests[r].phase.run < |s.runs|
    ensures var lost := Step(s, Close(r));
            forall u: nat :: Holds(lost, u) ==> lost.requests[u].key != s.requests[r].key
  {
    var lost := Step(s, Close(r));
    forall u: nat | Holds(lost, u) && lost.requests[u].key == s.requests[r].key ensures false {
      assert RequestOk(s, u) && RequestOk(s, r);
      if u != r {
        MutualExclusion(s, r, u);
      }
    }
  }

  // ---------------------------------------------------------------------------
  // What the run log records
  // ---------------------------------------------------------------------------

  /** A run is logged when a handler starts; it gets an answer only from its own request's
      `res.json`, good for 24 hours; and it counts as dropped only after its own connection closed
      or its response ended without one. */
  lemma RunLogIsTrue(s: State, e: Event, i: nat)
    requires RunsInv(s) && i < |Step(s, e).runs|
    ensures var run := Step(s, e).runs[i];
            if i == |s.runs| then
              && e == AfterRecheck(run.request) && Enabled(s, e) && s.requests[run.request].phase == Rechecked(None)
              && run.key == s.requests[run.request].key && run.startedAt == s.now && run.answer == None && !run.dropped
            else
              && i < |s.runs| && run.key == s.runs[i].key && run.request == s.runs[i].request
              && run.startedAt == s.runs[i].startedAt
              && (run.answer != s.runs[i].answer ==>
                    && e.Answer? && e.request == run.request && Enabled(s, e)
                    && run.answer == Some(Entry(e.reply, s.now + 86_400_000)))
              && (run.dropped != s.runs[i].dropped ==>
                    run.dropped && e == Close(run.request) && Enabled(s, e) && s.runs[i].answer == None)
  {
  }

  /** What the reply of a handler does to the table: it is found under its key for 24 hours. */
  lemma AnswerIsRemembered(s: State, r: nat, reply: Reply, t: int)
    requires Enabled(s, Answer(r, reply)) && s.now <= t
    ensures Lookup(Step(s, Answer(r, reply)).memory, s.requests[r].key, t)
            == if t < s.now + 86_400_000 then Some(reply) else None
  {
  }

  lemma AnswerLeavesNobody(s: State, r: nat, reply: Reply)
    requires Inv(s) && Holds(s, r) && Enabled(s, Answer(r, reply))
    ensures var s' := Step(s, Answer(r, reply));
            && NobodyHolds(s', s.requests[r].key)
            && (forall u :: 0 <= u < |s'.requests| && s'.requests[u].phase == Rechecked(None) ==>
                  s'.requests[u].key != s.requests[r].key)
  {
    HolderIsAlone(s, r);
    var s' := Step(s, Answer(r, reply));
    forall u: nat | Holds(s', u) && s'.requests[u].key == s.requests[r].key ensures false {
      assert RequestOk(s, u) && RequestOk(s, r);
      MutualExclusion(s, r, u);
    }
  }

  /** From the moment a handler answers, no handler of the key starts for 24 hours, whatever comes
      in; and when the 24 hours are over, one can. */
  lemma ReplayLastsADay(events: seq<Event>, r: nat, reply: Reply, more: seq<Event>)
    requires var s := Reached(events); Holds(s, r) && Enabled(s, Answer(r, reply))
    ensures var s := Reached(events);
            var s' := Step(s, Answer(r, reply));
            && (Run(s', more).now < s.now + 86_400_000 ==>
                  forall i :: |s'.runs| <= i < |Run(s', more).runs| ==>
                    Run(s', more).runs[i].key != s.requests[r].key)
            && CanRunAgain(Step(s', Tick(86_400_000)), s.requests[r].key)
  {
    var s := Reached(events);
    var key := s.requests[r].key;
    var s' := Step(s, Answer(r, reply));
    ReachedInv(events);
    RunKeepsOwned(Initial, events);
    AnswerLeavesNobody(s, r, reply);
    if Run(s', more).now < s.now + 86_400_000 {
      ProtectedKeyStaysQuiet(s', key, s.now + 86_400_000 - 1, more);
    }
    DayLater(s, r, reply);
  }

  /** Nobody is between grant and release on the key. */
  ghost predicate NobodyHolds(s: State, key: Key) {
    forall u: nat :: Holds(s, u) ==> s.requests[u].key != key
  }

  lemma DayLater(s: State, r: nat, reply: Reply)
    requires Inv(s) && OwnedInv(s) && Holds(s, r) && Enabled(s, Answer(r, reply))
    ensures CanRunAgain(Step(Step(s, Answer(r, reply)), Tick(86_400_000)), s.requests[r].key)
  {
    AnswerLeavesNobody(s, r, reply);
    StepKeepsInv(s, Answer(r, reply));
    StepKeepsOwned(s, Answer(r, reply));
    AnswerIsRemembered(s, r, reply, s.now + 86_400_000);
    ExpiresAfter(Step(s, Answer(r, reply)), s.requests[r].key, 86_400_000);
  }

  lemma ExpiresAfter(s: State, key: Key, elapsed: nat)
    requires Inv(s) && OwnedInv(s) && NobodyHolds(s, key) && Lookup(s.memory, key, s.now + elapsed).None?
    ensures CanRunAgain(Step(s, Tick(elapsed)), key)
  {
    StepKeepsInv(s, Tick(elapsed));
    StepKeepsOwned(s, Tick(elapsed));
    UnprotectedKeyRuns(Step(s, Tick(elapsed)), key);
  }

  /** The exact weak point. When the connection of a request whose handler is still at work is
      lost (or the handler ends without `res.json`), the handler can run again at once, for a
      waiter or a retry, if and only if no live answer is remembered for the key. */
  lemma LostConnectionRunsTwice(events: seq<Event>, r: nat)
    requires var s := Reached(events); Holds(s, r) && s.requests[r].phase.Running?
    ensures var s := Reached(events);
            CanRunAgain(Step(s, Close(r)), s.requests[r].key) <==> Lookup(s.memory, s.requests[r].key, s.now).None?
  {
    var s := Reached(events);
    var lost := Step(s, Close(r));
    var key := s.requests[r].key;
    ReachedInv(events);
    RunKeepsOwned(Initial, events);
    NobodyLeft(s, r);
    if Lookup(lost.memory, key, lost.now).None? {
      UnprotectedKeyRuns(lost, key);
    } else {
      RememberedKeyStaysQuiet(lost, key);
    }
  }

  lemma NobodyLeft(s: State, r: nat)
    requires Inv(s) && OwnedInv(s) && Holds(s, r) && s.requests[r].phase.Running?
    ensures var lost := Step(s, Close(r));
            && Inv(lost) && OwnedInv(lost) && lost.memory == s.memory && lost.now == s.now
            && forall u: nat :: Holds(lost, u) ==> lost.requests[u].key != s.requests[r].key
  {
    assert RequestOk(s, r);
    NobodyElseHolds(s, r);
    StepKeepsInv(s, Close(r));
    StepKeepsOwned(s, Close(r));
  }

  lemma RememberedKeyStaysQuiet(s: State, key: Key)
    requires Inv(s) && Lookup(s.memory, key, s.now).Some?
    requires forall u: nat :: Holds(s, u) ==> s.requests[u].key != key
    ensures !CanRunAgain(s, key)
  {
    NoHolderMeansProtected(s, key);
    forall more | Run(s, more).now == s.now && |Run(s, more).runs| == |s.runs| + 1
      ensures Run(s, more).runs[|s.runs|].key != key
    {
      ProtectedKeyStaysQuiet(s, key, s.now, more);
    }
  }

  lemma NoHolderMeansProtected(s: State, key: Key)
    requires Inv(s) && Lookup(s.memory, key, s.now).Some?
    requires forall u: nat :: Holds(s, u) ==> s.requests[u].key != key
    ensures Protected(s, key, s.now)
  {
    forall r | 0 <= r < |s.requests| && s.requests[r].phase == Rechecked(None) ensures s.requests[r].key != key {
      assert RequestOk(s, r);
      assert Holds(s, r);
    }
  }
}
