/**
 The idempotency middleware (app.ts) as a state machine over every interleaving of
 requests: look up, join the lock chain, be granted, look up again, run the handler,
 answer or lose the connection. Several requests on several keys are in flight at once.
 */
module Middleware {
  import opened Prelude
  import opened Idempotency

  datatype Phase =
    | LookedUp(first: Option<Reply>)    // suspended on the first lookup
    | Waiting                           // suspended on the previous chain promise
    | Granted                           // has the lock, not yet looked up again
    | Rechecked(second: Option<Reply>)  // suspended on the second lookup
    | Running(run: nat)                 // inside the handler; index into the run log
    | Replied(reply: Reply)             // a JSON answer was sent

  /** The phases in which a request owns the lock ticket written in it. */
  predicate HoldsTicket(phase: Phase) {
    phase.Waiting? || phase.Granted? || phase.Rechecked? || phase.Running?
  }

  datatype Request = Request(key: Key, ticket: nat, phase: Phase) {
    predicate HasTicket() {
      HoldsTicket(phase)
    }
  }

  /** One execution of a handler. `dropped` records that the lock was freed by the end of
      the response or of the connection while no JSON answer had been remembered. */
  datatype HandlerRun = HandlerRun(key: Key, request: nat, startedAt: int, answer: Option<Entry>, dropped: bool)

  datatype State = State(now: int, memory: Memory, lock: Locks, requests: seq<Request>, runs: seq<HandlerRun>)

  datatype Event =
    | Tick(elapsed: nat)
    | Arrive(key: Key)
    | AfterLookup(request: nat)
    | Grant(request: nat)
    | Recheck(request: nat)
    | AfterRecheck(request: nat)
    | Answer(request: nat, reply: Reply)
    | Close(request: nat)

  const Initial := State(0, map[], Locks(map[], []), [], [])

  predicate In(s: State, r: nat) { r < |s.requests| }

  predicate TicketExists(s: State, r: nat)
    requires In(s, r)
  {
    s.requests[r].ticket < |s.lock.tickets|
  }

  function SetPhase(s: State, r: nat, phase: Phase): State
    requires In(s, r)
  {
    s.(requests := s.requests[r := s.requests[r].(phase := phase)])
  }

  function DoArrive(s: State, key: Key): State {
    s.(memory := Purge(s.memory, key, s.now),
       requests := s.requests + [Request(key, 0, LookedUp(Lookup(s.memory, key, s.now)))])
  }

  function DoAfterLookup(s: State, r: nat): State
    requires In(s, r) && s.requests[r].phase.LookedUp?
  {
    match s.requests[r].phase.first
    case Some(reply) => SetPhase(s, r, Replied(reply))
    case None =>
      s.(lock := Join(s.lock, s.requests[r].key),
         requests := s.requests[r := Request(s.requests[r].key, |s.lock.tickets|, Waiting)])
  }

  function DoRecheck(s: State, r: nat): State
    requires In(s, r)
  {
    var key := s.requests[r].key;
    SetPhase(s.(memory := Purge(s.memory, key, s.now)), r, Rechecked(Lookup(s.memory, key, s.now)))
  }

  function DoAfterRecheck(s: State, r: nat): State
    requires In(s, r) && s.requests[r].phase.Rechecked? && TicketExists(s, r)
  {
    match s.requests[r].phase.second
    case Some(reply) =>
      SetPhase(s.(lock := Release(s.lock, s.requests[r].ticket)), r, Replied(reply))
    case None =>
      SetPhase(s.(runs := s.runs + [HandlerRun(s.requests[r].key, r, s.now, None, false)]), r, Running(|s.runs|))
  }

  /** The wrapped `res.json`: remember the answer, free the lock, send. */
  function DoAnswer(s: State, r: nat, reply: Reply): State
    requires In(s, r) && s.requests[r].phase.Running? && s.requests[r].phase.run < |s.runs| && TicketExists(s, r)
  {
    var entry := Entry(reply, s.now + TTL_MS);
    var run := s.requests[r].phase.run;
    SetPhase(s.(memory := s.memory[s.requests[r].key := entry],
                lock := Release(s.lock, s.requests[r].ticket),
                runs := s.runs[run := s.runs[run].(answer := Some(entry))]),
             r, Replied(reply))
  }

  /** The `finish` or `close` event of a response whose handler has not called `res.json`. */
  function DoClose(s: State, r: nat): State
    requires In(s, r) && s.requests[r].phase.Running? && s.requests[r].phase.run < |s.runs| && TicketExists(s, r)
  {
    var run := s.requests[r].phase.run;
    s.(lock := Release(s.lock, s.requests[r].ticket),
       runs := s.runs[run := s.runs[run].(dropped := true)])
  }

  predicate AtWork(s: State, r: nat) {
    In(s, r) && s.requests[r].phase.Running? && s.requests[r].phase.run < |s.runs| && TicketExists(s, r)
  }

  predicate Enabled(s: State, e: Event) {
    match e
    case Tick(_) => true
    case Arrive(_) => true
    case AfterLookup(r) => In(s, r) && s.requests[r].phase.LookedUp?
    case Grant(r) =>
      && In(s, r) && s.requests[r].phase.Waiting? && TicketExists(s, r)
      && MayProceed(s.lock.tickets, s.requests[r].ticket)
    case Recheck(r) => In(s, r) && s.requests[r].phase.Granted?
    case AfterRecheck(r) => In(s, r) && s.requests[r].phase.Rechecked? && TicketExists(s, r)
    case Answer(r, _) => AtWork(s, r)
    case Close(r) => AtWork(s, r)
  }

  function Step(s: State, e: Event): State {
    if !Enabled(s, e) then s
    else match e
      case Tick(elapsed) => s.(now := s.now + elapsed)
      case Arrive(key) => DoArrive(s, key)
      case AfterLookup(r) => DoAfterLookup(s, r)
      case Grant(r) => SetPhase(s, r, Granted)
      case Recheck(r) => DoRecheck(s, r)
      case AfterRecheck(r) => DoAfterRecheck(s, r)
      case Answer(r, reply) => DoAnswer(s, r, reply)
      case Close(r) => DoClose(s, r)
  }

  function Run(s: State, events: seq<Event>): State
    decreases |events|
  {
    if events == [] then s else Run(Step(s, events[0]), events[1..])
  }

  // ---------------------------------------------------------------------------
  // Invariants
  // ---------------------------------------------------------------------------

  /** In the handler or on the way into it, with the lock not yet freed. */
  predicate Holds(s: State, r: nat)
  {
    && In(s, r) && TicketExists(s, r)
    && (s.requests[r].phase.Granted? || s.requests[r].phase.Rechecked? || s.requests[r].phase.Running?)
    && !s.lock.tickets[s.requests[r].ticket].released
  }

  ghost predicate RequestOk(s: State, r: nat)
    requires In(s, r)
  {
    var q := s.requests[r];
    q.HasTicket() ==>
      && q.ticket < |s.lock.tickets| && s.lock.tickets[q.ticket].key == q.key
      && (!q.phase.Running? ==> !s.lock.tickets[q.ticket].released)
      && (!q.phase.Waiting? ==> Turn(s.lock.tickets, q.ticket))
      && (q.phase.Running? ==> q.phase.run < |s.runs| && s.runs[q.phase.run].request == r)
  }

  ghost predicate RequestsInv(s: State) {
    && (forall r :: 0 <= r < |s.requests| ==> RequestOk(s, r))
    && (forall r, u :: 0 <= r < u < |s.requests| && s.requests[r].HasTicket() && s.requests[u].HasTicket() ==>
          s.requests[r].ticket != s.requests[u].ticket)
  }

  ghost predicate RunOk(s: State, i: nat)
    requires i < |s.runs|
  {
    var run := s.runs[i];
    && run.request < |s.requests| && s.requests[run.request].key == run.key
    && run.startedAt <= s.now
    && (run.answer.Some? ==> run.answer.value.expiresAt <= s.now + TTL_MS)
    && (run.answer.None? ==> s.requests[run.request].phase == Running(i))
    && (run.answer.None? && !run.dropped ==> Holds(s, run.request))
  }

  ghost predicate RunsInv(s: State) {
    && (forall i :: 0 <= i < |s.runs| ==> RunOk(s, i))
    && (forall r :: 0 <= r < |s.requests| && s.requests[r].phase.Running? ==>
          s.requests[r].phase.run < |s.runs| && s.runs[s.requests[r].phase.run].answer.None?
          && s.runs[s.requests[r].phase.run].request == r)
  }

  /** Run `i` answered, and its answer is out of date at time `now`. */
  predicate Expired(run: HandlerRun, now: int) {
    run.answer.Some? && run.answer.value.expiresAt <= now
  }

  /** While it lives, the answer of a run is what a lookup finds, unless a later one replaced it. */
  ghost predicate MemoryInv(s: State) {
    forall i :: 0 <= i < |s.runs| && s.runs[i].answer.Some? && !Expired(s.runs[i], s.now) ==>
      s.runs[i].key in s.memory && s.memory[s.runs[i].key].expiresAt >= s.runs[i].answer.value.expiresAt
  }

  /** Some run on the key gave exactly this answer. */
  ghost predicate GivenBy(runs: seq<HandlerRun>, key: Key, reply: Reply) {
    exists i :: 0 <= i < |runs| && runs[i].key == key && runs[i].answer.Some? && runs[i].answer.value.result == reply
  }

  ghost predicate EntryGiven(runs: seq<HandlerRun>, key: Key, entry: Entry) {
    exists i :: 0 <= i < |runs| && runs[i].key == key && runs[i].answer == Some(entry)
  }

  ghost predicate SourceInv(s: State) {
    && (forall k :: k in s.memory ==> EntryGiven(s.runs, k, s.memory[k]))
    && (forall r :: 0 <= r < |s.requests| ==>
          match s.requests[r].phase
          case LookedUp(Some(reply)) => GivenBy(s.runs, s.requests[r].key, reply)
          case Rechecked(Some(reply)) => GivenBy(s.runs, s.requests[r].key, reply)
          case Replied(reply) => GivenBy(s.runs, s.requests[r].key, reply)
          case _ => true)
  }

  /** A run that no longer protects its key: its lock was freed unanswered, or its answer is too old. */
  predicate Spent(run: HandlerRun, now: int) {
    run.dropped || Expired(run, now)
  }

  /** Nothing protects the key of a request that is about to enter its handler. */
  ghost predicate QuietInv(s: State) {
    forall r, i :: 0 <= r < |s.requests| && 0 <= i < |s.runs|
                   && s.requests[r].phase == Rechecked(None) && s.runs[i].key == s.requests[r].key
      ==> Spent(s.runs[i], s.now)
  }

  ghost predicate SpacingInv(s: State) {
    forall i, j :: 0 <= i < j < |s.runs| && s.runs[i].key == s.runs[j].key ==>
      Spent(s.runs[i], s.runs[j].startedAt)
  }

  ghost predicate Inv(s: State) {
    LockInv(s.lock) && RequestsInv(s) && RunsInv(s) && MemoryInv(s) && SourceInv(s) && QuietInv(s) && SpacingInv(s)
  }

  // ---------------------------------------------------------------------------
  // At most one holder per key
  // ---------------------------------------------------------------------------

  lemma MutualExclusion(s: State, r: nat, u: nat)
    requires RequestsInv(s) && Holds(s, r) && Holds(s, u) && s.requests[r].key == s.requests[u].key
    ensures r == u
  {
    assert RequestOk(s, r) && RequestOk(s, u);
  }

  // ---------------------------------------------------------------------------
  // Every event keeps the invariant
  // ---------------------------------------------------------------------------

  lemma TickKeepsInv(s: State, elapsed: nat)
    requires Inv(s)
    ensures Inv(Step(s, Tick(elapsed)))
  {
    var s' := Step(s, Tick(elapsed));
    forall r | 0 <= r < |s'.requests| ensures RequestOk(s', r) {
      assert RequestOk(s, r);
    }
    forall i | 0 <= i < |s'.runs| ensures RunOk(s', i) {
      assert RunOk(s, i);
    }
  }

  lemma ArriveKeepsInv(s: State, key: Key)
    requires Inv(s)
    ensures Inv(DoArrive(s, key))
  {
    ArriveKeepsRequests(s, key);
    ArriveKeepsRuns(s, key);
    LookupIsGiven(s, key);
  }

  lemma ArriveKeepsRequests(s: State, key: Key)
    requires Inv(s)
    ensures RequestsInv(DoArrive(s, key))
  {
    var s' := DoArrive(s, key);
    forall r | 0 <= r < |s'.requests| ensures RequestOk(s', r) {
      if r < |s.requests| {
        assert RequestOk(s, r);
      }
    }
  }

  lemma ArriveKeepsRuns(s: State, key: Key)
    requires Inv(s)
    ensures RunsInv(DoArrive(s, key))
  {
    var s' := DoArrive(s, key);
    forall i | 0 <= i < |s'.runs| ensures RunOk(s', i) {
      assert RunOk(s, i);
    }
  }

  /** Whatever a lookup returns was given by a run of that key. */
  lemma LookupIsGiven(s: State, key: Key)
    requires SourceInv(s)
    ensures match Lookup(s.memory, key, s.now) case Some(reply) => GivenBy(s.runs, key, reply) case None => true
  {
    if Lookup(s.memory, key, s.now).Some? {
      assert EntryGiven(s.runs, key, s.memory[key]);
    }
  }

  /** Changing only the phase of one request, within the same stage of the protocol. */
  lemma SetPhaseKeepsInv(s: State, r: nat, phase: Phase)
    requires Inv(s) && In(s, r)
    requires !phase.Running? && !s.requests[r].phase.Running?
    requires HoldsTicket(phase) ==> s.requests[r].HasTicket()
    requires (phase.Granted? || phase.Rechecked?) ==> TicketExists(s, r) && Turn(s.lock.tickets, s.requests[r].ticket)
    requires match phase
             case LookedUp(Some(reply)) => GivenBy(s.runs, s.requests[r].key, reply)
             case Rechecked(Some(reply)) => GivenBy(s.runs, s.requests[r].key, reply)
             case Replied(reply) => GivenBy(s.runs, s.requests[r].key, reply)
             case _ => true
    requires phase == Rechecked(None) ==>
               forall i :: 0 <= i < |s.runs| && s.runs[i].key == s.requests[r].key ==> Spent(s.runs[i], s.now)
    ensures Inv(SetPhase(s, r, phase))
  {
    var s' := SetPhase(s, r, phase);
    forall u | 0 <= u < |s'.requests| ensures RequestOk(s', u) {
      assert RequestOk(s, u);
    }
    forall i | 0 <= i < |s'.runs| ensures RunOk(s', i) {
      assert RunOk(s, i);
    }
  }

  lemma AfterLookupKeepsInv(s: State, r: nat)
    requires Inv(s) && In(s, r) && s.requests[r].phase.LookedUp?
    ensures Inv(DoAfterLookup(s, r))
  {
    match s.requests[r].phase.first
    case Some(reply) => SetPhaseKeepsInv(s, r, Replied(reply));
    case None =>
      JoinKeepsLockInv(s.lock, s.requests[r].key);
      JoinKeepsRequests(s, r);
      JoinKeepsRuns(s, r);
  }

  lemma JoinKeepsRequests(s: State, r: nat)
    requires Inv(s) && In(s, r) && s.requests[r].phase == LookedUp(None)
    ensures RequestsInv(DoAfterLookup(s, r))
  {
    var s' := DoAfterLookup(s, r);
    forall u | 0 <= u < |s'.requests| ensures RequestOk(s', u) {
      assert RequestOk(s, u);
    }
    forall u, v | 0 <= u < v < |s'.requests| && s'.requests[u].HasTicket() && s'.requests[v].HasTicket()
      ensures s'.requests[u].ticket != s'.requests[v].ticket
    {
      assert RequestOk(s, u) && RequestOk(s, v);
    }
  }

  lemma JoinKeepsRuns(s: State, r: nat)
    requires Inv(s) && In(s, r) && s.requests[r].phase == LookedUp(None)
    ensures RunsInv(DoAfterLookup(s, r))
  {
    var s' := DoAfterLookup(s, r);
    forall i | 0 <= i < |s'.runs| ensures RunOk(s', i) {
      assert RunOk(s, i);
      assert RequestOk(s, s.runs[i].request);
    }
  }

  lemma GrantKeepsInv(s: State, r: nat)
    requires Inv(s) && Enabled(s, Grant(r))
    ensures Inv(SetPhase(s, r, Granted))
  {
    ChainIsQueue(s.lock, s.requests[r].ticket);
    SetPhaseKeepsInv(s, r, Granted);
  }

  /** Deleting an expired entry disturbs nothing. */
  lemma PurgeKeepsInv(s: State, key: Key)
    requires Inv(s)
    ensures Inv(s.(memory := Purge(s.memory, key, s.now)))
  {
    var s' := s.(memory := Purge(s.memory, key, s.now));
    forall u | 0 <= u < |s'.requests| ensures RequestOk(s', u) {
      assert RequestOk(s, u);
    }
    forall i | 0 <= i < |s'.runs| ensures RunOk(s', i) {
      assert RunOk(s, i);
    }
  }

  /** A lock holder whose second lookup finds nothing knows that no earlier run protects the key. */
  lemma NothingFoundMeansSpent(s: State, r: nat)
    requires Inv(s) && Holds(s, r) && s.requests[r].phase.Granted?
    requires Lookup(s.memory, s.requests[r].key, s.now).None?
    ensures forall i :: 0 <= i < |s.runs| && s.runs[i].key == s.requests[r].key ==> Spent(s.runs[i], s.now)
  {
    forall i | 0 <= i < |s.runs| && s.runs[i].key == s.requests[r].key ensures Spent(s.runs[i], s.now) {
      assert RunOk(s, i);
      if s.runs[i].answer.None? && !s.runs[i].dropped {
        MutualExclusion(s, r, s.runs[i].request);
      }
    }
  }

  lemma RecheckKeepsInv(s: State, r: nat)
    requires Inv(s) && In(s, r) && s.requests[r].phase.Granted?
    ensures Inv(DoRecheck(s, r))
  {
    var key := s.requests[r].key;
    assert RequestOk(s, r);
    LookupIsGiven(s, key);
    if Lookup(s.memory, key, s.now).None? {
      NothingFoundMeansSpent(s, r);
    }
    PurgeKeepsInv(s, key);
    SetPhaseKeepsInv(s.(memory := Purge(s.memory, key, s.now)), r, Rechecked(Lookup(s.memory, key, s.now)));
  }

  /** Freeing the lock of `r`, whose handler (if any) is marked as over, leaves every other holder alone. */
  lemma ReleaseTurns(s: State, r: nat)
    requires Inv(s) && In(s, r) && s.requests[r].HasTicket() && !s.requests[r].phase.Waiting?
    ensures TicketExists(s, r) && LockInv(Release(s.lock, s.requests[r].ticket))
    ensures var tickets' := Release(s.lock, s.requests[r].ticket).tickets;
            && |tickets'| == |s.lock.tickets|
            && (forall t :: 0 <= t < |tickets'| ==> tickets'[t].key == s.lock.tickets[t].key)
            && (forall t :: 0 <= t < |tickets'| && t != s.requests[r].ticket ==> tickets'[t] == s.lock.tickets[t])
            && (forall t :: 0 <= t < |tickets'| && Turn(s.lock.tickets, t) ==> Turn(tickets', t))
  {
    assert RequestOk(s, r);
    ReleaseKeepsLockInv(s.lock, s.requests[r].ticket);
  }

  lemma ReplayKeepsInv(s: State, r: nat)
    requires Inv(s) && Enabled(s, AfterRecheck(r)) && s.requests[r].phase.second.Some?
    ensures Inv(DoAfterRecheck(s, r))
  {
    ReleaseTurns(s, r);
    ReplayKeepsRequests(s, r);
    ReplayKeepsRuns(s, r);
  }

  lemma ReplayKeepsRequests(s: State, r: nat)
    requires Inv(s) && Enabled(s, AfterRecheck(r)) && s.requests[r].phase.second.Some?
    ensures RequestsInv(DoAfterRecheck(s, r))
  {
    var s' := DoAfterRecheck(s, r);
    ReleaseTurns(s, r);
    assert RequestOk(s, r);
    forall u | 0 <= u < |s'.requests| ensures RequestOk(s', u) {
      assert RequestOk(s, u);
    }
  }

  lemma ReplayKeepsRuns(s: State, r: nat)
    requires Inv(s) && Enabled(s, AfterRecheck(r)) && s.requests[r].phase.second.Some?
    ensures RunsInv(DoAfterRecheck(s, r))
  {
    var s' := DoAfterRecheck(s, r);
    ReleaseTurns(s, r);
    assert RequestOk(s, r);
    forall i | 0 <= i < |s'.runs| ensures RunOk(s', i) {
      assert RunOk(s, i);
      assert RequestOk(s, s.runs[i].request);
    }
  }

  lemma StartKeepsInv(s: State, r: nat)
    requires Inv(s) && Enabled(s, AfterRecheck(r)) && s.requests[r].phase.second.None?
    ensures Inv(DoAfterRecheck(s, r))
  {
    StartKeepsRequests(s, r);
    StartKeepsRuns(s, r);
    StartKeepsSources(s, r);
    assert RequestOk(s, r);
    HolderIsAlone(s, r);
  }

  lemma StartKeepsRequests(s: State, r: nat)
    requires Inv(s) && Enabled(s, AfterRecheck(r)) && s.requests[r].phase.second.None?
    ensures RequestsInv(DoAfterRecheck(s, r))
  {
    var s' := DoAfterRecheck(s, r);
    forall u | 0 <= u < |s'.requests| ensures RequestOk(s', u) {
      assert RequestOk(s, u);
    }
  }

  lemma StartKeepsRuns(s: State, r: nat)
    requires Inv(s) && Enabled(s, AfterRecheck(r)) && s.requests[r].phase.second.None?
    ensures RunsInv(DoAfterRecheck(s, r))
  {
    var s' := DoAfterRecheck(s, r);
    assert RequestOk(s, r);
    forall i | 0 <= i < |s'.runs| ensures RunOk(s', i) {
      if i < |s.runs| {
        assert RunOk(s, i);
      }
    }
  }

  lemma HolderIsAlone(s: State, r: nat)
    requires RequestsInv(s) && Holds(s, r)
    ensures forall u :: 0 <= u < |s.requests| && u != r && s.requests[u].phase.Rechecked? ==>
              s.requests[u].key != s.requests[r].key
  {
    forall u | 0 <= u < |s.requests| && s.requests[u].phase.Rechecked? && s.requests[u].key == s.requests[r].key
      ensures u == r
    {
      assert RequestOk(s, u);
      MutualExclusion(s, r, u);
    }
  }

  lemma StartKeepsSources(s: State, r: nat)
    requires SourceInv(s) && Enabled(s, AfterRecheck(r)) && s.requests[r].phase.second.None?
    ensures SourceInv(DoAfterRecheck(s, r))
  {
    var s' := DoAfterRecheck(s, r);
    MoreRunsKeepSources(s.runs, s'.runs);
    forall k | k in s'.memory ensures EntryGiven(s'.runs, k, s'.memory[k]) {
      assert EntryGiven(s.runs, k, s.memory[k]);
    }
  }

  /** Answers are never taken back, so what was given stays given. */
  lemma MoreRunsKeepSources(runs: seq<HandlerRun>, runs': seq<HandlerRun>)
    requires |runs| <= |runs'|
    requires forall i :: 0 <= i < |runs| && runs[i].answer.Some? ==>
             runs'[i].key == runs[i].key && runs'[i].answer == runs[i].answer
    ensures forall key, reply {:trigger GivenBy(runs, key, reply)} :: GivenBy(runs, key, reply) ==>
              GivenBy(runs', key, reply)
    ensures forall key, entry {:trigger EntryGiven(runs, key, entry)} :: EntryGiven(runs, key, entry) ==>
              EntryGiven(runs', key, entry)
  {
    forall key, reply | GivenBy(runs, key, reply) ensures GivenBy(runs', key, reply) {
      var i :| 0 <= i < |runs| && runs[i].key == key && runs[i].answer.Some? && runs[i].answer.value.result == reply;
      assert runs'[i].key == key;
    }
    forall key, entry | EntryGiven(runs, key, entry) ensures EntryGiven(runs', key, entry) {
      var i :| 0 <= i < |runs| && runs[i].key == key && runs[i].answer == Some(entry);
      assert runs'[i].key == key;
    }
  }

  lemma AnswerKeepsInv(s: State, r: nat, reply: Reply)
    requires Inv(s) && Enabled(s, Answer(r, reply))
    ensures Inv(DoAnswer(s, r, reply))
  {
    ReleaseTurns(s, r);
    AnswerKeepsRequests(s, r, reply);
    AnswerKeepsRuns(s, r, reply);
    AnswerKeepsSources(s, r, reply);
    AnswerKeepsQuiet(s, r, reply);
    assert RequestOk(s, r);
    assert MemoryInv(DoAnswer(s, r, reply)) by {
      forall i | 0 <= i < |s.runs|
        ensures s.runs[i].answer.Some? ==> s.runs[i].answer.value.expiresAt <= s.now + TTL_MS
      {
        assert RunOk(s, i);
      }
      assert RunOk(s, s.requests[r].phase.run);
    }
  }

  lemma AnswerKeepsRequests(s: State, r: nat, reply: Reply)
    requires Inv(s) && Enabled(s, Answer(r, reply))
    ensures RequestsInv(DoAnswer(s, r, reply))
  {
    var s' := DoAnswer(s, r, reply);
    ReleaseTurns(s, r);
    forall u | 0 <= u < |s'.requests| ensures RequestOk(s', u) {
      assert RequestOk(s, u) && RequestOk(s, r);
    }
  }

  lemma AnswerKeepsRuns(s: State, r: nat, reply: Reply)
    requires Inv(s) && Enabled(s, Answer(r, reply))
    ensures RunsInv(DoAnswer(s, r, reply))
  {
    var s' := DoAnswer(s, r, reply);
    ReleaseTurns(s, r);
    assert RequestOk(s, r) && RunOk(s, s.requests[r].phase.run);
    forall i | 0 <= i < |s'.runs| ensures RunOk(s', i) {
      assert RunOk(s, i);
      assert RequestOk(s, s.runs[i].request);
    }
  }

  lemma AnswerKeepsSources(s: State, r: nat, reply: Reply)
    requires Inv(s) && Enabled(s, Answer(r, reply))
    ensures SourceInv(DoAnswer(s, r, reply))
  {
    var s' := DoAnswer(s, r, reply);
    var run := s.requests[r].phase.run;
    assert RequestOk(s, r) && RunOk(s, run);
    MoreRunsKeepSources(s.runs, s'.runs);
    assert s'.runs[run].key == s.requests[r].key;
    forall k | k in s'.memory ensures EntryGiven(s'.runs, k, s'.memory[k]) {
      if k != s.requests[r].key {
        assert EntryGiven(s.runs, k, s.memory[k]);
      }
    }
  }

  /** A request about to enter its handler holds the lock, so the one that answers was dropped before. */
  lemma AnswerKeepsQuiet(s: State, r: nat, reply: Reply)
    requires Inv(s) && Enabled(s, Answer(r, reply))
    ensures QuietInv(DoAnswer(s, r, reply)) && SpacingInv(DoAnswer(s, r, reply))
  {
    var run := s.requests[r].phase.run;
    assert RequestOk(s, r) && RunOk(s, run);
  }

  lemma CloseKeepsInv(s: State, r: nat)
    requires Inv(s) && Enabled(s, Close(r))
    ensures Inv(DoClose(s, r))
  {
    ReleaseTurns(s, r);
    CloseKeepsRequests(s, r);
    CloseKeepsRuns(s, r);
    CloseKeepsSources(s, r);
  }

  lemma CloseKeepsRequests(s: State, r: nat)
    requires Inv(s) && Enabled(s, Close(r))
    ensures RequestsInv(DoClose(s, r))
  {
    var s' := DoClose(s, r);
    ReleaseTurns(s, r);
    assert RequestOk(s, r);
    forall u | 0 <= u < |s'.requests| ensures RequestOk(s', u) {
      assert RequestOk(s, u);
    }
  }

  lemma CloseKeepsRuns(s: State, r: nat)
    requires Inv(s) && Enabled(s, Close(r))
    ensures RunsInv(DoClose(s, r))
  {
    var s' := DoClose(s, r);
    ReleaseTurns(s, r);
    assert RequestOk(s, r) && RunOk(s, s.requests[r].phase.run);
    forall i | 0 <= i < |s'.runs| ensures RunOk(s', i) {
      assert RunOk(s, i);
      assert RequestOk(s, s.runs[i].request);
    }
  }

  lemma CloseKeepsSources(s: State, r: nat)
    requires SourceInv(s) && Enabled(s, Close(r))
    ensures SourceInv(DoClose(s, r))
  {
    var s' := DoClose(s, r);
    MoreRunsKeepSources(s.runs, s'.runs);
    forall k | k in s'.memory ensures EntryGiven(s'.runs, k, s'.memory[k]) {
      assert EntryGiven(s.runs, k, s.memory[k]);
    }
  }

  lemma StepKeepsInv(s: State, e: Event)
    requires Inv(s)
    ensures Inv(Step(s, e))
  {
    if Enabled(s, e) {
      match e
      case Tick(elapsed) => TickKeepsInv(s, elapsed);
      case Arrive(key) => ArriveKeepsInv(s, key);
      case AfterLookup(r) => AfterLookupKeepsInv(s, r);
      case Grant(r) => GrantKeepsInv(s, r);
      case Recheck(r) => RecheckKeepsInv(s, r);
      case AfterRecheck(r) =>
        if s.requests[r].phase.second.Some? {
          ReplayKeepsInv(s, r);
        } else {
          StartKeepsInv(s, r);
        }
      case Answer(r, reply) => AnswerKeepsInv(s, r, reply);
      case Close(r) => CloseKeepsInv(s, r);
    }
  }

  lemma {:induction false} RunKeepsInv(s: State, events: seq<Event>)
    requires Inv(s)
    ensures Inv(Run(s, events))
    decreases |events|
  {
    if events != [] {
      StepKeepsInv(s, events[0]);
      RunKeepsInv(Step(s, events[0]), events[1..]);
    }
  }
}
