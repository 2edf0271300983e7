/**
 The phone and the server together: the driver's queue, any number of overlapping flushes,
 lost requests and lost replies (DriverWorkspace.tsx, driverActionQueue.ts) in front of the
 idempotency middleware. A queued action is sent with its own id as the idempotency key.
 */
module ExactlyOnce {
  import opened Prelude
  import opened Idempotency
  import opened Middleware
  import opened DriverQueue

  /** A flush suspended in its `send` of entry `sent`; `request` is the attempt that reached
      the server, if one has. */
  datatype Flush = Flush(pending: seq<Action>, sent: nat, request: Option<nat>, active: bool)

  /** `entered` lists the ids that were stored, oldest first; `pushedOut` those lost to the
      50-entry cap; `queued` the requests that a flush delivered. Every other request is a live
      attempt, which may use any key, that of a queued action too. */
  datatype System = System(server: State, stored: seq<Action>, flushes: seq<Flush>,
                           entered: seq<string>, pushedOut: set<string>, queued: set<nat>)

  datatype SystemEvent =
    | Server(event: Event)
    | Enqueue(id: string, writable: bool)
    | StartFlush
    | Deliver(flush: nat)
    | Succeed(flush: nat, writable: bool)
    | Fail(flush: nat, countWritable: bool, writable: bool)

  const Start := System(Initial, [], [], [], {}, {})

  predicate Ok(reply: Reply) { 200 <= reply.status < 300 }

  predicate Sending(s: System, f: nat) {
    f < |s.flushes| && s.flushes[f].active && s.flushes[f].sent < |s.flushes[f].pending|
  }

  /** The attempt in flight was answered with success. */
  predicate Answered(s: System, f: nat) {
    && Sending(s, f) && s.flushes[f].request.Some? && s.flushes[f].request.value < |s.server.requests|
    && var phase := s.server.requests[s.flushes[f].request.value].phase;
       phase.Replied? && Ok(phase.reply)
  }

  function Removed(stored: seq<Action>, sent: seq<Action>, writable: bool): seq<Action> {
    if sent != [] && writable then Newest(Without(stored, sent)) else stored
  }

  function CountFailure(stored: seq<Action>, id: string, writable: bool): seq<Action> {
    if writable && HasId(stored, id) then Newest(Failed(stored, id)) else stored
  }

  function DoEnqueue(s: System, id: string): System {
    var cut := if |s.stored| >= MAX_QUEUE then |s.stored| + 1 - MAX_QUEUE else 0;
    s.(stored := Newest(s.stored + [Action(id, 0)]), entered := s.entered + [id],
       pushedOut := s.pushedOut + set i | 0 <= i < cut :: s.stored[i].id)
  }

  function DoDeliver(s: System, f: nat): System
    requires Sending(s, f)
  {
    var flush := s.flushes[f];
    s.(server := Step(s.server, Arrive(flush.pending[flush.sent].id)), queued := s.queued + {|s.server.requests|},
       flushes := s.flushes[f := flush.(request := Some(|s.server.requests|))])
  }

  function DoSucceed(s: System, f: nat, writable: bool): System
    requires Sending(s, f)
  {
    var flush := s.flushes[f];
    if flush.sent + 1 < |flush.pending| then
      s.(flushes := s.flushes[f := flush.(sent := flush.sent + 1, request := None)])
    else
      s.(stored := Removed(s.stored, flush.pending, writable),
         flushes := s.flushes[f := flush.(sent := flush.sent + 1, request := None, active := false)])
  }

  function DoFail(s: System, f: nat, countWritable: bool, writable: bool): System
    requires Sending(s, f)
  {
    var flush := s.flushes[f];
    s.(stored := Removed(CountFailure(s.stored, flush.pending[flush.sent].id, countWritable),
                         flush.pending[..flush.sent], writable),
       flushes := s.flushes[f := flush.(active := false)])
  }

  function SystemStep(s: System, e: SystemEvent): System {
    match e
    case Server(event) => s.(server := Step(s.server, event))
    case Enqueue(id, writable) => if writable && id !in s.entered then DoEnqueue(s, id) else s
    case StartFlush => s.(flushes := s.flushes + [Flush(s.stored, 0, None, s.stored != [])])
    case Deliver(f) => if Sending(s, f) then DoDeliver(s, f) else s
    case Succeed(f, writable) => if Answered(s, f) then DoSucceed(s, f, writable) else s
    case Fail(f, countWritable, writable) => if Sending(s, f) then DoFail(s, f, countWritable, writable) else s
  }

  function SystemRun(s: System, events: seq<SystemEvent>): System
    decreases |events|
  {
    if events == [] then s else SystemRun(SystemStep(s, events[0]), events[1..])
  }

  // ---------------------------------------------------------------------------
  // Order of entry, success, and what they have to do with each other
  // ---------------------------------------------------------------------------

  ghost predicate Before(entered: seq<string>, a: string, b: string) {
    exists p, q :: 0 <= p < q < |entered| && entered[p] == a && entered[q] == b
  }

  predicate Distinct(entered: seq<string>) {
    forall p, q :: 0 <= p < q < |entered| ==> entered[p] != entered[q]
  }

  ghost predicate InOrder(actions: seq<Action>, entered: seq<string>) {
    && (forall i :: 0 <= i < |actions| ==> actions[i].id in entered)
    && (forall i, j :: 0 <= i < j < |actions| ==> Before(entered, actions[i].id, actions[j].id))
  }

  /** The handler ran for this id and answered with success. */
  ghost predicate Done(runs: seq<HandlerRun>, id: string) {
    exists i :: 0 <= i < |runs| && runs[i].key == id && runs[i].answer.Some? && Ok(runs[i].answer.value.result)
  }

  /** Run `j` started only after a run for `id` had started and answered with success. */
  ghost predicate DoneBefore(runs: seq<HandlerRun>, id: string, j: nat)
    requires j < |runs|
  {
    exists i :: 0 <= i < j && runs[i].key == id && runs[i].answer.Some? && Ok(runs[i].answer.value.result)
                && runs[i].answer.value.expiresAt <= runs[j].startedAt + TTL_MS
  }

  ghost predicate Settled(s: System, id: string) {
    id in s.pushedOut || Done(s.server.runs, id)
  }

  // ---------------------------------------------------------------------------
  // Invariants
  // ---------------------------------------------------------------------------

  ghost predicate StorageInv(s: System) {
    && |s.stored| <= MAX_QUEUE && Distinct(s.entered) && InOrder(s.stored, s.entered)
    && (forall id :: id in s.entered ==> HasId(s.stored, id) || Settled(s, id))
  }

  /** Everything queued before entry `j` of a snapshot is settled or ahead of it in the snapshot. */
  ghost predicate AheadSettled(s: System, pending: seq<Action>, j: nat)
    requires j < |pending|
  {
    forall a :: Before(s.entered, a, pending[j].id) ==> Settled(s, a) || HasId(pending[..j], a)
  }

  ghost predicate FlushOk(s: System, f: nat)
    requires f < |s.flushes|
  {
    var flush := s.flushes[f];
    && flush.sent <= |flush.pending| && InOrder(flush.pending, s.entered)
    && (forall j :: 0 <= j < flush.sent ==> Done(s.server.runs, flush.pending[j].id))
    && (forall j :: 0 <= j < |flush.pending| ==> AheadSettled(s, flush.pending, j))
    && (flush.request.Some? ==>
          && flush.sent < |flush.pending| && flush.request.value < |s.server.requests|
          && s.server.requests[flush.request.value].key == flush.pending[flush.sent].id)
  }

  ghost predicate FlushesInv(s: System) {
    forall f :: 0 <= f < |s.flushes| ==> FlushOk(s, f)
  }

  /** A request that the queue delivered comes after everything queued before it. */
  ghost predicate RequestOrderInv(s: System) {
    forall r :: r in s.queued ==>
      && r < |s.server.requests| && s.server.requests[r].key in s.entered
      && AllSettledBefore(s, s.server.requests[r].key)
  }

  /** Everything that was queued before `id` is settled. */
  ghost predicate AllSettledBefore(s: System, id: string) {
    forall a :: Before(s.entered, a, id) ==> Settled(s, a)
  }

  ghost predicate RunInOrder(s: System, j: nat)
    requires j < |s.server.runs|
  {
    forall a :: Before(s.entered, a, s.server.runs[j].key) ==> a in s.pushedOut || DoneBefore(s.server.runs, a, j)
  }

  ghost predicate RunOrderInv(s: System) {
    forall j :: 0 <= j < |s.server.runs| && s.server.runs[j].request in s.queued ==>
      s.server.runs[j].key in s.entered && RunInOrder(s, j)
  }

  ghost predicate SystemInv(s: System) {
    Inv(s.server) && StorageInv(s) && FlushesInv(s) && RequestOrderInv(s) && RunOrderInv(s)
  }

  // ---------------------------------------------------------------------------
  // Server events
  // ---------------------------------------------------------------------------

  /** Runs are only added, and answers are never taken back. */
  predicate RunsGrow(runs: seq<HandlerRun>, runs': seq<HandlerRun>) {
    && |runs| <= |runs'|
    && forall i :: 0 <= i < |runs| ==>
         && runs'[i].key == runs[i].key && runs'[i].request == runs[i].request
             && runs'[i].startedAt == runs[i].startedAt
         && (runs[i].answer.Some? ==> runs'[i].answer == runs[i].answer)
  }

  lemma StepGrowsRuns(s: State, e: Event)
    requires Inv(s)
    ensures RunsGrow(s.runs, Step(s, e).runs)
    ensures |s.requests| <= |Step(s, e).requests|
    ensures forall r :: 0 <= r < |s.requests| ==> Step(s, e).requests[r].key == s.requests[r].key
  {
  }

  lemma GrowthKeepsDone(runs: seq<HandlerRun>, runs': seq<HandlerRun>)
    requires RunsGrow(runs, runs')
    ensures forall id {:trigger Done(runs, id)} :: Done(runs, id) ==> Done(runs', id)
    ensures forall id, j: nat {:trigger DoneBefore(runs, id, j)} ::
              j < |runs| && DoneBefore(runs, id, j) ==> DoneBefore(runs', id, j)
  {
    forall id | Done(runs, id) ensures Done(runs', id) {
      var i :| 0 <= i < |runs| && runs[i].key == id && runs[i].answer.Some? && Ok(runs[i].answer.value.result);
      assert runs'[i].key == id;
    }
    forall id, j: nat | j < |runs| && DoneBefore(runs, id, j) ensures DoneBefore(runs', id, j) {
      var i :| 0 <= i < j && runs[i].key == id && runs[i].answer.Some? && Ok(runs[i].answer.value.result)
               && runs[i].answer.value.expiresAt <= runs[j].startedAt + TTL_MS;
      assert runs'[i].key == id;
    }
  }

  /** Whatever the server does, what the queue side knows stays true. */
  lemma ServerKeepsClient(s: System, server': State, queued': set<nat>)
    requires SystemInv(s) && RunsGrow(s.server.runs, server'.runs)
    requires |s.server.requests| <= |server'.requests|
    requires forall r :: 0 <= r < |s.server.requests| ==> server'.requests[r].key == s.server.requests[r].key
    ensures var s' := s.(server := server', queued := queued'); StorageInv(s') && FlushesInv(s')
  {
    GrowthKeepsDone(s.server.runs, server'.runs);
    var s' := s.(server := server', queued := queued');
    forall f | 0 <= f < |s'.flushes| ensures FlushOk(s', f) {
      assert FlushOk(s, f);
      forall j | 0 <= j < |s.flushes[f].pending| ensures AheadSettled(s', s.flushes[f].pending, j) {
        assert AheadSettled(s, s.flushes[f].pending, j);
      }
    }
  }

  /** A run that the queue started starts when everything queued before it is settled already. */
  lemma StepKeepsRunOrder(s: System, e: Event)
    requires SystemInv(s)
    ensures var s' := s.(server := Step(s.server, e)); RequestOrderInv(s') && RunOrderInv(s')
  {
    var s' := s.(server := Step(s.server, e));
    StepGrowsRuns(s.server, e);
    GrowthKeepsDone(s.server.runs, s'.server.runs);
    OldRunsStayInOrder(s, s');
    var n := |s.server.runs|;
    if |s'.server.runs| > n {
      assert s'.server.runs[n].key == s.server.requests[e.request].key;
      forall a | a !in s.pushedOut && Done(s.server.runs, a) ensures DoneBefore(s'.server.runs, a, n) {
        DoneBeforeNewRun(s.server, e, a);
      }
    }
  }

  lemma DoneBeforeNewRun(s: State, e: Event, a: string)
    requires Inv(s) && |Step(s, e).runs| > |s.runs| && Done(s.runs, a)
    ensures DoneBefore(Step(s, e).runs, a, |s.runs|)
  {
    var i :| 0 <= i < |s.runs| && s.runs[i].key == a && s.runs[i].answer.Some? && Ok(s.runs[i].answer.value.result);
    assert RunOk(s, i);
    assert Step(s, e).runs[i] == s.runs[i];
  }

  lemma OldRunsStayInOrder(s: System, s': System)
    requires RunOrderInv(s) && RunsGrow(s.server.runs, s'.server.runs)
    requires s'.queued == s.queued && s'.entered == s.entered && s'.pushedOut == s.pushedOut
    ensures forall j :: 0 <= j < |s.server.runs| && s'.server.runs[j].request in s'.queued ==>
              s'.server.runs[j].key in s'.entered && RunInOrder(s', j)
  {
    GrowthKeepsDone(s.server.runs, s'.server.runs);
    forall j | 0 <= j < |s.server.runs| && s'.server.runs[j].request in s'.queued
      ensures s'.server.runs[j].key in s'.entered && RunInOrder(s', j)
    {
      assert RunInOrder(s, j);
    }
  }

  lemma ServerEventKeepsInv(s: System, e: Event)
    requires SystemInv(s)
    ensures SystemInv(SystemStep(s, Server(e)))
  {
    var s' := SystemStep(s, Server(e));
    StepKeepsInv(s.server, e);
    StepGrowsRuns(s.server, e);
    ServerKeepsClient(s, s'.server, s.queued);
    StepKeepsRunOrder(s, e);
  }

  // ---------------------------------------------------------------------------
  // Phone events
  // ---------------------------------------------------------------------------

  lemma BeforeExtends(entered: seq<string>, id: string)
    requires Distinct(entered) && id !in entered
    ensures Distinct(entered + [id])
    ensures forall a, b :: b in entered ==> (Before(entered + [id], a, b) <==> Before(entered, a, b))
    ensures forall a :: Before(entered + [id], a, id) <==> a in entered
  {
    var more := entered + [id];
    forall a, b | b in entered ensures Before(more, a, b) <==> Before(entered, a, b) {
      if Before(more, a, b) {
        var p, q :| 0 <= p < q < |more| && more[p] == a && more[q] == b;
        assert q < |entered|;
        assert entered[p] == a && entered[q] == b;
      }
      if Before(entered, a, b) {
        var p, q :| 0 <= p < q < |entered| && entered[p] == a && entered[q] == b;
        assert more[p] == a && more[q] == b;
      }
    }
    forall a ensures Before(more, a, id) <==> a in entered {
      if a in entered {
        var p :| 0 <= p < |entered| && entered[p] == a;
        assert more[p] == a && more[|entered|] == id;
      }
    }
  }

  lemma EnqueueKeepsStorage(s: System, id: string)
    requires StorageInv(s) && id !in s.entered
    ensures StorageInv(DoEnqueue(s, id))
  {
    var s' := DoEnqueue(s, id);
    var cut := if |s.stored| >= MAX_QUEUE then |s.stored| + 1 - MAX_QUEUE else 0;
    assert s'.stored == s.stored[cut..] + [Action(id, 0)];
    EnqueueKeepsOrder(s.stored[cut..], s.entered, id);
    forall x | x in s'.entered ensures HasId(s'.stored, x) || Settled(s', x) {
      HasIdConcat(s.stored[cut..], [Action(id, 0)], x);
      EnqueuedOrSettled(s, id, cut, x);
    }
  }

  lemma EnqueueKeepsOrder(actions: seq<Action>, entered: seq<string>, id: string)
    requires InOrder(actions, entered) && Distinct(entered) && id !in entered
    ensures InOrder(actions + [Action(id, 0)], entered + [id]) && Distinct(entered + [id])
  {
    BeforeExtends(entered, id);
  }

  lemma EnqueuedOrSettled(s: System, id: string, cut: nat, x: string)
    requires StorageInv(s) && (x == id || x in s.entered)
    requires cut == if |s.stored| >= MAX_QUEUE then |s.stored| + 1 - MAX_QUEUE else 0
    ensures HasId(s.stored[cut..], x) || HasId([Action(id, 0)], x) || Settled(DoEnqueue(s, id), x)
  {
    if x == id {
      assert [Action(id, 0)][0].id == x;
    } else if HasId(s.stored, x) {
      var i :| 0 <= i < |s.stored| && s.stored[i].id == x;
      if i >= cut {
        assert s.stored[cut..][i - cut].id == x;
      } else {
        assert x in DoEnqueue(s, id).pushedOut;
      }
    } else {
      assert x in s.pushedOut || Done(s.server.runs, x);
    }
  }

  lemma EnqueueKeepsFlush(s: System, id: string, f: nat)
    requires SystemInv(s) && id !in s.entered && f < |s.flushes|
    ensures FlushOk(DoEnqueue(s, id), f)
  {
    var s' := DoEnqueue(s, id);
    BeforeExtends(s.entered, id);
    assert FlushOk(s, f);
    forall j | 0 <= j < |s.flushes[f].pending| ensures AheadSettled(s', s.flushes[f].pending, j) {
      assert AheadSettled(s, s.flushes[f].pending, j);
    }
  }

  lemma EnqueueKeepsInv(s: System, id: string)
    requires SystemInv(s) && id !in s.entered
    ensures SystemInv(DoEnqueue(s, id))
  {
    var s' := DoEnqueue(s, id);
    EnqueueKeepsStorage(s, id);
    BeforeExtends(s.entered, id);
    forall f | 0 <= f < |s'.flushes| ensures FlushOk(s', f) {
      EnqueueKeepsFlush(s, id, f);
    }
  }

  lemma StartFlushKeepsInv(s: System)
    requires SystemInv(s)
    ensures SystemInv(SystemStep(s, StartFlush))
  {
    var s' := SystemStep(s, StartFlush);
    forall f | 0 <= f < |s'.flushes| ensures FlushOk(s', f) {
      if f < |s.flushes| {
        assert FlushOk(s, f);
        forall j | 0 <= j < |s.flushes[f].pending| ensures AheadSettled(s', s.flushes[f].pending, j) {
          assert AheadSettled(s, s.flushes[f].pending, j);
        }
      } else {
        forall j | 0 <= j < |s.stored| ensures AheadSettled(s', s.stored, j) {
          SnapshotIsAhead(s, j);
        }
      }
    }
  }

  /** The stored entries older than entry `j` stand before it. */
  lemma SnapshotIsAhead(s: System, j: nat)
    requires StorageInv(s) && j < |s.stored|
    ensures AheadSettled(s, s.stored, j)
  {
    forall a | Before(s.entered, a, s.stored[j].id) && !Settled(s, a) ensures HasId(s.stored[..j], a) {
      assert a in s.entered;
      var i :| 0 <= i < |s.stored| && s.stored[i].id == a;
      if j <= i {
        NotBothBefore(s.entered, a, s.stored[j].id);
        assert false;
      }
      assert s.stored[..j][i].id == a;
    }
  }

  lemma NotBothBefore(entered: seq<string>, a: string, b: string)
    requires Distinct(entered) && Before(entered, a, b)
    ensures !Before(entered, b, a) && a != b
  {
  }

  lemma DeliverKeepsInv(s: System, f: nat)
    requires SystemInv(s) && Sending(s, f)
    ensures SystemInv(DoDeliver(s, f))
  {
    var key := s.flushes[f].pending[s.flushes[f].sent].id;
    StepKeepsInv(s.server, Arrive(key));
    StepGrowsRuns(s.server, Arrive(key));
    ServerKeepsClient(s, DoDeliver(s, f).server, DoDeliver(s, f).queued);
    DeliverKeepsFlushes(s, f);
    DeliverKeepsRequestOrder(s, f);
    DeliverKeepsRunOrder(s, f);
  }

  lemma DeliverKeepsFlushes(s: System, f: nat)
    requires SystemInv(s) && Sending(s, f)
    ensures FlushesInv(DoDeliver(s, f))
  {
    var s' := DoDeliver(s, f);
    forall g | 0 <= g < |s'.flushes| ensures FlushOk(s', g) {
      assert FlushOk(s, g);
      forall j | 0 <= j < |s.flushes[g].pending| ensures AheadSettled(s', s.flushes[g].pending, j) {
        assert AheadSettled(s, s.flushes[g].pending, j);
      }
    }
  }

  lemma DeliverKeepsRequestOrder(s: System, f: nat)
    requires SystemInv(s) && Sending(s, f)
    ensures RequestOrderInv(DoDeliver(s, f))
  {
    var flush := s.flushes[f];
    assert FlushOk(s, f);
    assert AheadSettled(s, flush.pending, flush.sent);
    forall a | Before(s.entered, a, flush.pending[flush.sent].id) ensures Settled(s, a) {
      if HasId(flush.pending[..flush.sent], a) {
        var i :| 0 <= i < flush.sent && flush.pending[..flush.sent][i].id == a;
        assert flush.pending[i].id == a;
      }
    }
  }

  lemma DeliverKeepsRunOrder(s: System, f: nat)
    requires SystemInv(s) && Sending(s, f)
    ensures RunOrderInv(DoDeliver(s, f))
  {
    var s' := DoDeliver(s, f);
    forall j | 0 <= j < |s'.server.runs| && s'.server.runs[j].request in s'.queued
      ensures s'.server.runs[j].key in s'.entered && RunInOrder(s', j)
    {
      assert RunOk(s.server, j);
      assert RunInOrder(s, j);
    }
  }

  /** A successful reply comes from a run of that action. */
  lemma AnsweredIsDone(s: System, f: nat)
    requires SystemInv(s) && Answered(s, f)
    ensures Done(s.server.runs, s.flushes[f].pending[s.flushes[f].sent].id)
  {
    var r := s.flushes[f].request.value;
    assert FlushOk(s, f);
    assert GivenBy(s.server.runs, s.server.requests[r].key, s.server.requests[r].phase.reply);
  }

  /** Marking an attempt as failed changes no id and no order. */
  lemma SameIdsKeepStorage(s: System, stored': seq<Action>)
    requires StorageInv(s) && SameIds(stored', s.stored)
    ensures StorageInv(s.(stored := stored'))
  {
    var s' := s.(stored := stored');
    forall id | id in s.entered ensures HasId(stored', id) || Settled(s', id) {
      if HasId(s.stored, id) {
        var i :| 0 <= i < |s.stored| && s.stored[i].id == id;
        assert stored'[i].id == id;
      }
    }
  }

  ghost predicate AllAfter(entered: seq<string>, a: string, actions: seq<Action>) {
    forall i :: 0 <= i < |actions| ==> Before(entered, a, actions[i].id)
  }

  lemma {:induction false} WithoutStaysAfter(entered: seq<string>, a: string, actions: seq<Action>, sent: seq<Action>)
    requires AllAfter(entered, a, actions)
    ensures AllAfter(entered, a, Without(actions, sent))
  {
    if actions != [] {
      WithoutStaysAfter(entered, a, actions[1..], sent);
    }
  }

  lemma ConsKeepsOrder(head: Action, tail: seq<Action>, entered: seq<string>)
    requires head.id in entered && AllAfter(entered, head.id, tail) && InOrder(tail, entered)
    ensures InOrder([head] + tail, entered)
  {
    var all := [head] + tail;
    forall i, j | 0 <= i < j < |all| ensures Before(entered, all[i].id, all[j].id) {
      assert all[j] == tail[j - 1];
      if i > 0 {
        assert all[i] == tail[i - 1];
      }
    }
  }

  lemma {:induction false} WithoutKeepsOrder(actions: seq<Action>, sent: seq<Action>, entered: seq<string>)
    requires InOrder(actions, entered)
    ensures InOrder(Without(actions, sent), entered)
  {
    if actions != [] {
      var tail := actions[1..];
      WithoutKeepsOrder(tail, sent, entered);
      WithoutStaysAfter(entered, actions[0].id, tail, sent);
      if !HasId(sent, actions[0].id) {
        ConsKeepsOrder(actions[0], Without(tail, sent), entered);
      }
    }
  }

  /** Entries that were answered with success may go. */
  lemma RemovalKeepsStorage(s: System, sent: seq<Action>, writable: bool)
    requires StorageInv(s) && forall j :: 0 <= j < |sent| ==> Done(s.server.runs, sent[j].id)
    ensures StorageInv(s.(stored := Removed(s.stored, sent, writable)))
    ensures forall id :: HasId(s.stored, id) && !HasId(sent, id) ==> HasId(Removed(s.stored, sent, writable), id)
  {
    var kept := Without(s.stored, sent);
    WithoutKeepsOrder(s.stored, sent, s.entered);
    forall id ensures |kept| <= |s.stored| && (HasId(kept, id) <==> HasId(s.stored, id) && !HasId(sent, id)) {
      WithoutKeepsOthers(s.stored, sent, id);
    }
    var s' := s.(stored := Removed(s.stored, sent, writable));
    forall id | id in s.entered ensures HasId(s'.stored, id) || Settled(s', id) {
      if HasId(sent, id) {
        var j :| 0 <= j < |sent| && sent[j].id == id;
      }
    }
  }

  /** A flush moving on keeps what is known about it; other flushes are untouched. */
  lemma FlushMoves(s: System, f: nat, flush: Flush)
    requires SystemInv(s) && f < |s.flushes|
    requires flush.pending == s.flushes[f].pending && flush.sent <= |flush.pending|
    requires forall j :: 0 <= j < flush.sent ==> Done(s.server.runs, flush.pending[j].id)
    requires flush.request == None || (flush.request == s.flushes[f].request && flush.sent == s.flushes[f].sent)
    ensures SystemInv(s.(flushes := s.flushes[f := flush]))
  {
    var s' := s.(flushes := s.flushes[f := flush]);
    assert FlushOk(s, f);
    forall g | 0 <= g < |s'.flushes| ensures FlushOk(s', g) {
      assert FlushOk(s, g);
      forall j | 0 <= j < |s.flushes[g].pending| ensures AheadSettled(s', s.flushes[g].pending, j) {
        assert AheadSettled(s, s.flushes[g].pending, j);
      }
    }
  }

  /** Only storage changed. */
  lemma StorageMoves(s: System, stored': seq<Action>)
    requires SystemInv(s) && StorageInv(s.(stored := stored'))
    ensures SystemInv(s.(stored := stored'))
  {
    var s' := s.(stored := stored');
    forall g | 0 <= g < |s'.flushes| ensures FlushOk(s', g) {
      assert FlushOk(s, g);
      forall j | 0 <= j < |s.flushes[g].pending| ensures AheadSettled(s', s.flushes[g].pending, j) {
        assert AheadSettled(s, s.flushes[g].pending, j);
      }
    }
  }

  lemma SucceedKeepsInv(s: System, f: nat, writable: bool)
    requires SystemInv(s) && Answered(s, f)
    ensures SystemInv(DoSucceed(s, f, writable))
    ensures forall id :: HasId(s.stored, id) && !HasId(s.flushes[f].pending, id) ==>
              HasId(DoSucceed(s, f, writable).stored, id)
  {
    var flush := s.flushes[f];
    assert FlushOk(s, f);
    AnsweredIsDone(s, f);
    if flush.sent + 1 < |flush.pending| {
      FlushMoves(s, f, flush.(sent := flush.sent + 1, request := None));
    } else {
      FlushMoves(s, f, flush.(sent := flush.sent + 1, request := None, active := false));
      var moved := s.(flushes := s.flushes[f := flush.(sent := flush.sent + 1, request := None, active := false)]);
      RemovalKeepsStorage(moved, flush.pending, writable);
      StorageMoves(moved, Removed(s.stored, flush.pending, writable));
    }
  }

  lemma CountKeepsIds(stored: seq<Action>, id: string, writable: bool)
    requires |stored| <= MAX_QUEUE
    ensures SameIds(CountFailure(stored, id, writable), stored)
  {
    FailedKeepsIds(stored, id);
  }

  lemma FailKeepsInv(s: System, f: nat, countWritable: bool, writable: bool)
    requires SystemInv(s) && Sending(s, f)
    ensures SystemInv(DoFail(s, f, countWritable, writable))
    ensures forall id :: HasId(s.stored, id) && !HasId(s.flushes[f].pending[..s.flushes[f].sent], id) ==>
              HasId(DoFail(s, f, countWritable, writable).stored, id)
  {
    var flush := s.flushes[f];
    assert FlushOk(s, f);
    FlushMoves(s, f, flush.(active := false));
    var moved := s.(flushes := s.flushes[f := flush.(active := false)]);
    var counted := CountFailure(s.stored, flush.pending[flush.sent].id, countWritable);
    CountKeepsIds(s.stored, flush.pending[flush.sent].id, countWritable);
    SameIdsKeepStorage(moved, counted);
    StorageMoves(moved, counted);
    var failed := moved.(stored := counted);
    RemovalKeepsStorage(failed, flush.pending[..flush.sent], writable);
    StorageMoves(failed, Removed(counted, flush.pending[..flush.sent], writable));
    forall id | HasId(s.stored, id) ensures HasId(counted, id) {
      var i :| 0 <= i < |s.stored| && s.stored[i].id == id;
      assert counted[i].id == id;
    }
  }

  lemma SystemStepKeepsInv(s: System, e: SystemEvent)
    requires SystemInv(s)
    ensures SystemInv(SystemStep(s, e))
  {
    match e
    case Server(event) => ServerEventKeepsInv(s, event);
    case Enqueue(id, writable) => if writable && id !in s.entered { EnqueueKeepsInv(s, id); }
    case StartFlush => StartFlushKeepsInv(s);
    case Deliver(f) => if Sending(s, f) { DeliverKeepsInv(s, f); }
    case Succeed(f, writable) => if Answered(s, f) { SucceedKeepsInv(s, f, writable); }
    case Fail(f, countWritable, writable) => if Sending(s, f) { FailKeepsInv(s, f, countWritable, writable); }
  }

  lemma {:induction false} SystemRunKeepsInv(s: System, events: seq<SystemEvent>)
    requires SystemInv(s)
    ensures SystemInv(SystemRun(s, events))
    decreases |events|
  {
    if events != [] {
      SystemStepKeepsInv(s, events[0]);
      SystemRunKeepsInv(SystemStep(s, events[0]), events[1..]);
    }
  }

  // ---------------------------------------------------------------------------
  // What the driver can rely on
  // ---------------------------------------------------------------------------

  predicate OnlyRun(runs: seq<HandlerRun>, i: nat, id: string) {
    && i < |runs| && runs[i].key == id
    && forall j :: 0 <= j < |runs| && runs[j].key == id ==> j == i
  }

  /** An action leaves the queue only after its handler ran and answered with a 2xx status, unless
      the cap pushed it out; and while no run of it is spent, that run was the only one. */
  lemma LeavesOnlyWhenDone(events: seq<SystemEvent>, id: string)
    requires var s := SystemRun(Start, events); id in s.entered && !HasId(s.stored, id) && id !in s.pushedOut
    ensures var s := SystemRun(Start, events);
            && (exists i :: && 0 <= i < |s.server.runs| && s.server.runs[i].key == id && s.server.runs[i].answer.Some?
                            && 200 <= s.server.runs[i].answer.value.result.status < 300)
            && ((forall i :: 0 <= i < |s.server.runs| && s.server.runs[i].key == id ==>
                   !Spent(s.server.runs[i], s.server.now)) ==>
                 exists i: nat :: && OnlyRun(s.server.runs, i, id) && s.server.runs[i].answer.Some?
                                  && 200 <= s.server.runs[i].answer.value.result.status < 300)
  {
    SystemRunKeepsInv(Start, events);
    var s := SystemRun(Start, events);
    var runs := s.server.runs;
    var i :| 0 <= i < |runs| && runs[i].key == id && runs[i].answer.Some? && Ok(runs[i].answer.value.result);
    if forall k :: 0 <= k < |runs| && runs[k].key == id ==> !Spent(runs[k], s.server.now) {
      forall j | 0 <= j < |runs| && runs[j].key == id ensures j == i {
        assert RunOk(s.server, i) && RunOk(s.server, j);
      }
      assert OnlyRun(runs, i, id);
    }
    assert runs[i].key == id;
  }

  /** Effects happen in queue order: when the handler of a request that the queue delivered starts,
      every action queued before it has already run and answered with a 2xx status (no more than a
      day after the start, by the clock), or was pushed out by the cap. Live attempts with the same
      key do not disturb this. */
  lemma EffectsInQueueOrder(events: seq<SystemEvent>, earlier: string, j: nat)
    requires var s := SystemRun(Start, events);
             && j < |s.server.runs| && s.server.runs[j].request in s.queued
             && Before(s.entered, earlier, s.server.runs[j].key)
    ensures var s := SystemRun(Start, events);
            earlier in s.pushedOut
            || exists i :: && 0 <= i < j && s.server.runs[i].key == earlier && s.server.runs[i].answer.Some?
                           && 200 <= s.server.runs[i].answer.value.result.status < 300
                           && s.server.runs[i].answer.value.expiresAt <= s.server.runs[j].startedAt + 86_400_000
  {
    SystemRunKeepsInv(Start, events);
    var s := SystemRun(Start, events);
    assert RunInOrder(s, j);
    if earlier !in s.pushedOut {
      assert DoneBefore(s.server.runs, earlier, j);
      var i :| 0 <= i < j && s.server.runs[i].key == earlier && s.server.runs[i].answer.Some?
               && Ok(s.server.runs[i].answer.value.result)
               && s.server.runs[i].answer.value.expiresAt <= s.server.runs[j].startedAt + TTL_MS;
      assert s.server.runs[i].key == earlier;
    }
  }

  /** Event `e` makes the server start the handler of request `r`. */
  predicate Starts(s: System, e: Event, r: nat) {
    e == AfterRecheck(r) && Enabled(s.server, e) && s.server.requests[r].phase.second.None?
  }

  /** At the moment it starts, seen from a list of entries. */
  ghost predicate SettledBefore(s: System, entered: seq<string>, id: string) {
    forall a :: Before(entered, a, id) ==> Settled(s, a)
  }

  /** The same at the very moment of the start, without clocks. */
  lemma QueueStartsInOrder(events: seq<SystemEvent>, r: nat)
    requires var s := SystemRun(Start, events); Starts(s, AfterRecheck(r), r) && r in s.queued
    ensures var s := SystemRun(Start, events);
            s.server.requests[r].key in s.entered && SettledBefore(s, s.entered, s.server.requests[r].key)
  {
    SystemRunKeepsInv(Start, events);
  }

  /** What is entered stays entered, in place. */
  lemma {:induction false} EnteredGrows(s: System, events: seq<SystemEvent>)
    ensures s.entered <= SystemRun(s, events).entered
    decreases |events|
  {
    if events != [] {
      EnteredGrows(SystemStep(s, events[0]), events[1..]);
    }
  }

  lemma {:induction false} SystemRunConcat(s: System, first: seq<SystemEvent>, second: seq<SystemEvent>)
    ensures SystemRun(s, first + second) == SystemRun(SystemRun(s, first), second)
    decreases |first|
  {
    if first == [] {
      assert first + second == second;
    } else {
      assert (first + second)[1..] == first[1..] + second;
      SystemRunConcat(SystemStep(s, first[0]), first[1..], second);
    }
  }

  lemma SystemRunOne(s: System, events: seq<SystemEvent>, e: SystemEvent)
    ensures SystemRun(s, events + [e]) == SystemStep(SystemRun(s, events), e)
  {
    SystemRunConcat(s, events, [e]);
    assert [e][1..] == [];
  }

  lemma StoredSettled(s: System)
    requires StorageInv(s)
    ensures (forall i :: 0 <= i < |s.stored| ==> Settled(s, s.stored[i].id))
            <==> (forall a :: a in s.entered ==> Settled(s, a))
  {
    forall a | a in s.entered && HasId(s.stored, a) ensures exists i :: 0 <= i < |s.stored| && s.stored[i].id == a {}
  }

  /** A handler of an action that is in the queue already, started by whatever request: by the queue,
      or by a live attempt that the phone gave up on and queued before the server got to it. It
      starts in queue order if and only if nothing stored ahead of the action is unsettled. */
  lemma StartInOrderExactly(events: seq<SystemEvent>, r: nat)
    requires var s := SystemRun(Start, events);
             Starts(s, AfterRecheck(r), r) && s.server.requests[r].key in s.entered
    ensures var s := SystemRun(Start, events);
            var id := s.server.requests[r].key;
            SettledBefore(s, s.entered, id) <==>
              forall i :: 0 <= i < |s.stored| && Before(s.entered, s.stored[i].id, id) ==> Settled(s, s.stored[i].id)
  {
    ReachedIsSound(events);
    StoredSettledBefore(SystemRun(Start, events), SystemRun(Start, events).server.requests[r].key);
  }

  lemma StoredSettledBefore(s: System, id: string)
    requires StorageInv(s)
    ensures SettledBefore(s, s.entered, id) <==>
              forall i :: 0 <= i < |s.stored| && Before(s.entered, s.stored[i].id, id) ==> Settled(s, s.stored[i].id)
  {
    forall a | Before(s.entered, a, id) && !Settled(s, a) ensures HasId(s.stored, a) {
      assert a in s.entered;
    }
  }

  /** A handler of an action that is tried live and queued only afterwards, because the reply was
      lost or bad: it started in queue order if and only if nothing unsettled was stored at its
      start, and whatever was queued between the attempt and the action had been settled by then.
      The phone does not look at its queue before a live attempt. */
  lemma LiveRunInOrderExactly(events: seq<SystemEvent>, r: nat, more: seq<SystemEvent>)
    requires var s := SystemRun(Start, events);
             && Starts(s, AfterRecheck(r), r)
             && s.server.requests[r].key !in SystemRun(Start, events + [Server(AfterRecheck(r))] + more).entered
    ensures var s := SystemRun(Start, events);
            var id := s.server.requests[r].key;
            var before := SystemRun(Start, events + [Server(AfterRecheck(r))] + more);
            var after := SystemStep(before, Enqueue(id, true));
            SettledBefore(s, after.entered, id) <==>
              && (forall i :: 0 <= i < |s.stored| ==> Settled(s, s.stored[i].id))
              && (forall k :: |s.entered| <= k < |before.entered| ==> Settled(s, before.entered[k]))
  {
    var s := SystemRun(Start, events);
    var start := [Server(AfterRecheck(r))];
    ReachedIsSound(events);
    ReachedIsSound(events + start + more);
    ReachedGrows(events, start, more);
    LaterEntryInOrder(s, SystemRun(Start, events + start + more).entered, s.server.requests[r].key);
  }

  lemma ReachedIsSound(events: seq<SystemEvent>)
    ensures StorageInv(SystemRun(Start, events)) && FlushesInv(SystemRun(Start, events))
  {
    SystemRunKeepsInv(Start, events);
  }

  lemma ReachedGrows(events: seq<SystemEvent>, start: seq<SystemEvent>, more: seq<SystemEvent>)
    ensures SystemRun(Start, events).entered <= SystemRun(Start, events + start + more).entered
  {
    assert events + start + more == events + (start + more);
    SystemRunConcat(Start, events, start + more);
    EnteredGrows(SystemRun(Start, events), start + more);
  }

  lemma LaterEntryInOrder(s: System, entered: seq<string>, id: string)
    requires StorageInv(s) && s.entered <= entered && Distinct(entered) && id !in entered
    ensures SettledBefore(s, entered + [id], id) <==>
              && (forall i :: 0 <= i < |s.stored| ==> Settled(s, s.stored[i].id))
              && (forall k :: |s.entered| <= k < |entered| ==> Settled(s, entered[k]))
  {
    BeforeExtends(entered, id);
    StoredSettled(s);
    SplitEntered(s, entered);
  }

  lemma SplitEntered(s: System, entered: seq<string>)
    requires s.entered <= entered
    ensures (forall a :: a in entered ==> Settled(s, a)) <==>
              && (forall a :: a in s.entered ==> Settled(s, a))
              && (forall k :: |s.entered| <= k < |entered| ==> Settled(s, entered[k]))
  {
    forall a | a in entered ensures a in s.entered || exists k :: |s.entered| <= k < |entered| && entered[k] == a {
      var k :| 0 <= k < |entered| && entered[k] == a;
      assert k < |s.entered| ==> s.entered[k] == a;
    }
  }

  /** "a" waits in the queue, and a live attempt of "c" has the lock. */
  const AboutToRun := System(State(0, map[], Locks(map["c" := 0], [Ticket("c", None, false)]),
                                   [Request("c", 0, Granted)], []),
                             [Action("a", 0)], [], ["a"], {}, {})

  lemma OvertakesGrant()
    ensures var s := SystemStep(SystemStep(Start, Enqueue("a", true)), Server(Arrive("c")));
            SystemStep(SystemStep(s, Server(AfterLookup(0))), Server(Grant(0))) == AboutToRun
  {
    var s1 := SystemStep(Start, Enqueue("a", true));
    assert s1 == System(Initial, [Action("a", 0)], [], ["a"], {}, {});
    var s2 := SystemStep(s1, Server(Arrive("c")));
    assert s2.server.requests == [Request("c", 0, LookedUp(None))];
    var s3 := SystemStep(s2, Server(AfterLookup(0)));
    assert s3.server.lock == AboutToRun.server.lock && s3.server.requests == [Request("c", 0, Waiting)];
  }

  /** A live attempt that overtakes the queue: "a" waits in the queue, "c" is tried live and runs,
      its reply is lost and it is queued. The run of "c" then comes before that of "a". */
  lemma LiveAttemptOvertakes() returns (events: seq<SystemEvent>)
    ensures var s := SystemRun(Start, events);
            && |s.server.runs| == 1 && s.server.runs[0].key == "c" && Done(s.server.runs, "c")
            && Before(s.entered, "a", "c") && HasId(s.stored, "a") && !Settled(s, "a")
  {
    var e1, e2, e3, e4 := Enqueue("a", true), Server(Arrive("c")), Server(AfterLookup(0)), Server(Grant(0));
    var e5, e6 := Server(Recheck(0)), Server(AfterRecheck(0));
    var e7, e8 := Server(Answer(0, Reply(200, ""))), Enqueue("c", true);
    OvertakesGrant();
    OvertakesTheQueue();
    events := [e1, e2] + [e3, e4] + [e5, e6] + [e7, e8];
    SystemRunTwo(Start, [], e1, e2);
    assert [] + [e1, e2] == [e1, e2];
    SystemRunTwo(Start, [e1, e2], e3, e4);
    SystemRunTwo(Start, [e1, e2] + [e3, e4], e5, e6);
    SystemRunTwo(Start, [e1, e2] + [e3, e4] + [e5, e6], e7, e8);
  }

  lemma OvertakesTheQueue()
    ensures var s := SystemStep(SystemStep(AboutToRun, Server(Recheck(0))), Server(AfterRecheck(0)));
            var s' := SystemStep(SystemStep(s, Server(Answer(0, Reply(200, "")))), Enqueue("c", true));
            && |s'.server.runs| == 1 && s'.server.runs[0].key == "c" && Done(s'.server.runs, "c")
            && Before(s'.entered, "a", "c") && HasId(s'.stored, "a") && !Settled(s', "a")
  {
    var s := SystemStep(SystemStep(AboutToRun, Server(Recheck(0))), Server(AfterRecheck(0)));
    assert s.server.requests == [Request("c", 0, Running(0))];
    var s' := SystemStep(SystemStep(s, Server(Answer(0, Reply(200, "")))), Enqueue("c", true));
    assert s'.entered == ["a"] + ["c"] && s'.stored == [Action("a", 0)] + [Action("c", 0)];
    assert s'.entered[0] == "a" && s'.entered[1] == "c" && s'.stored[0].id == "a";
    assert s'.server.runs[0].key == "c";
  }

  /** The same when the phone times out first: "c" is tried live and queued before the server comes
      to its handler, which then starts with "a" still waiting ahead of it. */
  lemma LateStartOvertakes() returns (events: seq<SystemEvent>)
    ensures var s := SystemRun(Start, events);
            && Starts(s, AfterRecheck(0), 0) && 0 !in s.queued && s.server.requests[0].key == "c"
            && Before(s.entered, "a", "c") && HasId(s.stored, "a") && !Settled(s, "a")
  {
    var e1, e2, e3, e4 := Enqueue("a", true), Server(Arrive("c")), Server(AfterLookup(0)), Server(Grant(0));
    var e5, e6 := Server(Recheck(0)), Enqueue("c", true);
    OvertakesGrant();
    TimesOutFirst();
    events := [e1, e2] + [e3, e4] + [e5, e6];
    SystemRunTwo(Start, [], e1, e2);
    assert [] + [e1, e2] == [e1, e2];
    SystemRunTwo(Start, [e1, e2], e3, e4);
    SystemRunTwo(Start, [e1, e2] + [e3, e4], e5, e6);
  }

  lemma TimesOutFirst()
    ensures var s := SystemStep(SystemStep(AboutToRun, Server(Recheck(0))), Enqueue("c", true));
            && Starts(s, AfterRecheck(0), 0) && 0 !in s.queued && s.server.requests[0].key == "c"
            && Before(s.entered, "a", "c") && HasId(s.stored, "a") && !Settled(s, "a")
  {
    var s := SystemStep(SystemStep(AboutToRun, Server(Recheck(0))), Enqueue("c", true));
    assert s.server.requests == [Request("c", 0, Rechecked(None))];
    assert s.entered == ["a"] + ["c"] && s.stored == [Action("a", 0)] + [Action("c", 0)];
    assert s.entered[0] == "a" && s.entered[1] == "c" && s.stored[0].id == "a";
  }

  lemma SystemRunTwo(s: System, events: seq<SystemEvent>, e: SystemEvent, f: SystemEvent)
    ensures SystemRun(s, events + [e, f]) == SystemStep(SystemStep(SystemRun(s, events), e), f)
  {
    SystemRunOne(s, events, e);
    SystemRunOne(s, events + [e], f);
    assert events + [e] + [f] == events + [e, f];
  }

  lemma PrefixHasFewerIds(actions: seq<Action>, n: nat, id: string)
    requires n <= |actions|
    ensures HasId(actions[..n], id) ==> HasId(actions, id)
  {
    if HasId(actions[..n], id) {
      var i :| 0 <= i < n && actions[..n][i].id == id;
      assert actions[i].id == id;
    }
  }

  /** Whatever one flush does, an action enqueued after it took its snapshot stays stored. */
  lemma EnqueuedDuringFlushSurvives(events: seq<SystemEvent>, e: SystemEvent, id: string)
    requires e.Succeed? || e.Fail?
    requires var s := SystemRun(Start, events);
             && e.flush < |s.flushes| && HasId(s.stored, id) && !HasId(s.flushes[e.flush].pending, id)
    ensures HasId(SystemStep(SystemRun(Start, events), e).stored, id)
  {
    SystemRunKeepsInv(Start, events);
    var s := SystemRun(Start, events);
    if e.Succeed? && Answered(s, e.flush) {
      SucceedKeepsInv(s, e.flush, e.writable);
    } else if e.Fail? && Sending(s, e.flush) {
      FailKeepsInv(s, e.flush, e.countWritable, e.writable);
      PrefixHasFewerIds(s.flushes[e.flush].pending, s.flushes[e.flush].sent, id);
    }
  }

  // ---------------------------------------------------------------------------
  // What each event of the phone does
  // ---------------------------------------------------------------------------

  /** The status that the request of an active flush was answered with. */
  predicate AnsweredWith(s: System, f: nat, status: int) {
    && Sending(s, f) && s.flushes[f].request.Some? && s.flushes[f].request.value < |s.server.requests|
    && s.server.requests[s.flushes[f].request.value].phase.Replied?
    && s.server.requests[s.flushes[f].request.value].phase.reply.status == status
  }

  /** An answer that is not 2xx never moves a flush on: the entry stays. */
  lemma RefusedAnswerMovesNothing(s: System, f: nat, status: int, writable: bool)
    requires AnsweredWith(s, f, status) && (status < 200 || status >= 300)
    ensures SystemStep(s, Succeed(f, writable)) == s
  {
  }

  /** A 2xx answer moves it on by one entry. */
  lemma AcceptedAnswerMovesOn(s: System, f: nat, status: int, writable: bool)
    requires AnsweredWith(s, f, status) && 200 <= status < 300
    ensures var flush, s' := s.flushes[f], SystemStep(s, Succeed(f, writable));
            && s'.flushes[f].sent == flush.sent + 1 && s'.flushes[f].pending == flush.pending
            && (s'.flushes[f].active <==> flush.sent + 1 < |flush.pending|)
            && (flush.sent + 1 < |flush.pending| ==> s'.stored == s.stored && s'.flushes[f].request == None)
            && s'.server == s.server && s'.entered == s.entered && s'.queued == s.queued
  {
  }

  /** A conflict, say: the handler of "a" answers 409, and the flush cannot take "a" off the queue. */
  lemma ConflictKeepsAction(s: System, f: nat, writable: bool)
    requires AnsweredWith(s, f, 409) && HasId(s.stored, s.flushes[f].pending[s.flushes[f].sent].id)
    ensures HasId(SystemStep(s, Succeed(f, writable)).stored, s.flushes[f].pending[s.flushes[f].sent].id)
  {
    RefusedAnswerMovesNothing(s, f, 409, writable);
  }

  predicate Enqueues(s: System, e: SystemEvent) { e.Enqueue? && e.writable && e.id !in s.entered }

  /** An action goes to the end of the queue with no attempts, and the oldest goes when it is the
      51st; nothing else enters the queue or is pushed out. */
  lemma CapPushesOutOldest(events: seq<SystemEvent>, e: SystemEvent)
    ensures var s := SystemRun(Start, events);
            var s' := SystemStep(s, e);
            && |s.stored| <= 50
            && (if Enqueues(s, e) then
                  && s'.entered == s.entered + [e.id]
                  && s'.stored == (if |s.stored| == 50 then s.stored[1..] else s.stored) + [Action(e.id, 0)]
                  && s'.pushedOut == s.pushedOut + (if |s.stored| == 50 then {s.stored[0].id} else {})
                else
                  s'.entered == s.entered && s'.pushedOut == s.pushedOut)
  {
    var s := SystemRun(Start, events);
    ReachedIsSound(events);
    if Enqueues(s, e) && |s.stored| == 50 {
      assert (s.stored + [Action(e.id, 0)])[1..] == s.stored[1..] + [Action(e.id, 0)];
    }
  }

  /** A flush sends its entries with their ids as keys, and only its requests count as queued. */
  lemma FlushSendsItsEntry(s: System, e: SystemEvent)
    ensures var s' := SystemStep(s, e);
            if e.Deliver? && Sending(s, e.flush) then
              var flush := s.flushes[e.flush];
              && |s'.server.requests| == |s.server.requests| + 1
              && s'.server.requests[|s.server.requests|].key == flush.pending[flush.sent].id
              && s'.flushes[e.flush].request == Some(|s.server.requests|)
              && s'.queued == s.queued + {|s.server.requests|} && s'.stored == s.stored
            else
              s'.queued == s.queued
  {
  }

  /** A flush starts from what is stored, in order. */
  lemma FlushStartsFromStored(s: System)
    ensures var s' := SystemStep(s, StartFlush);
            && |s'.flushes| == |s.flushes| + 1 && s'.stored == s.stored
            && s'.flushes[|s.flushes|].pending == s.stored && s'.flushes[|s.flushes|].sent == 0
            && (s'.flushes[|s.flushes|].active <==> s.stored != [])
  {
  }

  lemma {:induction false} WithoutMembers(actions: seq<Action>, sent: seq<Action>, a: Action)
    ensures a in Without(actions, sent) <==> a in actions && !HasId(sent, a.id)
  {
    if actions != [] {
      WithoutMembers(actions[1..], sent, a);
    }
  }

  lemma OrderedMeansDistinct(actions: seq<Action>, entered: seq<string>, i: nat, j: nat)
    requires InOrder(actions, entered) && Distinct(entered) && i < j < |actions|
    ensures actions[i].id != actions[j].id
  {
    assert Before(entered, actions[i].id, actions[j].id);
    NotBothBefore(entered, actions[i].id, actions[j].id);
  }

  lemma NotAmongEarlier(actions: seq<Action>, entered: seq<string>, n: nat)
    requires InOrder(actions, entered) && Distinct(entered) && n < |actions|
    ensures !HasId(actions[..n], actions[n].id)
  {
    forall i | 0 <= i < n ensures actions[..n][i].id != actions[n].id {
      OrderedMeansDistinct(actions, entered, i, n);
    }
  }

  lemma CountedEntry(stored: seq<Action>, entered: seq<string>, a: Action)
    requires InOrder(stored, entered) && Distinct(entered) && a in stored && |stored| <= MAX_QUEUE
    ensures Action(a.id, a.attempts + 1) in CountFailure(stored, a.id, true)
  {
    var n :| 0 <= n < |stored| && stored[n] == a;
    forall i | 0 <= i < n ensures stored[i].id != a.id {
      OrderedMeansDistinct(stored, entered, i, n);
    }
    FailedAt(stored, a.id, n);
    assert HasId(stored, a.id);
    assert Failed(stored, a.id)[n] == Action(a.id, a.attempts + 1);
  }

  /** An attempt that fails, for whatever reason, leaves its entry stored with one attempt more. */
  lemma FailureCountsOneAttempt(events: seq<SystemEvent>, f: nat, a: Action, writable: bool)
    requires var s := SystemRun(Start, events);
             Sending(s, f) && a in s.stored && a.id == s.flushes[f].pending[s.flushes[f].sent].id
    ensures Action(a.id, a.attempts + 1) in SystemStep(SystemRun(Start, events), Fail(f, true, writable)).stored
  {
    var s := SystemRun(Start, events);
    var flush := s.flushes[f];
    ReachedIsSound(events);
    assert FlushOk(s, f);
    CountedEntry(s.stored, s.entered, a);
    CountKeepsIds(s.stored, a.id, true);
    var counted := CountFailure(s.stored, a.id, true);
    var sent := flush.pending[..flush.sent];
    NotAmongEarlier(flush.pending, s.entered, flush.sent);
    WithoutMembers(counted, sent, Action(a.id, a.attempts + 1));
    WithoutKeepsOthers(counted, sent, a.id);
  }

  // ---------------------------------------------------------------------------
  // Progress: what an answered flush achieves
  // ---------------------------------------------------------------------------

  /** A flush whose last entry is answered with success, and whose last write arrives, leaves none
      of its snapshot stored. */
  lemma AnsweredFlushEmptiesSnapshot(s: System, f: nat)
    requires Answered(s, f) && s.flushes[f].sent + 1 == |s.flushes[f].pending| && |s.stored| <= MAX_QUEUE
    ensures var s' := SystemStep(s, Succeed(f, true));
            forall i :: 0 <= i < |s.flushes[f].pending| ==> !HasId(s'.stored, s.flushes[f].pending[i].id)
  {
    var pending := s.flushes[f].pending;
    forall i | 0 <= i < |pending| ensures !HasId(SystemStep(s, Succeed(f, true)).stored, pending[i].id) {
      WithoutKeepsOthers(s.stored, pending, pending[i].id);
      assert HasId(pending, pending[i].id);
    }
  }

  /** An action that was queued once and is no longer stored. */
  predicate Left(s: System, id: string) { id in s.entered && !HasId(s.stored, id) }

  lemma NewestHasFewer(actions: seq<Action>, id: string)
    ensures HasId(Newest(actions), id) ==> HasId(actions, id)
  {
    if HasId(Newest(actions), id) {
      var cut := |actions| - |Newest(actions)|;
      var i :| 0 <= i < |Newest(actions)| && Newest(actions)[i].id == id;
      assert actions[cut + i].id == id;
    }
  }

  lemma RemovedHasFewer(stored: seq<Action>, sent: seq<Action>, writable: bool, id: string)
    ensures HasId(Removed(stored, sent, writable), id) ==> HasId(stored, id)
  {
    NewestHasFewer(Without(stored, sent), id);
    WithoutKeepsOthers(stored, sent, id);
  }

  lemma CountHasFewer(stored: seq<Action>, failed: string, writable: bool, id: string)
    ensures HasId(CountFailure(stored, failed, writable), id) ==> HasId(stored, id)
  {
    NewestHasFewer(Failed(stored, failed), id);
    FailedKeepsIds(stored, failed);
    if HasId(Failed(stored, failed), id) {
      var i :| 0 <= i < |Failed(stored, failed)| && Failed(stored, failed)[i].id == id;
      assert stored[i].id == id;
    }
  }

  lemma StepKeepsLeft(s: System, e: SystemEvent, id: string)
    requires Left(s, id)
    ensures Left(SystemStep(s, e), id)
  {
    match e
    case Enqueue(other, writable) =>
      NewestHasFewer(s.stored + [Action(other, 0)], id);
      HasIdConcat(s.stored, [Action(other, 0)], id);
    case Succeed(f, writable) =>
      if Answered(s, f) {
        RemovedHasFewer(s.stored, s.flushes[f].pending, writable, id);
      }
    case Fail(f, countWritable, writable) =>
      if Sending(s, f) {
        var flush := s.flushes[f];
        var failed := flush.pending[flush.sent].id;
        RemovedHasFewer(CountFailure(s.stored, failed, countWritable), flush.pending[..flush.sent], writable, id);
        CountHasFewer(s.stored, failed, countWritable, id);
      }
    case _ =>
  }

  /** What has left the queue never comes back, whatever overlapping flushes write. */
  lemma {:induction false} LeftForGood(s: System, events: seq<SystemEvent>, id: string)
    requires Left(s, id)
    ensures Left(SystemRun(s, events), id)
    decreases |events|
  {
    if events != [] {
      StepKeepsLeft(s, events[0], id);
      LeftForGood(SystemStep(s, events[0]), events[1..], id);
    }
  }

  /** So a flush that got a success for every entry, and whose last write arrived, has emptied the
      queue of its snapshot for good. */
  lemma AnsweredFlushIsFinal(events: seq<SystemEvent>, f: nat, more: seq<SystemEvent>)
    requires var s := SystemRun(Start, events); Answered(s, f) && s.flushes[f].sent + 1 == |s.flushes[f].pending|
    ensures var s := SystemRun(Start, events);
            var later := SystemRun(SystemStep(s, Succeed(f, true)), more);
            forall i :: 0 <= i < |s.flushes[f].pending| ==> !HasId(later.stored, s.flushes[f].pending[i].id)
  {
    var s := SystemRun(Start, events);
    ReachedIsSound(events);
    AnsweredFlushEmptiesSnapshot(s, f);
    assert FlushOk(s, f);
    forall i | 0 <= i < |s.flushes[f].pending|
      ensures !HasId(SystemRun(SystemStep(s, Succeed(f, true)), more).stored, s.flushes[f].pending[i].id)
    {
      LeftForGood(SystemStep(s, Succeed(f, true)), more, s.flushes[f].pending[i].id);
    }
  }

  // ---------------------------------------------------------------------------
  // A remembered failure blocks the queue
  // ---------------------------------------------------------------------------

  /** The answer remembered for the key is `entry`, no handler of the key is at work or about to
      start, and every request from number `n` on has that answer. */
  ghost predicate Refused(s: State, key: Key, entry: Entry, n: nat) {
    && key in s.memory && s.memory[key] == entry && n <= |s.requests|
    && forall r :: 0 <= r < |s.requests| && s.requests[r].key == key ==>
         && !s.requests[r].phase.Running? && s.requests[r].phase != Rechecked(None)
         && (r >= n ==>
               s.requests[r].phase == LookedUp(Some(entry.result)) || s.requests[r].phase == Replied(entry.result))
  }

  lemma StepKeepsRefused(s: State, e: Event, key: Key, entry: Entry, n: nat)
    requires Refused(s, key, entry, n) && Step(s, e).now < entry.expiresAt
    ensures Refused(Step(s, e), key, entry, n)
  {
    assert s.now <= Step(s, e).now;
  }

  lemma {:induction false} SystemTimeAdvances(s: System, events: seq<SystemEvent>)
    ensures s.server.now <= SystemRun(s, events).server.now
    decreases |events|
  {
    if events != [] {
      SystemTimeAdvances(SystemStep(s, events[0]), events[1..]);
    }
  }

  /** Flushes from number `m` on only have requests from number `n` on. */
  ghost predicate LaterFlushes(s: System, m: nat, n: nat) {
    forall f :: m <= f < |s.flushes| && s.flushes[f].request.Some? ==> s.flushes[f].request.value >= n
  }

  lemma {:induction false} RunKeepsRefused(s: System, events: seq<SystemEvent>, key: Key, entry: Entry, m: nat, n: nat)
    requires Refused(s.server, key, entry, n) && LaterFlushes(s, m, n) && m <= |s.flushes|
    requires SystemRun(s, events).server.now < entry.expiresAt
    ensures var s' := SystemRun(s, events); Refused(s'.server, key, entry, n) && LaterFlushes(s', m, n)
    decreases |events|
  {
    if events != [] {
      var next := SystemStep(s, events[0]);
      SystemTimeAdvances(next, events[1..]);
      if events[0].Server? {
        StepKeepsRefused(s.server, events[0].event, key, entry, n);
      } else if events[0].Deliver? && Sending(s, events[0].flush) {
        var flush := s.flushes[events[0].flush];
        StepKeepsRefused(s.server, Arrive(flush.pending[flush.sent].id), key, entry, n);
      }
      RunKeepsRefused(next, events[1..], key, entry, m, n);
    }
  }

  /** While a failure is remembered for a queued action, no flush started meanwhile gets past it. */
  lemma RememberedFailureBlocks(events: seq<SystemEvent>, more: seq<SystemEvent>, id: string, f: nat, writable: bool)
    requires var s := SystemRun(Start, events);
             && id in s.server.memory
             && (s.server.memory[id].result.status < 200 || s.server.memory[id].result.status >= 300)
             && Refused(s.server, id, s.server.memory[id], |s.server.requests|)
             && SystemRun(Start, events + more).server.now < s.server.memory[id].expiresAt
             && |s.flushes| <= f
    requires var s' := SystemRun(Start, events + more);
             Sending(s', f) && s'.flushes[f].pending[s'.flushes[f].sent].id == id
    ensures var s' := SystemRun(Start, events + more); SystemStep(s', Succeed(f, writable)) == s'
  {
    var s := SystemRun(Start, events);
    SystemRunConcat(Start, events, more);
    ReachedIsSound(events + more);
    RunKeepsRefused(s, more, id, s.server.memory[id], |s.flushes|, |s.server.requests|);
    RefusedIsNotAnswered(SystemRun(Start, events + more), id, s.server.memory[id], |s.server.requests|, f);
  }

  lemma RefusedIsNotAnswered(s: System, id: string, entry: Entry, n: nat, f: nat)
    requires FlushesInv(s) && Refused(s.server, id, entry, n) && !Ok(entry.result)
    requires Sending(s, f) && s.flushes[f].pending[s.flushes[f].sent].id == id
    requires s.flushes[f].request.Some? ==> s.flushes[f].request.value >= n
    ensures !Answered(s, f)
  {
    assert FlushOk(s, f);
  }
}
