/**
 The order life cycle (stateMachine.ts, `createOrder`, `assign` and `transition` in store.ts,
 and the handlers around them in app.ts) as a machine on values: every handler is one step
 that either takes effect or, when persistence fails, leaves everything as it was.

 Drivers are named by their position in the list of drivers, orders by theirs at the time.
 */
module Orders {
  import opened Prelude
  import opened OrderTypes
  import opened Geofence

  // ---------------------------------------------------------------------------
  // The store
  // ---------------------------------------------------------------------------

  function NewOrder(weightKg: real, at: int): Order {
    Order(weightKg, Pending, None, None, None, [OrderEvent(Created, at)], at)
  }

  function Logged(o: Order, kind: EventType, at: int): Order {
    o.(events := o.events + [OrderEvent(kind, at)], updatedAt := at)
  }

  function SetDriver(drivers: seq<Driver>, d: nat, status: DriverStatus): seq<Driver> {
    if d < |drivers| then drivers[d := drivers[d].(status := status)] else drivers
  }

  function LoggedAll(o: Order, kinds: seq<EventType>, at: int): Order {
    if kinds == [] then o else o.(events := LogAll(o.events, kinds, at), updatedAt := at)
  }

  function DoAssign(w: World, i: nat, d: nat, at: int): World
    requires i < |w.orders|
  {
    var o := w.orders[i].(driver := Some(d), status := Assigned);
    World(w.orders[i := Logged(o, Changed(Assigned), at)], SetDriver(w.drivers, d, Busy))
  }

  function DoTransition(w: World, i: nat, to: Status, at: int): World
    requires i < |w.orders|
  {
    var o := w.orders[i].(status := to, deliveredAt := if to.Delivered? then Some(at) else w.orders[i].deliveredAt);
    World(w.orders[i := Logged(o, Changed(to), at)],
          if Terminal(to) && o.driver.Some? then SetDriver(w.drivers, o.driver.value, Available) else w.drivers)
  }

  function DoReject(w: World, i: nat, d: nat, at: int): World
    requires i < |w.orders|
  {
    var o := w.orders[i].(driver := None, status := Pending);
    World(w.orders[i := Logged(o, Rejected, at)], SetDriver(w.drivers, d, Available))
  }

  function DoProof(w: World, i: nat, d: nat, at: int): World
    requires i < |w.orders|
  {
    DoTransition(w.(orders := w.orders[i := w.orders[i].(proof := Some(Proof(d, at)))]), i, Delivered, at)
  }

  // ---------------------------------------------------------------------------
  // The handlers
  // ---------------------------------------------------------------------------

  /** Who asks for a status change or reports an exception: the office, or a driver account (with a
      driver, if it has one). */
  datatype Caller = Office | DriverAccount(driver: Option<nat>)

  datatype Request =
    | Create(weightKg: real)
    | Assign(order: nat, driver: nat)
    | SetStatus(order: nat, to: Status, caller: Caller)
    | Accept(order: nat, driver: nat)
    | Reject(order: nat, driver: nat)
    | Cancel(order: nat)
    | Prove(order: nat, driver: nat, verified: bool)
    | Note(order: nat, name: string)
    | Report(order: nat, caller: Caller)
    | Locate(order: nat, atPickup: bool, atDropoff: bool)

  datatype Answer = Done | BadRequest | Forbidden | NotFound | Conflict | NoEligibleDriver | NotPersisted

  predicate Eligible(w: World, i: nat, d: nat)
    requires i < |w.orders|
  {
    d < |w.drivers| && w.drivers[d].status.Available? && w.drivers[d].capacityKg >= w.orders[i].weightKg
  }

  predicate Mine(w: World, i: nat, d: nat)
    requires i < |w.orders|
  {
    d < |w.drivers| && w.orders[i].driver == Some(d)
  }

  /** What the handler answers before anything is persisted. */
  function Check(w: World, r: Request): Answer {
    match r
    case Create(_) => Done
    case Assign(i, d) =>
      if i >= |w.orders| then NotFound
      else if !Eligible(w, i, d) then NoEligibleDriver
      else if !w.orders[i].status.Pending? then Conflict
      else Done
    case SetStatus(i, to, caller) =>
      if to.Delivered? then Conflict
      else if i >= |w.orders| then NotFound
      else if caller.DriverAccount? && w.orders[i].driver != caller.driver then Forbidden
      else if !CanTransition(w.orders[i].status, to) then Conflict
      else Done
    case Accept(i, d) =>
      if i >= |w.orders| || !Mine(w, i, d) then NotFound
      else if !w.orders[i].status.Assigned? then Conflict
      else Done
    case Reject(i, d) =>
      if i >= |w.orders| || !Mine(w, i, d) then NotFound
      else if !w.orders[i].status.Assigned? then Conflict
      else Done
    case Cancel(i) =>
      if i >= |w.orders| then NotFound
      else if !(w.orders[i].status.Pending? || w.orders[i].status.Assigned?) then Conflict
      else Done
    case Prove(i, d, verified) =>
      if i >= |w.orders| || !Mine(w, i, d) then NotFound
      else if !w.orders[i].status.InTransit? then Conflict
      else if !verified then BadRequest
      else Done
    case Note(i, _) => if i >= |w.orders| then NotFound else Done
    case Report(i, caller) =>
      if i >= |w.orders| then NotFound
      else if caller.DriverAccount? && w.orders[i].driver != caller.driver then Forbidden
      else Done
    case Locate(i, _, _) => if i >= |w.orders| then NotFound else Done
  }

  /** The effect of an accepted request. */
  function Effect(w: World, r: Request, at: int): World
    requires Check(w, r).Done?
  {
    match r
    case Create(weightKg) => w.(orders := [NewOrder(weightKg, at)] + w.orders)
    case Assign(i, d) => DoAssign(w, i, d, at)
    case SetStatus(i, to, _) => DoTransition(w, i, to, at)
    case Accept(i, _) =>
      if HasEvent(w.orders[i].events, Accepted) then w.(orders := w.orders[i := w.orders[i].(updatedAt := at)])
      else w.(orders := w.orders[i := Logged(w.orders[i], Accepted, at)])
    case Reject(i, d) => DoReject(w, i, d, at)
    case Cancel(i) => DoTransition(w, i, Cancelled, at)
    case Prove(i, d, _) => DoProof(w, i, d, at)
    case Note(i, name) => w.(orders := w.orders[i := Logged(w.orders[i], Other(name), at)])
    case Report(i, _) => w.(orders := w.orders[i := Logged(w.orders[i], Exception, at)])
    case Locate(i, atPickup, atDropoff) =>
      var o := w.orders[i];
      w.(orders := w.orders[i := LoggedAll(o, GeofenceTransitions(o.status, o.events, atPickup, atDropoff), at)])
  }

  /** Three handlers change an order without taking a snapshot first, and so undo nothing when
      persistence fails: acceptance, exception report and position. */
  predicate NeverUndone(r: Request) { r.Accept? || r.Report? || r.Locate? }

  predicate TakesEffect(w: World, r: Request, persisted: bool) {
    Check(w, r).Done? && (persisted || NeverUndone(r))
  }

  function AnswerOf(w: World, r: Request, persisted: bool): Answer {
    if Check(w, r).Done? && !persisted then NotPersisted else Check(w, r)
  }

  datatype Step = Step(request: Request, at: int, persisted: bool)

  function Apply(w: World, s: Step): World {
    if TakesEffect(w, s.request, s.persisted) then Effect(w, s.request, s.at) else w
  }

  function Run(w: World, steps: seq<Step>): World
    decreases |steps|
  {
    if steps == [] then w else Run(Apply(w, steps[0]), steps[1..])
  }

  // ---------------------------------------------------------------------------
  // The event log
  // ---------------------------------------------------------------------------

  /** The state of the life cycle that a log describes. */
  datatype LogState = Unborn | In(status: Status) | Illegal

  function Next(s: LogState, kind: EventType): LogState {
    match kind
    case Created => if s.Unborn? then In(Pending) else Illegal
    case Changed(to) => if s.In? && CanTransition(s.status, to) then In(to) else Illegal
    case Rejected => if s == In(Assigned) then In(Pending) else Illegal
    case _ => s
  }

  function Replay(events: seq<OrderEvent>): LogState {
    if events == [] then Unborn else Next(Replay(events[..|events| - 1]), events[|events| - 1].kind)
  }

  lemma ReplayOneMore(events: seq<OrderEvent>, e: OrderEvent)
    ensures Replay(events + [e]) == Next(Replay(events), e.kind)
  {
    assert (events + [e])[..|events|] == events;
  }

  predicate StatusEvent(kind: EventType) { kind.Created? || kind.Changed? || kind.Rejected? }

  function CountOf(events: seq<OrderEvent>, kind: EventType): nat {
    if events == [] then 0
    else CountOf(events[..|events| - 1], kind) + if events[|events| - 1].kind == kind then 1 else 0
  }

  /** In a log that replays, an order is assigned at most once more often than rejected, and
      exactly as often while it is pending. */
  lemma {:induction false} AssignedMinusRejected(events: seq<OrderEvent>)
    requires !Replay(events).Illegal?
    ensures var balance := CountOf(events, Changed(Assigned)) - CountOf(events, Rejected);
            && 0 <= balance <= 1
            && (Replay(events).Unborn? || Replay(events) == In(Pending) ==> balance == 0)
            && (Replay(events).In? && !Replay(events).status.Pending? && !Replay(events).status.Cancelled? ==>
                  balance == 1)
  {
    if events != [] {
      AssignedMinusRejected(events[..|events| - 1]);
    }
  }

  /** In a log that replays, nothing about the status follows a terminal status. */
  lemma {:induction false} TerminalIsLast(events: seq<OrderEvent>, i: nat, j: nat)
    requires !Replay(events).Illegal? && i < j < |events|
    requires events[i].kind.Changed? && Terminal(events[i].kind.to)
    ensures !StatusEvent(events[j].kind) && Replay(events) == In(events[i].kind.to)
    decreases |events|
  {
    var front := events[..|events| - 1];
    if j == |events| - 1 {
      if i == j - 1 {
        assert front[|front| - 1] == events[i];
      } else {
        TerminalIsLast(front, i, j - 1);
      }
    } else {
      TerminalIsLast(front, i, j);
    }
  }

  // ---------------------------------------------------------------------------
  // Invariants
  // ---------------------------------------------------------------------------

  predicate OrderOk(w: World, o: Order) {
    && Replay(o.events) == In(o.status)
    && (o.status.Pending? ==> o.driver.None?)
    && (o.status.Delivered? <==> o.deliveredAt.Some?)
    && (o.status.Delivered? <==> o.proof.Some?)
    && (o.proof.Some? ==> o.driver == Some(o.proof.value.driver))
    && (forall place :: !VisitOf(o.events, place).Odd?)
    && (o.driver.Some? ==> o.driver.value < |w.drivers| && o.weightKg <= w.drivers[o.driver.value].capacityKg)
  }

  predicate Serves(w: World, i: nat, d: nat) {
    i < |w.orders| && w.orders[i].driver == Some(d) && Active(w.orders[i].status)
  }

  /** One active order per driver, and busy means having it. */
  ghost predicate DriverOk(w: World, d: nat)
    requires d < |w.drivers|
  {
    && (w.drivers[d].status.Busy? <==> exists i: nat :: Serves(w, i, d))
    && (forall i: nat, j: nat :: Serves(w, i, d) && Serves(w, j, d) ==> i == j)
  }

  ghost predicate Inv(w: World) {
    && (forall i :: 0 <= i < |w.orders| ==> OrderOk(w, w.orders[i]))
    && (forall d :: 0 <= d < |w.drivers| ==> DriverOk(w, d))
  }

  // ---------------------------------------------------------------------------
  // Preservation
  // ---------------------------------------------------------------------------

  /** A change of one order that leaves every driver's duties alone. */
  lemma SameDuties(w: World, i: nat, o: Order)
    requires Inv(w) && i < |w.orders| && OrderOk(w, o)
    requires forall d: nat :: (o.driver == Some(d) && Active(o.status)) <==> Serves(w, i, d)
    ensures Inv(w.(orders := w.orders[i := o]))
  {
    var w' := w.(orders := w.orders[i := o]);
    forall k: nat, d ensures Serves(w', k, d) <==> Serves(w, k, d) {}
    forall d | 0 <= d < |w.drivers| ensures DriverOk(w', d) {
      assert DriverOk(w, d);
      if j: nat :| Serves(w, j, d) {
        assert Serves(w', j, d);
      }
    }
  }

  /** Order `i` is taken up by driver `d`, who was free. */
  lemma TakesUp(w: World, i: nat, d: nat, o: Order)
    requires Inv(w) && i < |w.orders| && d < |w.drivers|
    requires !w.drivers[d].status.Busy? && w.orders[i].driver.None?
    requires o.driver == Some(d) && Active(o.status) && OrderOk(w, o)
    ensures Inv(World(w.orders[i := o], SetDriver(w.drivers, d, Busy)))
  {
    var w' := World(w.orders[i := o], SetDriver(w.drivers, d, Busy));
    assert DriverOk(w, d);
    forall k: nat, e ensures Serves(w', k, e) <==> (if k == i then e == d else Serves(w, k, e)) {}
    assert Serves(w', i, d);
    forall e | 0 <= e < |w'.drivers| ensures DriverOk(w', e) {
      assert DriverOk(w, e);
      if j: nat :| Serves(w, j, e) {
        assert Serves(w', j, e);
      }
    }
    forall k | 0 <= k < |w'.orders| ensures OrderOk(w', w'.orders[k]) {
      assert k != i ==> OrderOk(w, w.orders[k]);
    }
  }

  /** Order `i` leaves driver `d`, who becomes free. */
  lemma LetsGo(w: World, i: nat, d: nat, o: Order)
    requires Inv(w) && Serves(w, i, d) && d < |w.drivers|
    requires !Active(o.status) && OrderOk(w, o)
    ensures Inv(World(w.orders[i := o], SetDriver(w.drivers, d, Available)))
  {
    var w' := World(w.orders[i := o], SetDriver(w.drivers, d, Available));
    assert DriverOk(w, d);
    forall k: nat, e ensures Serves(w', k, e) <==> k != i && Serves(w, k, e) {}
    forall e | 0 <= e < |w'.drivers| ensures DriverOk(w', e) {
      assert DriverOk(w, e);
      if j: nat :| Serves(w, j, e) {
        assert e != d ==> Serves(w', j, e);
      }
    }
    forall k | 0 <= k < |w'.orders| ensures OrderOk(w', w'.orders[k]) {
      assert k != i ==> OrderOk(w, w.orders[k]);
    }
  }

  lemma CreateKeepsInv(w: World, weightKg: real, at: int)
    requires Inv(w)
    ensures Inv(w.(orders := [NewOrder(weightKg, at)] + w.orders))
  {
    var w' := w.(orders := [NewOrder(weightKg, at)] + w.orders);
    ReplayOneMore([], OrderEvent(Created, at));
    VisitOneMore([], OrderEvent(Created, at));
    assert [] + [OrderEvent(Created, at)] == [OrderEvent(Created, at)];
    forall k: nat, d ensures Serves(w', k, d) <==> k > 0 && Serves(w, k - 1, d) {}
    forall d | 0 <= d < |w.drivers| ensures DriverOk(w', d) {
      assert DriverOk(w, d);
      if j: nat :| Serves(w, j, d) {
        assert Serves(w', j + 1, d);
      }
    }
    forall k | 0 <= k < |w'.orders| ensures OrderOk(w', w'.orders[k]) {
      assert k > 0 ==> OrderOk(w, w.orders[k - 1]);
    }
  }

  lemma LogKeepsInv(w: World, i: nat, kind: EventType, at: int)
    requires Inv(w) && i < |w.orders| && !StatusEvent(kind) && !kind.Arrived? && !kind.Departed?
    ensures Inv(w.(orders := w.orders[i := Logged(w.orders[i], kind, at)]))
  {
    assert OrderOk(w, w.orders[i]);
    ReplayOneMore(w.orders[i].events, OrderEvent(kind, at));
    VisitOneMore(w.orders[i].events, OrderEvent(kind, at));
    SameDuties(w, i, Logged(w.orders[i], kind, at));
  }

  lemma {:induction false} GeofenceEventsKeepStatus(events: seq<OrderEvent>, kinds: seq<EventType>, at: int)
    requires forall k :: 0 <= k < |kinds| ==> kinds[k].Arrived? || kinds[k].Departed?
    ensures Replay(LogAll(events, kinds, at)) == Replay(events)
    decreases |kinds|
  {
    if kinds != [] {
      ReplayOneMore(events, OrderEvent(kinds[0], at));
      GeofenceEventsKeepStatus(events + [OrderEvent(kinds[0], at)], kinds[1..], at);
    }
  }

  lemma LocateKeepsInv(w: World, i: nat, atPickup: bool, atDropoff: bool, at: int)
    requires Inv(w) && i < |w.orders|
    ensures Inv(Effect(w, Locate(i, atPickup, atDropoff), at))
  {
    var o := w.orders[i];
    var kinds := GeofenceTransitions(o.status, o.events, atPickup, atDropoff);
    assert OrderOk(w, o);
    TransitionsAreMoves(o.status, o.events, atPickup, atDropoff);
    GeofenceEventsKeepStatus(o.events, kinds, at);
    TransitionsKeepVisits(o.status, o.events, atPickup, atDropoff, at);
    SameDuties(w, i, LoggedAll(o, kinds, at));
  }

  lemma AssignKeepsInv(w: World, i: nat, d: nat, at: int)
    requires Inv(w) && Check(w, Assign(i, d)).Done?
    ensures Inv(DoAssign(w, i, d, at))
  {
    assert OrderOk(w, w.orders[i]);
    ReplayOneMore(w.orders[i].events, OrderEvent(Changed(Assigned), at));
    VisitOneMore(w.orders[i].events, OrderEvent(Changed(Assigned), at));
    TakesUp(w, i, d, DoAssign(w, i, d, at).orders[i]);
  }

  /** A permitted transition other than to `Delivered`, or one to `Delivered` with the proof in place. */
  lemma TransitionKeepsInv(w: World, i: nat, to: Status, at: int, proof: Option<Proof>)
    requires Inv(w) && i < |w.orders| && CanTransition(w.orders[i].status, to)
    requires to.Delivered? <==> proof.Some?
    requires proof.Some? ==> w.orders[i].driver == Some(proof.value.driver)
    ensures Inv(DoTransition(w.(orders := w.orders[i := w.orders[i].(proof := proof)]), i, to, at))
  {
    var o := w.orders[i];
    assert OrderOk(w, o);
    ReplayOneMore(o.events, OrderEvent(Changed(to), at));
    VisitOneMore(o.events, OrderEvent(Changed(to), at));
    var w' := DoTransition(w.(orders := w.orders[i := o.(proof := proof)]), i, to, at);
    var o' := w'.orders[i];
    if Terminal(to) && o.driver.Some? {
      LetsGo(w, i, o.driver.value, o');
      assert w'.orders == w.orders[i := o'];
    } else {
      SameDuties(w, i, o');
      assert w'.orders == w.orders[i := o'];
    }
  }

  lemma RejectKeepsInv(w: World, i: nat, d: nat, at: int)
    requires Inv(w) && Check(w, Reject(i, d)).Done?
    ensures Inv(DoReject(w, i, d, at))
  {
    assert OrderOk(w, w.orders[i]);
    ReplayOneMore(w.orders[i].events, OrderEvent(Rejected, at));
    VisitOneMore(w.orders[i].events, OrderEvent(Rejected, at));
    LetsGo(w, i, d, DoReject(w, i, d, at).orders[i]);
  }

  lemma TouchKeepsInv(w: World, i: nat, at: int)
    requires Inv(w) && i < |w.orders|
    ensures Inv(w.(orders := w.orders[i := w.orders[i].(updatedAt := at)]))
  {
    assert OrderOk(w, w.orders[i]);
    SameDuties(w, i, w.orders[i].(updatedAt := at));
  }

  lemma EffectKeepsInv(w: World, r: Request, at: int)
    requires Inv(w) && Check(w, r).Done?
    ensures Inv(Effect(w, r, at))
  {
    match r
    case Create(weightKg) => CreateKeepsInv(w, weightKg, at);
    case Assign(i, d) => AssignKeepsInv(w, i, d, at);
    case SetStatus(i, to, _) => PlainTransitionKeepsInv(w, i, to, at);
    case Accept(i, _) =>
      LogKeepsInv(w, i, Accepted, at);
      TouchKeepsInv(w, i, at);
    case Reject(i, d) => RejectKeepsInv(w, i, d, at);
    case Cancel(i) => PlainTransitionKeepsInv(w, i, Cancelled, at);
    case Prove(i, d, _) => TransitionKeepsInv(w, i, Delivered, at, Some(Proof(d, at)));
    case Note(i, name) => LogKeepsInv(w, i, Other(name), at);
    case Report(i, _) => LogKeepsInv(w, i, Exception, at);
    case Locate(i, atPickup, atDropoff) => LocateKeepsInv(w, i, atPickup, atDropoff, at);
  }

  lemma PlainTransitionKeepsInv(w: World, i: nat, to: Status, at: int)
    requires Inv(w) && i < |w.orders| && CanTransition(w.orders[i].status, to) && !to.Delivered?
    ensures Inv(DoTransition(w, i, to, at))
  {
    assert OrderOk(w, w.orders[i]);
    TransitionKeepsInv(w, i, to, at, None);
    assert w.orders[i := w.orders[i].(proof := None)] == w.orders;
  }

  lemma {:induction false} RunKeepsInv(w: World, steps: seq<Step>)
    requires Inv(w)
    ensures Inv(Run(w, steps))
    decreases |steps|
  {
    if steps != [] {
      StepKeepsInv(w, steps[0]);
      RunKeepsInv(Apply(w, steps[0]), steps[1..]);
    }
  }

  lemma StepKeepsInv(w: World, s: Step)
    requires Inv(w)
    ensures Inv(Apply(w, s))
  {
    if TakesEffect(w, s.request, s.persisted) {
      EffectKeepsInv(w, s.request, s.at);
    }
  }

  // ---------------------------------------------------------------------------
  // What every run keeps
  // ---------------------------------------------------------------------------

  /** No orders yet, and no driver at work. */
  predicate Fresh(w: World) {
    w.orders == [] && forall d :: 0 <= d < |w.drivers| ==> !w.drivers[d].status.Busy?
  }

  lemma FreshRunInv(w: World, steps: seq<Step>)
    requires Fresh(w)
    ensures Inv(Run(w, steps))
  {
    RunKeepsInv(w, steps);
  }

  /** Over every run: a driver is busy exactly when one active order points to it, never two do,
      and the order fits the driver's capacity. */
  lemma OneActiveOrderPerDriver(w: World, steps: seq<Step>, d: nat)
    requires Fresh(w) && d < |Run(w, steps).drivers|
    ensures var w' := Run(w, steps);
            && (w'.drivers[d].status.Busy? <==> exists i: nat :: Serves(w', i, d))
            && (forall i: nat, j: nat :: Serves(w', i, d) && Serves(w', j, d) ==> i == j)
            && (forall i: nat :: Serves(w', i, d) ==> w'.orders[i].weightKg <= w'.drivers[d].capacityKg)
  {
    FreshRunInv(w, steps);
    var w' := Run(w, steps);
    assert DriverOk(w', d);
    forall i: nat | Serves(w', i, d) ensures w'.orders[i].weightKg <= w'.drivers[d].capacityKg {
      assert OrderOk(w', w'.orders[i]);
    }
  }

  /** Over every run: the log of an order tells its status, assigned at most once more often than
      rejected, and never goes on after a terminal status. */
  lemma LogDeterminesStatus(w: World, steps: seq<Step>, i: nat)
    requires Fresh(w) && i < |Run(w, steps).orders|
    ensures var o := Run(w, steps).orders[i];
            && Replay(o.events) == In(o.status)
            && 0 <= CountOf(o.events, Changed(Assigned)) - CountOf(o.events, Rejected) <= 1
            && forall j, k :: 0 <= j < k < |o.events| && o.events[j].kind.Changed? && Terminal(o.events[j].kind.to) ==>
                 !StatusEvent(o.events[k].kind) && o.status == o.events[j].kind.to
  {
    FreshRunInv(w, steps);
    var o := Run(w, steps).orders[i];
    assert OrderOk(Run(w, steps), o);
    AssignedMinusRejected(o.events);
    forall j, k | 0 <= j < k < |o.events| && o.events[j].kind.Changed? && Terminal(o.events[j].kind.to)
      ensures !StatusEvent(o.events[k].kind) && o.status == o.events[j].kind.to
    {
      TerminalIsLast(o.events, j, k);
    }
  }

  /** Over every run: delivered, a delivery time and a proof come together, the proof is by the
      assigned driver, and a pending order has no driver. */
  lemma DeliveryNeedsProof(w: World, steps: seq<Step>, i: nat)
    requires Fresh(w) && i < |Run(w, steps).orders|
    ensures var o := Run(w, steps).orders[i];
            && (o.status.Delivered? <==> o.proof.Some?) && (o.status.Delivered? <==> o.deliveredAt.Some?)
            && (o.proof.Some? ==> o.driver == Some(o.proof.value.driver))
            && (o.status.Pending? ==> o.driver.None?)
  {
    FreshRunInv(w, steps);
    assert OrderOk(Run(w, steps), Run(w, steps).orders[i]);
  }

  // ---------------------------------------------------------------------------
  // What becomes of a driver
  // ---------------------------------------------------------------------------

  /** Compared with the drivers `start`: those at work were available, the others are as they were. */
  predicate KeepsStatus(start: seq<Driver>, w: World) {
    && |w.drivers| == |start|
    && forall d :: 0 <= d < |start| ==>
         && w.drivers[d].capacityKg == start[d].capacityKg
         && if w.drivers[d].status.Busy? then start[d].status.Available? else w.drivers[d].status == start[d].status
  }

  lemma BusyWhileServing(w: World, i: nat)
    requires Inv(w) && i < |w.orders| && w.orders[i].driver.Some? && Active(w.orders[i].status)
    ensures w.orders[i].driver.value < |w.drivers| && w.drivers[w.orders[i].driver.value].status.Busy?
  {
    assert OrderOk(w, w.orders[i]);
    assert DriverOk(w, w.orders[i].driver.value);
    assert Serves(w, i, w.orders[i].driver.value);
  }

  lemma StepKeepsStatus(start: seq<Driver>, w: World, s: Step)
    requires Inv(w) && KeepsStatus(start, w)
    ensures KeepsStatus(start, Apply(w, s))
  {
    if TakesEffect(w, s.request, s.persisted) && !s.request.Create? {
      var i := s.request.order;
      assert OrderOk(w, w.orders[i]);
      if w.orders[i].driver.Some? && Active(w.orders[i].status) {
        BusyWhileServing(w, i);
      }
    }
  }

  lemma {:induction false} RunKeepsStatus(start: seq<Driver>, w: World, steps: seq<Step>)
    requires Inv(w) && KeepsStatus(start, w)
    ensures KeepsStatus(start, Run(w, steps))
    decreases |steps|
  {
    if steps != [] {
      StepKeepsInv(w, steps[0]);
      StepKeepsStatus(start, w, steps[0]);
      RunKeepsStatus(start, Apply(w, steps[0]), steps[1..]);
    }
  }

  /** Over every run: a driver with an active order is busy and was available at the start, and
      every other driver has the status it had at the start. */
  lemma DriverStatusExactly(w: World, steps: seq<Step>, d: nat)
    requires Fresh(w) && d < |w.drivers|
    ensures var w' := Run(w, steps);
            && |w'.drivers| == |w.drivers| && w'.drivers[d].capacityKg == w.drivers[d].capacityKg
            && (if exists i: nat :: Serves(w', i, d)
                then w'.drivers[d].status == Busy && w.drivers[d].status == Available
                else w'.drivers[d].status == w.drivers[d].status)
  {
    RunKeepsStatus(w.drivers, w, steps);
    FreshRunInv(w, steps);
    assert DriverOk(Run(w, steps), d);
  }

  /** So where all drivers are available at the start, a driver can be given an order, if its
      capacity allows, exactly while it has none: after a delivery, a failure, a cancellation or a
      rejection it can at once. */
  lemma FreedDriverIsEligible(w: World, steps: seq<Step>, i: nat, d: nat)
    requires Fresh(w) && d < |w.drivers| && w.drivers[d].status == Available && i < |Run(w, steps).orders|
    ensures var w' := Run(w, steps);
            && d < |w'.drivers| && (w'.drivers[d].status == Available <==> !exists k: nat :: Serves(w', k, d))
            && (Check(w', Assign(i, d)) == NoEligibleDriver <==>
                  (exists k: nat :: Serves(w', k, d)) || w.drivers[d].capacityKg < w'.orders[i].weightKg)
  {
    DriverStatusExactly(w, steps, d);
  }

  // ---------------------------------------------------------------------------
  // What a request may touch
  // ---------------------------------------------------------------------------

  /** Over one step: every order keeps its weight and its log, to which events of this moment are
      added; only the order that is asked about changes, and a handler that refuses changes nothing. */
  lemma LogsOnlyGrow(w: World, s: Step, i: nat)
    requires i < |w.orders|
    ensures var w' := Apply(w, s);
            var j := PlaceAfter(w, s, i);
            && j < |w'.orders| && w'.orders[j].weightKg == w.orders[i].weightKg
            && w.orders[i].events <= w'.orders[j].events
            && (forall k :: |w.orders[i].events| <= k < |w'.orders[j].events| ==> w'.orders[j].events[k].at == s.at)
            && (s.request.Create? || s.request.order != i ==> w'.orders[j] == w.orders[i])
            && (!Check(w, s.request).Done? ==> w' == w)
  {
    if TakesEffect(w, s.request, s.persisted) && s.request.Locate? && s.request.order == i {
      var o := w.orders[i];
      LogAllAppends(o.events, GeofenceTransitions(o.status, o.events, s.request.atPickup, s.request.atDropoff), s.at);
    }
  }

  lemma {:induction false} LogAllAppends(events: seq<OrderEvent>, kinds: seq<EventType>, at: int)
    ensures events <= LogAll(events, kinds, at)
    ensures forall k :: |events| <= k < |LogAll(events, kinds, at)| ==> LogAll(events, kinds, at)[k].at == at
    decreases |kinds|
  {
    if kinds != [] {
      LogAllAppends(events + [OrderEvent(kinds[0], at)], kinds[1..], at);
    }
  }

  /** The ways of an order, in plain terms. */
  lemma WaysOfAnOrder(from: Status, to: Status)
    ensures CanTransition(from, to) <==>
              || (from == Pending && (to == Assigned || to == Cancelled))
              || (from == Assigned && (to == PickedUp || to == Cancelled || to == Failed))
              || (from == PickedUp && (to == InTransit || to == Failed))
              || (from == InTransit && (to == Delivered || to == Failed))
  {
  }

  /** Which requests a handler accepts, in plain terms. */
  lemma AcceptedExactly(w: World, r: Request)
    ensures Check(w, r) == Done <==>
              match r
              case Create(_) => true
              case Assign(i, d) =>
                && i < |w.orders| && w.orders[i].status == Pending
                && d < |w.drivers| && w.drivers[d].status == Available
                && w.orders[i].weightKg <= w.drivers[d].capacityKg
              case SetStatus(i, to, caller) =>
                && i < |w.orders| && to != Delivered && CanTransition(w.orders[i].status, to)
                && (caller == Office || caller == DriverAccount(w.orders[i].driver))
              case Accept(i, d) =>
                i < |w.orders| && d < |w.drivers| && w.orders[i].driver == Some(d) && w.orders[i].status == Assigned
              case Reject(i, d) =>
                i < |w.orders| && d < |w.drivers| && w.orders[i].driver == Some(d) && w.orders[i].status == Assigned
              case Cancel(i) =>
                i < |w.orders| && (w.orders[i].status == Pending || w.orders[i].status == Assigned)
              case Prove(i, d, verified) =>
                && i < |w.orders| && d < |w.drivers| && w.orders[i].driver == Some(d)
                && w.orders[i].status == InTransit && verified
              case Note(i, _) => i < |w.orders|
              case Report(i, caller) =>
                i < |w.orders| && (caller == Office || caller == DriverAccount(w.orders[i].driver))
              case Locate(i, _, _) => i < |w.orders|
  {
  }

  /** A delivered order was proved delivered at the time it says, by its driver. */
  predicate DeliveredAtProof(o: Order) {
    o.status.Delivered? ==>
      && o.deliveredAt.Some? && o.proof.Some? && o.proof.value.at == o.deliveredAt.value
      && OrderEvent(Changed(Delivered), o.deliveredAt.value) in o.events
  }

  predicate AllDeliveredAtProof(w: World) {
    forall i :: 0 <= i < |w.orders| ==> DeliveredAtProof(w.orders[i])
  }

  lemma StepKeepsDeliveredAtProof(w: World, s: Step)
    requires Inv(w) && AllDeliveredAtProof(w)
    ensures AllDeliveredAtProof(Apply(w, s))
  {
    var w' := Apply(w, s);
    forall j | 0 <= j < |w'.orders| ensures DeliveredAtProof(w'.orders[j]) {
      if !(s.request.Create? && TakesEffect(w, s.request, s.persisted)) {
        assert OrderOk(w, w.orders[j]);
        OrderKeepsDeliveredAtProof(w, s, j);
      } else if j > 0 {
        assert w'.orders[j] == w.orders[j - 1];
      }
    }
  }

  lemma OrderKeepsDeliveredAtProof(w: World, s: Step, j: nat)
    requires j < |w.orders| && DeliveredAtProof(w.orders[j])
    requires !(s.request.Create? && TakesEffect(w, s.request, s.persisted))
    ensures j < |Apply(w, s).orders| && DeliveredAtProof(Apply(w, s).orders[j])
  {
    LogsOnlyGrow(w, s, j);
    var o, o' := w.orders[j], Apply(w, s).orders[j];
    if o'.status.Delivered? && !o.status.Delivered? {
      assert o'.events[|o'.events| - 1] == OrderEvent(Changed(Delivered), s.at);
    } else if o.status.Delivered? {
      assert OrderEvent(Changed(Delivered), o.deliveredAt.value) in o'.events;
    }
  }

  /** Over every run: a delivered order's delivery time is the time of its proof and of its
      delivery event. */
  lemma {:induction false} DeliveryTimeIsProofTime(w: World, steps: seq<Step>)
    requires Inv(w) && AllDeliveredAtProof(w)
    ensures AllDeliveredAtProof(Run(w, steps))
    decreases |steps|
  {
    if steps != [] {
      StepKeepsInv(w, steps[0]);
      StepKeepsDeliveredAtProof(w, steps[0]);
      DeliveryTimeIsProofTime(Apply(w, steps[0]), steps[1..]);
    }
  }

  /** A pending order and a free driver with the capacity: the whole way to delivery, after which
      the driver is free again. */
  lemma WayToDelivery(w: World, i: nat, d: nat)
    requires i < |w.orders| && w.orders[i].status == Pending && d < |w.drivers|
    requires w.drivers[d].status == Available && w.orders[i].weightKg <= w.drivers[d].capacityKg
    ensures var w1 := Apply(w, Step(Assign(i, d), 1, true));
            var w2 := Apply(w1, Step(SetStatus(i, PickedUp, DriverAccount(Some(d))), 2, true));
            var w3 := Apply(w2, Step(SetStatus(i, InTransit, DriverAccount(Some(d))), 3, true));
            var w4 := Apply(w3, Step(Prove(i, d, true), 4, true));
            && i < |w4.orders| && w4.orders[i].status == Delivered && w4.orders[i].driver == Some(d)
            && w4.orders[i].deliveredAt == Some(4) && w4.orders[i].proof == Some(Proof(d, 4))
            && w4.orders[i].updatedAt == 4 && w4.drivers == w.drivers
  {
    var w1 := Apply(w, Step(Assign(i, d), 1, true));
    assert w1.orders[i].status == Assigned && w1.orders[i].driver == Some(d) && w1.drivers[d].status == Busy;
    var w2 := Apply(w1, Step(SetStatus(i, PickedUp, DriverAccount(Some(d))), 2, true));
    assert w2.orders[i].status == PickedUp && w2.drivers == w1.drivers;
    var w3 := Apply(w2, Step(SetStatus(i, InTransit, DriverAccount(Some(d))), 3, true));
    assert w3.orders[i].status == InTransit && w3.drivers == w1.drivers;
  }

  // ---------------------------------------------------------------------------
  // Writes that fail
  // ---------------------------------------------------------------------------

  /** A failed write leaves a trace: the event that was logged, or at least the time of the update. */
  predicate LeavesTrace(w: World, r: Request, at: int) {
    match r
    case Accept(i, _) => i < |w.orders| && (!HasEvent(w.orders[i].events, Accepted) || w.orders[i].updatedAt != at)
    case Report(_, _) => true
    case Locate(i, atPickup, atDropoff) =>
      i < |w.orders| && GeofenceTransitions(w.orders[i].status, w.orders[i].events, atPickup, atDropoff) != []
    case _ => false
  }

  lemma {:induction false} LogAllGrows(events: seq<OrderEvent>, kinds: seq<EventType>, at: int)
    ensures |LogAll(events, kinds, at)| == |events| + |kinds|
    decreases |kinds|
  {
    if kinds != [] {
      LogAllGrows(events + [OrderEvent(kinds[0], at)], kinds[1..], at);
    }
  }

  /** A failed write leaves every order and driver as it was if and only if the request is none of
      these: an exception report, an acceptance (unless it is repeated within the same millisecond),
      and a position that causes a geofence event. */
  lemma FailedWriteUndoneExactly(w: World, r: Request, at: int)
    requires Check(w, r).Done?
    ensures Apply(w, Step(r, at, false)) == w <==> !LeavesTrace(w, r, at)
  {
    if NeverUndone(r) {
      var i := r.order;
      var o := w.orders[i];
      match r {
        case Accept(_, _) =>
          LoggedDiffers(w, i, Logged(o, Accepted, at));
          LoggedDiffers(w, i, o.(updatedAt := at));
          assert Logged(o, Accepted, at).events != o.events;
        case Report(_, _) =>
          LoggedDiffers(w, i, Logged(o, Exception, at));
          assert Logged(o, Exception, at).events != o.events;
        case Locate(_, atPickup, atDropoff) =>
          var kinds := GeofenceTransitions(o.status, o.events, atPickup, atDropoff);
          LogAllGrows(o.events, kinds, at);
          LoggedDiffers(w, i, LoggedAll(o, kinds, at));
      }
    }
  }

  lemma LoggedDiffers(w: World, i: nat, o: Order)
    requires i < |w.orders|
    ensures w.(orders := w.orders[i := o]) == w <==> o == w.orders[i]
  {
    assert w.orders[i := o][i] == o;
    assert o == w.orders[i] ==> w.orders[i := o] == w.orders;
  }

  lemma {:induction false} RunConcat(w: World, first: seq<Step>, s: Step)
    ensures Run(w, first + [s]) == Apply(Run(w, first), s)
    decreases |first|
  {
    if first == [] {
      assert first + [s] == [s] && [s][1..] == [];
    } else {
      assert (first + [s])[1..] == first[1..] + [s];
      RunConcat(Apply(w, first[0]), first[1..], s);
    }
  }

  /** A run of all three kinds: the writes of an acceptance, an exception report and an arrival fail,
      and all three events stay. */
  lemma FailedWritesStay(w: World) returns (steps: seq<Step>)
    requires Fresh(w) && |w.drivers| > 0 && w.drivers[0].status.Available? && w.drivers[0].capacityKg >= 1.0
    ensures var o := Run(w, steps).orders;
            && |o| == 1 && HasEvent(o[0].events, Accepted) && HasEvent(o[0].events, Exception)
            && HasEvent(o[0].events, Arrived(Pickup))
    ensures forall k :: 0 <= k < |steps| && NeverUndone(steps[k].request) ==> !steps[k].persisted
  {
    var given := [OrderEvent(Created, 0)] + [OrderEvent(Changed(Assigned), 1)];
    var taken := given + [OrderEvent(Accepted, 2)];
    var reported := taken + [OrderEvent(Exception, 3)];
    var accept, report := Step(Accept(0, 0), 2, false), Step(Report(0, Office), 3, false);
    var locate := Step(Locate(0, true, false), 4, false);
    steps := CreatedAndAssigned(w);
    RunConcat(w, steps, accept);
    steps := steps + [accept];
    assert Run(w, steps).orders == [Order(1.0, Status.Assigned, Some(0), None, None, taken, 2)];
    RunConcat(w, steps, report);
    steps := steps + [report];
    assert Run(w, steps).orders == [Order(1.0, Status.Assigned, Some(0), None, None, reported, 3)];
    RunConcat(w, steps, locate);
    ArrivalIsLogged(Run(w, steps), reported, 4);
    steps := steps + [locate];
  }

  lemma CreatedAndAssigned(w: World) returns (steps: seq<Step>)
    requires Fresh(w) && |w.drivers| > 0 && w.drivers[0].status.Available? && w.drivers[0].capacityKg >= 1.0
    ensures var given := [OrderEvent(Created, 0)] + [OrderEvent(Changed(Assigned), 1)];
            Run(w, steps).orders == [Order(1.0, Status.Assigned, Some(0), None, None, given, 1)]
    ensures |Run(w, steps).drivers| == |w.drivers| && forall k :: 0 <= k < |steps| ==> !NeverUndone(steps[k].request)
  {
    var create, assign := Step(Create(1.0), 0, true), Step(Assign(0, 0), 1, true);
    RunConcat(w, [], create);
    assert [] + [create] == [create];
    assert Run(w, [create]).orders == [NewOrder(1.0, 0)];
    RunConcat(w, [create], assign);
    steps := [create] + [assign];
  }

  lemma ArrivalIsLogged(w: World, events: seq<OrderEvent>, at: int)
    requires |w.orders| == 1 && w.orders[0].status.Assigned? && w.orders[0].events == events
    requires events == [OrderEvent(Created, 0)] + [OrderEvent(Changed(Assigned), 1)] + [OrderEvent(Accepted, 2)]
                       + [OrderEvent(Exception, 3)]
    ensures var o := Apply(w, Step(Locate(0, true, false), at, false)).orders;
            && |o| == 1 && HasEvent(o[0].events, Accepted) && HasEvent(o[0].events, Exception)
            && HasEvent(o[0].events, Arrived(Pickup))
  {
    assert !HasEvent(events, Arrived(Pickup));
    var kinds := GeofenceTransitions(Assigned, events, true, false);
    assert Move(Assigned, events, Pickup, true) == [Arrived(Pickup)] && Move(Assigned, events, Dropoff, false) == [];
    assert kinds == [Arrived(Pickup)] && kinds[1..] == [];
    var after := LogAll(events, kinds, at);
    assert after == LogAll(events + [OrderEvent(kinds[0], at)], [], at);
    assert after == events + [OrderEvent(Arrived(Pickup), at)];
    assert after[2].kind == Accepted && after[3].kind == Exception && after[4].kind == Arrived(Pickup);
  }

  // ---------------------------------------------------------------------------
  // Orders that were marked assigned without a driver
  // ---------------------------------------------------------------------------

  /** New orders go to the front of the list, so older ones move back by one. */
  function PlaceAfter(w: World, s: Step, i: nat): nat {
    if s.request.Create? && TakesEffect(w, s.request, s.persisted) then i + 1 else i
  }

  function PlaceAfterRun(w: World, steps: seq<Step>, i: nat): nat
    decreases |steps|
  {
    if steps == [] then i else PlaceAfterRun(Apply(w, steps[0]), steps[1..], PlaceAfter(w, steps[0], i))
  }

  /** On its way or delivered with nobody to have brought it. */
  predicate Driverless(w: World, i: nat) {
    i < |w.orders| && w.orders[i].driver.None? && (Active(w.orders[i].status) || w.orders[i].status.Delivered?)
  }

  /** A status change to assigned that takes effect: the one way past the assign handler. */
  predicate MarksAssigned(w: World, s: Step, i: nat) {
    && s.request.SetStatus? && s.request.order == i && s.request.to.Assigned?
    && TakesEffect(w, s.request, s.persisted)
  }

  /** An order becomes driverless in a step exactly when the step marks it as assigned. */
  lemma BecomesDriverlessExactly(w: World, s: Step, i: nat)
    requires Inv(w) && i < |w.orders| && !Driverless(w, i)
    ensures Driverless(Apply(w, s), PlaceAfter(w, s, i)) <==> MarksAssigned(w, s, i)
  {
    assert OrderOk(w, w.orders[i]);
  }

  /** Every order on its way, or delivered, has a driver. */
  ghost predicate Staffed(w: World) {
    forall i: nat :: !Driverless(w, i)
  }

  ghost predicate EverMarks(w: World, s: Step) {
    exists i: nat :: MarksAssigned(w, s, i)
  }

  lemma StaffedStepExactly(w: World, s: Step)
    requires Inv(w) && Staffed(w)
    ensures Staffed(Apply(w, s)) <==> !EverMarks(w, s)
  {
    var w' := Apply(w, s);
    forall i: nat | i < |w.orders| ensures Driverless(w', PlaceAfter(w, s, i)) <==> MarksAssigned(w, s, i) {
      BecomesDriverlessExactly(w, s, i);
    }
    forall j: nat | Driverless(w', j) ensures exists i: nat :: i < |w.orders| && j == PlaceAfter(w, s, i) {
      var i := if PlaceAfter(w, s, 0) == 1 then j - 1 else j;
      assert j == PlaceAfter(w, s, i);
    }
    if i: nat :| MarksAssigned(w, s, i) {
      assert Driverless(w', PlaceAfter(w, s, i));
    }
  }

  /** After every step of a run. */
  ghost predicate AlwaysStaffed(w: World, steps: seq<Step>)
    decreases |steps|
  {
    Staffed(w) && (steps != [] ==> AlwaysStaffed(Apply(w, steps[0]), steps[1..]))
  }

  /** At no step of a run. */
  ghost predicate NeverMarks(w: World, steps: seq<Step>)
    decreases |steps|
  {
    steps != [] ==> !EverMarks(w, steps[0]) && NeverMarks(Apply(w, steps[0]), steps[1..])
  }

  /** Over every run: at all times every order on its way has a driver, if and only if no status
      change to assigned ever takes effect. */
  lemma {:induction false} StaffedExactly(w: World, steps: seq<Step>)
    requires Inv(w) && Staffed(w)
    ensures AlwaysStaffed(w, steps) <==> NeverMarks(w, steps)
    decreases |steps|
  {
    if steps != [] {
      StaffedStepExactly(w, steps[0]);
      StepKeepsInv(w, steps[0]);
      if !EverMarks(w, steps[0]) {
        StaffedExactly(Apply(w, steps[0]), steps[1..]);
      }
    }
  }

  predicate Stuck(w: World, i: nat) {
    i < |w.orders| && w.orders[i].driver.None? && !w.orders[i].status.Pending? && !w.orders[i].status.Delivered?
  }

  /** The office can mark a pending order as assigned without giving it to anyone. From then on it
      never gets a driver and is never delivered, whatever happens; it can only fail or be cancelled. */
  lemma {:induction false} DriverlessOrderIsNeverDelivered(w: World, steps: seq<Step>, i: nat)
    requires Stuck(w, i)
    ensures Stuck(Run(w, steps), PlaceAfterRun(w, steps, i))
    decreases |steps|
  {
    if steps != [] {
      assert Stuck(Apply(w, steps[0]), PlaceAfter(w, steps[0], i));
      DriverlessOrderIsNeverDelivered(Apply(w, steps[0]), steps[1..], PlaceAfter(w, steps[0], i));
    }
  }

  lemma OfficeCanAssignNobody(w: World, weightKg: real)
    requires Fresh(w)
    ensures Stuck(Run(w, [Step(Create(weightKg), 0, true), Step(SetStatus(0, Assigned, Office), 1, true)]), 0)
  {
    var create, mark := Step(Create(weightKg), 0, true), Step(SetStatus(0, Assigned, Office), 1, true);
    var w1 := Apply(w, create);
    var w2 := Apply(w1, mark);
    assert w1.orders == [NewOrder(weightKg, 0)];
    assert Stuck(w2, 0);
    assert [create, mark][1..] == [mark] && [mark][1..] == [];
    assert Run(w1, [mark]) == Run(w2, []) == w2;
  }

  // ---------------------------------------------------------------------------
  // Geofence history over runs
  // ---------------------------------------------------------------------------

  predicate Timely(w: World, now: int) {
    forall i, place :: 0 <= i < |w.orders| ==> VisitTimely(VisitOf(w.orders[i].events, place), now)
  }

  predicate TimeMovesOn(steps: seq<Step>, now: int) {
    && (forall k :: 0 <= k < |steps| ==> now <= steps[k].at)
    && (forall j, k :: 0 <= j < k < |steps| ==> steps[j].at <= steps[k].at)
  }

  lemma CreateKeepsTimely(w: World, weightKg: real, at: int, now: int)
    requires Timely(w, now) && now <= at
    ensures Timely(w.(orders := [NewOrder(weightKg, at)] + w.orders), at)
  {
    var w' := w.(orders := [NewOrder(weightKg, at)] + w.orders);
    var created := OrderEvent(Created, at);
    VisitOneMore([], created);
    assert [] + [created] == [created];
    forall i, place | 0 <= i < |w'.orders| ensures VisitTimely(VisitOf(w'.orders[i].events, place), at) {
      if i > 0 {
        assert VisitTimely(VisitOf(w.orders[i - 1].events, place), now);
      }
    }
  }

  lemma ApplyKeepsTimely(w: World, s: Step, now: int)
    requires Timely(w, now) && now <= s.at
    ensures Timely(Apply(w, s), s.at)
  {
    if !TakesEffect(w, s.request, s.persisted) {
      forall i, place | 0 <= i < |w.orders| ensures VisitTimely(VisitOf(w.orders[i].events, place), s.at) {
        assert VisitTimely(VisitOf(w.orders[i].events, place), now);
      }
    } else if s.request.Create? {
      CreateKeepsTimely(w, s.request.weightKg, s.at, now);
    } else {
      EffectKeepsCount(w, s.request, s.at);
      forall i | 0 <= i < |w.orders|
        ensures forall place :: VisitTimely(VisitOf(Effect(w, s.request, s.at).orders[i].events, place), s.at)
      {
        EffectKeepsTimely(w, s.request, s.at, i, now);
      }
    }
  }

  lemma EffectKeepsCount(w: World, r: Request, at: int)
    requires Check(w, r).Done? && !r.Create?
    ensures |Effect(w, r, at).orders| == |w.orders|
  {
  }

  /** Only the location handler logs arrivals and departures; the others log at most one event. */
  lemma EffectLogsOne(w: World, r: Request, at: int, i: nat)
    requires Check(w, r).Done? && !r.Create? && !r.Locate? && i < |w.orders|
    ensures i < |Effect(w, r, at).orders|
    ensures var events, events' := w.orders[i].events, Effect(w, r, at).orders[i].events;
            events' == events
            || exists kind :: events' == events + [OrderEvent(kind, at)] && !kind.Arrived? && !kind.Departed?
  {
  }

  lemma SingleEventStaysTimely(events: seq<OrderEvent>, kind: EventType, at: int, place: Place, now: int)
    requires VisitTimely(VisitOf(events, place), now) && now <= at && !kind.Arrived? && !kind.Departed?
    ensures VisitTimely(VisitOf(events + [OrderEvent(kind, at)], place), at)
  {
    VisitOneMore(events, OrderEvent(kind, at));
  }

  lemma LocateKeepsTimely(w: World, i: nat, atPickup: bool, atDropoff: bool, at: int, now: int)
    requires i < |w.orders| && now <= at && forall place :: VisitTimely(VisitOf(w.orders[i].events, place), now)
    ensures forall place ::
              VisitTimely(VisitOf(Effect(w, Locate(i, atPickup, atDropoff), at).orders[i].events, place), at)
  {
    var o := w.orders[i];
    TransitionsStayTimely(o.status, o.events, atPickup, atDropoff, at, now);
    var after := LogAll(o.events, GeofenceTransitions(o.status, o.events, atPickup, atDropoff), at);
    forall place
      ensures VisitTimely(VisitOf(Effect(w, Locate(i, atPickup, atDropoff), at).orders[i].events, place), at)
    {
      assert VisitTimely(VisitOf(after, place), at);
    }
  }

  lemma EffectKeepsTimely(w: World, r: Request, at: int, i: nat, now: int)
    requires Timely(w, now) && now <= at && Check(w, r).Done? && !r.Create? && i < |w.orders|
    ensures i < |Effect(w, r, at).orders|
    ensures forall place :: VisitTimely(VisitOf(Effect(w, r, at).orders[i].events, place), at)
  {
    var events := w.orders[i].events;
    assert forall place :: VisitTimely(VisitOf(events, place), now);
    if !r.Locate? {
      EffectLogsOne(w, r, at, i);
      if kind :| && Effect(w, r, at).orders[i].events == events + [OrderEvent(kind, at)]
                 && !kind.Arrived? && !kind.Departed? {
        forall place ensures VisitTimely(VisitOf(Effect(w, r, at).orders[i].events, place), at) {
          SingleEventStaysTimely(events, kind, at, place, now);
        }
      } else {
        forall place ensures VisitTimely(VisitOf(Effect(w, r, at).orders[i].events, place), at) {
          assert VisitTimely(VisitOf(events, place), now);
        }
      }
    } else if r.order == i {
      LocateKeepsTimely(w, i, r.atPickup, r.atDropoff, at, now);
    } else {
      forall place ensures VisitTimely(VisitOf(Effect(w, r, at).orders[i].events, place), at) {
        assert VisitTimely(VisitOf(events, place), now);
      }
    }
  }

  /** Over every run in which time does not go back: every place of every order has a regular
      history, whose departure is no earlier than its arrival. */
  lemma {:induction false} GeofenceHistoryIsRegular(w: World, steps: seq<Step>, now: int)
    requires Timely(w, now) && TimeMovesOn(steps, now)
    ensures exists later :: now <= later && Timely(Run(w, steps), later)
    decreases |steps|
  {
    if steps == [] {
      assert Timely(Run(w, steps), now);
    } else {
      ApplyKeepsTimely(w, steps[0], now);
      assert TimeMovesOn(steps[1..], steps[0].at) by {
        assert forall k :: 0 <= k < |steps| - 1 ==> steps[1..][k] == steps[k + 1];
      }
      GeofenceHistoryIsRegular(Apply(w, steps[0]), steps[1..], steps[0].at);
      var later :| steps[0].at <= later && Timely(Run(Apply(w, steps[0]), steps[1..]), later);
      assert Timely(Run(w, steps), later);
    }
  }
}
