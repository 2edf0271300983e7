/**
 The shared arrays of orders and drivers as the handlers of app.ts update them: records changed
 in place, snapshots taken before a change, and `restore` when persistence fails. Every handler
 is proved to be the corresponding step of the order machine.
 */
module OrderStore {
  import opened Prelude
  import opened OrderTypes
  import opened Geofence
  import opened Orders

  class OrderRecord {
    var weightKg: real
    var status: Status
    var driver: Option<nat>
    var deliveredAt: Option<int>
    var proof: Option<Proof>
    var events: seq<OrderEvent>
    var updatedAt: int

    constructor (weightKg: real, at: int)
      ensures Value() == NewOrder(weightKg, at)
    {
      this.weightKg := weightKg;
      status, driver, deliveredAt, proof := Pending, None, None, None;
      events := [OrderEvent(Created, at)];
      updatedAt := at;
    }

    function Value(): Order
      reads this
    {
      Order(weightKg, status, driver, deliveredAt, proof, events, updatedAt)
    }

    method Restore(snapshot: Order)
      modifies this
      ensures Value() == snapshot
    {
      weightKg, status, driver := snapshot.weightKg, snapshot.status, snapshot.driver;
      deliveredAt, proof, events := snapshot.deliveredAt, snapshot.proof, snapshot.events;
      updatedAt := snapshot.updatedAt;
    }
  }

  class DriverRecord {
    var status: DriverStatus
    var capacityKg: real

    constructor (capacityKg: real)
      ensures Value() == Driver(Available, capacityKg)
    {
      this.capacityKg := capacityKg;
      status := Available;
    }

    function Value(): Driver
      reads this
    {
      Driver(status, capacityKg)
    }

    method Restore(snapshot: Driver)
      modifies this
      ensures Value() == snapshot
    {
      status, capacityKg := snapshot.status, snapshot.capacityKg;
    }
  }

  class Store {
    var orders: seq<OrderRecord>
    var drivers: seq<DriverRecord>

    constructor (drivers: seq<DriverRecord>)
      requires forall i, j :: 0 <= i < j < |drivers| ==> drivers[i] != drivers[j]
      ensures Valid() && this.drivers == drivers && orders == []
    {
      this.drivers := drivers;
      orders := [];
    }

    ghost predicate Valid()
      reads this
    {
      && (forall i, j :: 0 <= i < j < |orders| ==> orders[i] != orders[j])
      && (forall i, j :: 0 <= i < j < |drivers| ==> drivers[i] != drivers[j])
    }

    ghost function OrderValues(): seq<Order>
      reads this, orders
    {
      seq(|orders|, i requires 0 <= i < |orders| reads this, orders => orders[i].Value())
    }

    ghost function DriverValues(): seq<Driver>
      reads this, drivers
    {
      seq(|drivers|, i requires 0 <= i < |drivers| reads this, drivers => drivers[i].Value())
    }

    ghost function View(): World
      reads this, orders, drivers
    {
      World(OrderValues(), DriverValues())
    }

    // -------------------------------------------------------------------------
    // store.ts
    // -------------------------------------------------------------------------

    method CreateOrder(weightKg: real, at: int)
      requires Valid()
      modifies this`orders
      ensures Valid() && drivers == old(drivers)
      ensures |orders| == |old(orders)| + 1 && fresh(orders[0]) && orders[1..] == old(orders)
      ensures View() == old(View()).(orders := [NewOrder(weightKg, at)] + old(View()).orders)
    {
      var order := new OrderRecord(weightKg, at);
      orders := [order] + orders;
      assert OrderValues() == [NewOrder(weightKg, at)] + old(OrderValues());
    }

    /** Fails unless the order is pending. */
    method AssignDriver(i: nat, d: nat, at: int) returns (ok: bool)
      requires Valid() && i < |orders| && d < |drivers|
      modifies orders[i], drivers[d]
      ensures ok <==> old(orders[i].status).Pending?
      ensures View() == if ok then DoAssign(old(View()), i, d, at) else old(View())
    {
      var order, driver := orders[i], drivers[d];
      if order.status != Pending {
        return false;
      }
      order.driver := Some(d);
      order.status := Status.Assigned;
      order.updatedAt := at;
      driver.status := Busy;
      order.events := order.events + [OrderEvent(Changed(Status.Assigned), at)];
      ok := true;
      assert OrderValues() == DoAssign(old(View()), i, d, at).orders;
      assert DriverValues() == DoAssign(old(View()), i, d, at).drivers;
    }

    /** Fails on a transition outside the table. */
    method Transition(i: nat, to: Status, at: int) returns (ok: bool)
      requires Valid() && i < |orders|
      modifies orders[i], drivers
      ensures ok <==> CanTransition(old(orders[i].status), to)
      ensures View() == if ok then DoTransition(old(View()), i, to, at) else old(View())
    {
      var order := orders[i];
      if to !in Transitions(order.status) {
        return false;
      }
      order.status := to;
      order.updatedAt := at;
      if to == Delivered {
        order.deliveredAt := Some(at);
      }
      if (to == Delivered || to == Cancelled || to == Failed) && order.driver.Some? && order.driver.value < |drivers| {
        drivers[order.driver.value].status := Available;
      }
      order.events := order.events + [OrderEvent(Changed(to), at)];
      ok := true;
      assert OrderValues() == DoTransition(old(View()), i, to, at).orders;
      assert DriverValues() == DoTransition(old(View()), i, to, at).drivers;
    }

    // -------------------------------------------------------------------------
    // app.ts: `persisted` says whether the write to the database succeeds
    // -------------------------------------------------------------------------

    /** Put back the snapshots of an order and, if it has one, of its driver. */
    method RestoreBoth(i: nat, order: Order, d: Option<nat>, driver: Driver, ghost before: World)
      requires Valid() && i < |orders| && i < |before.orders| && before.orders[i] == order
      requires d.Some? ==> d.value < |drivers| && d.value < |before.drivers| && before.drivers[d.value] == driver
      requires |View().orders| == |before.orders| && |View().drivers| == |before.drivers|
      requires forall k :: 0 <= k < |orders| && k != i ==> View().orders[k] == before.orders[k]
      requires forall k :: 0 <= k < |drivers| && d != Some(k) ==> View().drivers[k] == before.drivers[k]
      modifies orders[i], if d.Some? && d.value < |drivers| then {drivers[d.value]} else {}
      ensures View() == before
    {
      orders[i].Restore(order);
      if d.Some? {
        drivers[d.value].Restore(driver);
      }
      assert OrderValues() == before.orders;
      assert DriverValues() == before.drivers;
    }

    method PostOrder(weightKg: real, at: int, persisted: bool) returns (answer: Answer)
      requires Valid()
      modifies this`orders
      ensures Valid() && drivers == old(drivers)
      ensures View() == Apply(old(View()), Step(Create(weightKg), at, persisted))
      ensures answer == AnswerOf(old(View()), Create(weightKg), persisted)
    {
      CreateOrder(weightKg, at);
      if !persisted {
        orders := orders[1..];
        assert OrderValues() == old(OrderValues());
        return NotPersisted;
      }
      return Done;
    }

    method PostAssign(i: nat, d: nat, at: int, persisted: bool) returns (answer: Answer)
      requires Valid()
      modifies orders, drivers
      ensures View() == Apply(old(View()), Step(Assign(i, d), at, persisted))
      ensures answer == AnswerOf(old(View()), Assign(i, d), persisted)
    {
      if i >= |orders| {
        return NotFound;
      }
      if !(d < |drivers| && drivers[d].status == Available && drivers[d].capacityKg >= orders[i].weightKg) {
        return NoEligibleDriver;
      }
      var orderSnapshot, driverSnapshot := orders[i].Value(), drivers[d].Value();
      var ok := AssignDriver(i, d, at);
      if !ok {
        return Conflict;
      }
      if !persisted {
        RestoreBoth(i, orderSnapshot, Some(d), driverSnapshot, old(View()));
        return NotPersisted;
      }
      return Done;
    }

    /** The part that the status change and the cancellation share. */
    method TransitionOrRestore(i: nat, to: Status, at: int, persisted: bool) returns (answer: Answer)
      requires Valid() && i < |orders|
      modifies orders, drivers
      ensures answer ==
              if !CanTransition(old(orders[i].status), to) then Conflict
              else if persisted then Done
              else NotPersisted
      ensures View() == if answer == Done then DoTransition(old(View()), i, to, at) else old(View())
    {
      var orderSnapshot := orders[i].Value();
      var d := if orders[i].driver.Some? && orders[i].driver.value < |drivers| then orders[i].driver else None;
      var driverSnapshot := if d.Some? then drivers[d.value].Value() else Driver(Available, 0.0);
      var ok := Transition(i, to, at);
      if ok && persisted {
        return Done;
      }
      RestoreBoth(i, orderSnapshot, d, driverSnapshot, old(View()));
      return if ok then NotPersisted else Conflict;
    }

    method PatchStatus(i: nat, to: Status, caller: Caller, at: int, persisted: bool) returns (answer: Answer)
      requires Valid()
      modifies orders, drivers
      ensures View() == Apply(old(View()), Step(SetStatus(i, to, caller), at, persisted))
      ensures answer == AnswerOf(old(View()), SetStatus(i, to, caller), persisted)
    {
      if to == Delivered {
        return Conflict;
      }
      if i >= |orders| {
        return NotFound;
      }
      if caller.DriverAccount? && orders[i].driver != caller.driver {
        return Forbidden;
      }
      answer := TransitionOrRestore(i, to, at, persisted);
    }

    method PostCancel(i: nat, at: int, persisted: bool) returns (answer: Answer)
      requires Valid()
      modifies orders, drivers
      ensures View() == Apply(old(View()), Step(Cancel(i), at, persisted))
      ensures answer == AnswerOf(old(View()), Cancel(i), persisted)
    {
      if i >= |orders| {
        return NotFound;
      }
      if orders[i].status != Pending && orders[i].status != Status.Assigned {
        return Conflict;
      }
      answer := TransitionOrRestore(i, Cancelled, at, persisted);
    }

    /** No snapshot here: a failed write leaves the event and the time of the update in place. */
    method PostAccept(i: nat, d: nat, at: int, persisted: bool) returns (answer: Answer)
      requires Valid()
      modifies orders
      ensures View() == Apply(old(View()), Step(Accept(i, d), at, persisted))
      ensures answer == AnswerOf(old(View()), Accept(i, d), persisted)
    {
      if i >= |orders| || d >= |drivers| || orders[i].driver != Some(d) {
        return NotFound;
      }
      if orders[i].status != Status.Assigned {
        return Conflict;
      }
      if !HasEvent(orders[i].events, Accepted) {
        orders[i].events := orders[i].events + [OrderEvent(Accepted, at)];
      }
      orders[i].updatedAt := at;
      assert OrderValues() == Effect(old(View()), Accept(i, d), at).orders;
      assert DriverValues() == old(DriverValues());
      return if persisted then Done else NotPersisted;
    }

    /** No snapshot here either. */
    method PostException(i: nat, caller: Caller, at: int, persisted: bool) returns (answer: Answer)
      requires Valid()
      modifies orders
      ensures View() == Apply(old(View()), Step(Report(i, caller), at, persisted))
      ensures answer == AnswerOf(old(View()), Report(i, caller), persisted)
    {
      if i >= |orders| {
        return NotFound;
      }
      if caller.DriverAccount? && orders[i].driver != caller.driver {
        return Forbidden;
      }
      orders[i].events := orders[i].events + [OrderEvent(Exception, at)];
      orders[i].updatedAt := at;
      assert OrderValues() == Effect(old(View()), Report(i, caller), at).orders;
      assert DriverValues() == old(DriverValues());
      return if persisted then Done else NotPersisted;
    }

    /** The change a rejection makes, outside the transition table. */
    method Unassign(i: nat, d: nat, at: int)
      requires Valid() && i < |orders| && d < |drivers|
      modifies orders[i], drivers[d]
      ensures View() == DoReject(old(View()), i, d, at)
    {
      var order, driver := orders[i], drivers[d];
      order.driver := None;
      order.status := Pending;
      order.updatedAt := at;
      order.events := order.events + [OrderEvent(Rejected, at)];
      driver.status := Available;
      assert OrderValues() == DoReject(old(View()), i, d, at).orders;
      assert DriverValues() == DoReject(old(View()), i, d, at).drivers;
    }

    method PostReject(i: nat, d: nat, at: int, persisted: bool) returns (answer: Answer)
      requires Valid()
      modifies orders, drivers
      ensures View() == Apply(old(View()), Step(Reject(i, d), at, persisted))
      ensures answer == AnswerOf(old(View()), Reject(i, d), persisted)
    {
      if i >= |orders| || d >= |drivers| || orders[i].driver != Some(d) {
        return NotFound;
      }
      if orders[i].status != Status.Assigned {
        return Conflict;
      }
      var orderSnapshot, driverSnapshot := orders[i].Value(), drivers[d].Value();
      Unassign(i, d, at);
      if !persisted {
        RestoreBoth(i, orderSnapshot, Some(d), driverSnapshot, old(View()));
        return NotPersisted;
      }
      return Done;
    }

    /** `verified` says whether the recipient's PIN or the parcel code matched. */
    method PostProof(i: nat, d: nat, verified: bool, at: int, persisted: bool) returns (answer: Answer)
      requires Valid()
      modifies orders, drivers
      ensures View() == Apply(old(View()), Step(Prove(i, d, verified), at, persisted))
      ensures answer == AnswerOf(old(View()), Prove(i, d, verified), persisted)
    {
      if i >= |orders| || d >= |drivers| || orders[i].driver != Some(d) {
        return NotFound;
      }
      if orders[i].status != InTransit {
        return Conflict;
      }
      if !verified {
        return BadRequest;
      }
      var orderSnapshot, driverSnapshot := orders[i].Value(), drivers[d].Value();
      orders[i].proof := Some(Proof(d, at));
      assert OrderValues() == old(OrderValues())[i := orderSnapshot.(proof := Some(Proof(d, at)))];
      assert DriverValues() == old(DriverValues());
      var ok := Transition(i, Delivered, at);
      if !persisted {
        RestoreBoth(i, orderSnapshot, Some(d), driverSnapshot, old(View()));
        return NotPersisted;
      }
      return Done;
    }

    /** One event after the other. */
    method LogEvents(order: OrderRecord, kinds: seq<EventType>, at: int)
      modifies order
      ensures order.Value() == LoggedAll(old(order.Value()), kinds, at)
    {
      ghost var events := order.events;
      for k := 0 to |kinds|
        invariant LogAll(order.events, kinds[k..], at) == LogAll(events, kinds, at)
        invariant order.Value() == old(order.Value()).(events := order.events)
      {
        assert kinds[k..][1..] == kinds[k + 1..];
        order.events := order.events + [OrderEvent(kinds[k], at)];
      }
      if kinds != [] {
        order.updatedAt := at;
      }
    }

    /** The per-order part of the location handler; nothing is undone when its write fails. */
    method LogPosition(i: nat, atPickup: bool, atDropoff: bool, at: int, persisted: bool) returns (answer: Answer)
      requires Valid()
      modifies orders
      ensures View() == Apply(old(View()), Step(Locate(i, atPickup, atDropoff), at, persisted))
      ensures answer == AnswerOf(old(View()), Locate(i, atPickup, atDropoff), persisted)
    {
      if i >= |orders| {
        return NotFound;
      }
      var order := orders[i];
      LogEvents(order, GeofenceTransitions(order.status, order.events, atPickup, atDropoff), at);
      assert OrderValues() == Effect(old(View()), Locate(i, atPickup, atDropoff), at).orders;
      assert DriverValues() == old(DriverValues());
      return if persisted then Done else NotPersisted;
    }
  }
}
