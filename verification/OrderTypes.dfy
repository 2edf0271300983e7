/** Orders, their statuses and events (shared types and stateMachine.ts). */
module OrderTypes {
  import opened Prelude

  datatype Status = Pending | Assigned | PickedUp | InTransit | Delivered | Failed | Cancelled
  datatype DriverStatus = Available | Busy | Offline
  datatype Place = Pickup | Dropoff

  /** Event types: a status event carries the status it announces. */
  datatype EventType =
    | Created
    | Changed(to: Status)
    | Rejected
    | Accepted
    | Arrived(place: Place)
    | Departed(place: Place)
    | Exception
    | Other(name: string)

  datatype OrderEvent = OrderEvent(kind: EventType, at: int)
  datatype Proof = Proof(driver: nat, at: int)

  datatype Order = Order(weightKg: real, status: Status, driver: Option<nat>, deliveredAt: Option<int>,
                         proof: Option<Proof>, events: seq<OrderEvent>, updatedAt: int)
  datatype Driver = Driver(status: DriverStatus, capacityKg: real)
  datatype World = World(orders: seq<Order>, drivers: seq<Driver>)

  // ---------------------------------------------------------------------------
  // The transition table
  // ---------------------------------------------------------------------------

  function Transitions(from: Status): set<Status> {
    match from
    case Pending => {Assigned, Cancelled}
    case Assigned => {PickedUp, Cancelled, Failed}
    case PickedUp => {InTransit, Failed}
    case InTransit => {Delivered, Failed}
    case Delivered => {}
    case Failed => {}
    case Cancelled => {}
  }

  predicate CanTransition(from: Status, to: Status) { to in Transitions(from) }

  predicate Terminal(s: Status) { s.Delivered? || s.Failed? || s.Cancelled? }

  predicate Active(s: Status) { s.Assigned? || s.PickedUp? || s.InTransit? }

  predicate HasEvent(events: seq<OrderEvent>, kind: EventType) {
    exists k :: 0 <= k < |events| && events[k].kind == kind
  }
}
