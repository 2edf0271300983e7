/** Geofence arrivals and departures (geofence.ts). */
module Geofence {
  import opened Prelude
  import opened Geography
  import opened OrderTypes

  // ---------------------------------------------------------------------------
  // Detection
  // ---------------------------------------------------------------------------

  predicate Watched(status: Status, place: Place) {
    match place
    case Pickup => status.Assigned? || status.PickedUp? || status.InTransit?
    case Dropoff => status.PickedUp? || status.InTransit?
  }

  /** The event, if any, that a position causes at one place. */
  function Move(status: Status, events: seq<OrderEvent>, place: Place, inside: bool): seq<EventType> {
    if !Watched(status, place) then []
    else if inside && !HasEvent(events, Arrived(place)) then [Arrived(place)]
    else if !inside && HasEvent(events, Arrived(place)) && !HasEvent(events, Departed(place)) then [Departed(place)]
    else []
  }

  function GeofenceTransitions(status: Status, events: seq<OrderEvent>, atPickup: bool,
                               atDropoff: bool): seq<EventType> {
    Move(status, events, Pickup, atPickup) + Move(status, events, Dropoff, atDropoff)
  }

  predicate Within(d: Distance, location: Coordinate, point: Coordinate, radiusMeters: real) {
    d(location, point) * 1000.0 <= radiusMeters
  }

  /** The loop of the source over the two stops. */
  method DetectTransitions(d: Distance, status: Status, events: seq<OrderEvent>,
                           pickup: Coordinate, dropoff: Coordinate, location: Coordinate, radiusMeters: real)
    returns (transitions: seq<EventType>)
    ensures transitions == GeofenceTransitions(status, events, Within(d, location, pickup, radiusMeters),
                                               Within(d, location, dropoff, radiusMeters))
  {
    var stops := [(Pickup, pickup), (Dropoff, dropoff)];
    transitions := [];
    for i := 0 to 2
      invariant i >= 1 ==> transitions == Move(status, events, Pickup, Within(d, location, pickup, radiusMeters))
                           + (if i < 2 then []
                              else Move(status, events, Dropoff, Within(d, location, dropoff, radiusMeters)))
      invariant i == 0 ==> transitions == []
    {
      var (place, point) := stops[i];
      if Watched(status, place) {
        var inside := d(location, point) * 1000.0 <= radiusMeters;
        var arrived := HasEvent(events, Arrived(place));
        var departed := HasEvent(events, Departed(place));
        if inside && !arrived {
          transitions := transitions + [Arrived(place)];
        } else if !inside && arrived && !departed {
          transitions := transitions + [Departed(place)];
        }
      }
    }
  }

  /** Which events a position causes, in plain terms: an arrival within the radius, a departure
      beyond it after an arrival, each once, and only while the order is on its way (to the pickup or
      beyond for the pickup, with the parcel picked up for the drop-off). */
  lemma TransitionsExactly(d: Distance, status: Status, events: seq<OrderEvent>,
                           pickup: Coordinate, dropoff: Coordinate, location: Coordinate, radiusMeters: real)
    ensures var kinds := GeofenceTransitions(status, events, Within(d, location, pickup, radiusMeters),
                                             Within(d, location, dropoff, radiusMeters));
            var early := status == Assigned;
            var late := status == PickedUp || status == InTransit;
            && (Arrived(Pickup) in kinds <==>
                  (early || late) && d(location, pickup) * 1000.0 <= radiusMeters && !HasEvent(events, Arrived(Pickup)))
            && (Departed(Pickup) in kinds <==>
                  && (early || late) && d(location, pickup) * 1000.0 > radiusMeters
                  && HasEvent(events, Arrived(Pickup)) && !HasEvent(events, Departed(Pickup)))
            && (Arrived(Dropoff) in kinds <==>
                  late && d(location, dropoff) * 1000.0 <= radiusMeters && !HasEvent(events, Arrived(Dropoff)))
            && (Departed(Dropoff) in kinds <==>
                  && late && d(location, dropoff) * 1000.0 > radiusMeters
                  && HasEvent(events, Arrived(Dropoff)) && !HasEvent(events, Departed(Dropoff)))
            && |kinds| <= 2 && forall k :: 0 <= k < |kinds| ==> kinds[k].Arrived? || kinds[k].Departed?
  {
    var atPickup, atDropoff := Within(d, location, pickup, radiusMeters), Within(d, location, dropoff, radiusMeters);
    var first, second := Move(status, events, Pickup, atPickup), Move(status, events, Dropoff, atDropoff);
    assert forall kind :: kind in first + second <==> kind in first || kind in second;
  }

  // ---------------------------------------------------------------------------
  // The history of one place
  // ---------------------------------------------------------------------------

  /** What a log says about a place. `Odd` is a second arrival or departure, or a departure
      without an arrival. */
  datatype Visit = Never | Here(arrivedAt: int) | Gone(arrivedAt: int, departedAt: int) | Odd

  function NextVisit(v: Visit, e: OrderEvent, place: Place): Visit {
    if e.kind == Arrived(place) then (if v.Never? then Here(e.at) else Odd)
    else if e.kind == Departed(place) then (if v.Here? then Gone(v.arrivedAt, e.at) else Odd)
    else v
  }

  function VisitOf(events: seq<OrderEvent>, place: Place): Visit {
    if events == [] then Never
    else NextVisit(VisitOf(events[..|events| - 1], place), events[|events| - 1], place)
  }

  lemma VisitOneMore(events: seq<OrderEvent>, e: OrderEvent)
    ensures forall place :: VisitOf(events + [e], place) == NextVisit(VisitOf(events, place), e, place)
  {
    assert (events + [e])[..|events|] == events;
  }

  lemma HasEventOneMore(events: seq<OrderEvent>, e: OrderEvent, kind: EventType)
    ensures HasEvent(events + [e], kind) <==> HasEvent(events, kind) || e.kind == kind
  {
    var more := events + [e];
    assert more[|events|] == e;
    if HasEvent(events, kind) {
      var k :| 0 <= k < |events| && events[k].kind == kind;
      assert more[k].kind == kind;
    }
  }

  lemma {:induction false} VisitMatchesEvents(events: seq<OrderEvent>, place: Place)
    requires !VisitOf(events, place).Odd?
    ensures HasEvent(events, Arrived(place)) <==> !VisitOf(events, place).Never?
    ensures HasEvent(events, Departed(place)) <==> VisitOf(events, place).Gone?
  {
    if events != [] {
      var front, e := events[..|events| - 1], events[|events| - 1];
      assert events == front + [e];
      VisitMatchesEvents(front, place);
      HasEventOneMore(front, e, Arrived(place));
      HasEventOneMore(front, e, Departed(place));
    }
  }

  function LogAll(events: seq<OrderEvent>, kinds: seq<EventType>, at: int): seq<OrderEvent>
    decreases |kinds|
  {
    if kinds == [] then events else LogAll(events + [OrderEvent(kinds[0], at)], kinds[1..], at)
  }

  lemma {:induction false} LogAllSplits(events: seq<OrderEvent>, first: seq<EventType>, second: seq<EventType>, at: int)
    ensures LogAll(events, first + second, at) == LogAll(LogAll(events, first, at), second, at)
    decreases |first|
  {
    if first == [] {
      assert first + second == second;
    } else {
      assert (first + second)[1..] == first[1..] + second;
      LogAllSplits(events + [OrderEvent(first[0], at)], first[1..], second, at);
    }
  }

  lemma LogAtMostOne(events: seq<OrderEvent>, kinds: seq<EventType>, at: int)
    requires |kinds| <= 1
    ensures forall place :: VisitOf(LogAll(events, kinds, at), place)
              == if kinds == [] then VisitOf(events, place)
                 else NextVisit(VisitOf(events, place), OrderEvent(kinds[0], at), place)
  {
    if kinds != [] {
      assert kinds[1..] == [];
      VisitOneMore(events, OrderEvent(kinds[0], at));
    }
  }

  /** How a visit may change at time `at`. */
  predicate MovesOn(before: Visit, after: Visit, at: int) {
    || after == before
    || (before.Never? && after == Here(at))
    || (before.Here? && after == Gone(before.arrivedAt, at))
  }

  lemma MoveKeepsVisit(status: Status, events: seq<OrderEvent>, place: Place, inside: bool, at: int)
    requires !VisitOf(events, place).Odd?
    ensures var kinds := Move(status, events, place, inside);
            && |kinds| <= 1
            && (kinds != [] ==> kinds[0] == Arrived(place) || kinds[0] == Departed(place))
            && var v := VisitOf(events, place);
               kinds != [] ==> MovesOn(v, NextVisit(v, OrderEvent(kinds[0], at), place), at)
  {
    VisitMatchesEvents(events, place);
  }

  lemma TransitionsAreMoves(status: Status, events: seq<OrderEvent>, atPickup: bool, atDropoff: bool)
    ensures var kinds := GeofenceTransitions(status, events, atPickup, atDropoff);
            forall k :: 0 <= k < |kinds| ==> kinds[k].Arrived? || kinds[k].Departed?
  {
  }

  lemma MoveChangesOnePlace(status: Status, events: seq<OrderEvent>, log: seq<OrderEvent>, moved: Place, inside: bool,
                            place: Place, at: int)
    requires forall p :: !VisitOf(events, p).Odd?
    requires VisitOf(log, moved) == VisitOf(events, moved)
    ensures var after := VisitOf(LogAll(log, Move(status, events, moved, inside), at), place);
            if place == moved then MovesOn(VisitOf(events, place), after, at) else after == VisitOf(log, place)
  {
    MoveKeepsVisit(status, events, moved, inside, at);
    LogAtMostOne(log, Move(status, events, moved, inside), at);
  }

  /** Whatever the position, the detected events keep the history of both places regular: each
      arrival and departure is logged at most once, and a departure only after its arrival. */
  lemma TransitionsKeepVisits(status: Status, events: seq<OrderEvent>, atPickup: bool, atDropoff: bool, at: int)
    requires forall place :: !VisitOf(events, place).Odd?
    ensures var after := LogAll(events, GeofenceTransitions(status, events, atPickup, atDropoff), at);
            forall place :: !VisitOf(after, place).Odd? && MovesOn(VisitOf(events, place), VisitOf(after, place), at)
  {
    var middle := LogAll(events, Move(status, events, Pickup, atPickup), at);
    LogAllSplits(events, Move(status, events, Pickup, atPickup), Move(status, events, Dropoff, atDropoff), at);
    forall place ensures var after := LogAll(events, GeofenceTransitions(status, events, atPickup, atDropoff), at);
                         !VisitOf(after, place).Odd? && MovesOn(VisitOf(events, place), VisitOf(after, place), at) {
      MoveChangesOnePlace(status, events, events, Pickup, atPickup, place, at);
      MoveChangesOnePlace(status, events, events, Pickup, atPickup, Dropoff, at);
      MoveChangesOnePlace(status, events, middle, Dropoff, atDropoff, place, at);
    }
  }

  /** Visits lie in the past and end after they begin. */
  predicate VisitTimely(v: Visit, now: int) {
    match v
    case Never => true
    case Here(arrivedAt) => arrivedAt <= now
    case Gone(arrivedAt, departedAt) => arrivedAt <= departedAt <= now
    case Odd => false
  }

  lemma TransitionsStayTimely(status: Status, events: seq<OrderEvent>, atPickup: bool, atDropoff: bool, at: int,
                              now: int)
    requires now <= at && forall place :: VisitTimely(VisitOf(events, place), now)
    ensures forall place ::
              VisitTimely(
                VisitOf(LogAll(events, GeofenceTransitions(status, events, atPickup, atDropoff), at), place), at)
  {
    forall place: Place ensures !VisitOf(events, place).Odd? {
      assert VisitTimely(VisitOf(events, place), now);
    }
    TransitionsKeepVisits(status, events, atPickup, atDropoff, at);
  }
}
