/** Live arrival estimates (eta.ts) and how they relate to the planner's timeline. */
module Eta {
  import opened Prelude
  import opened Geography
  import opened RouteOptimizer
  import opened RouteSimulation

  function ServiceMinutesFor(priority: Priority): real {
    match priority
    case Urgent => 4.0
    case Express => 5.0
    case Standard => 6.0
  }

  /** The speed used: a stale position makes it a fifth slower, never below 5 km/h. */
  function EtaSpeed(averageSpeedKph: real, stale: bool): real {
    var average := Max(5.0, if averageSpeedKph == 0.0 then 24.0 else averageSpeedKph);
    if stale then Max(5.0, average * 0.8) else average
  }

  /** Position of the order among the stops of the active run. */
  function IndexOf(stops: seq<Stop>, id: string): Option<nat> {
    if stops == [] then None
    else if stops[0].id == id then Some(0)
    else match IndexOf(stops[1..], id)
      case None => None
      case Some(i) => Some(i + 1)
  }

  lemma {:induction false} IndexOfFinds(stops: seq<Stop>, id: string)
    ensures match IndexOf(stops, id)
            case Some(i) => i < |stops| && stops[i].id == id && forall j :: 0 <= j < i ==> stops[j].id != id
            case None => forall j :: 0 <= j < |stops| ==> stops[j].id != id
  {
    if stops != [] {
      IndexOfFinds(stops[1..], id);
      assert forall j :: 1 <= j < |stops| ==> stops[j] == stops[1..][j - 1];
    }
  }

  /** The estimate before the delivery window is taken into account. `place` is the driver's
      position, or the pickup when there is none. */
  function TravelEstimate(d: Distance, now: real, place: Coordinate, speed: real, order: Stop, run: seq<Stop>): real
    requires speed > 0.0
  {
    var index := IndexOf(run, order.id);
    IndexOfFinds(run, order.id);
    var planned := if index.Some? then run[..index.value + 1] else [];
    var distance := if planned != [] then Legs(d, place, planned) else d(place, order.at);
    var earlier := if |planned| > 1 then |planned| - 1 else 0;
    now + (distance / speed * 60.0 + ServiceMinutesFor(PriorityOf(order)) + earlier as real * 6.0) * MINUTE_MS
  }

  function EstimatedMs(d: Distance, now: real, place: Coordinate, speed: real, order: Stop, run: seq<Stop>): real
    requires speed > 0.0
  {
    var estimate := TravelEstimate(d, now, place, speed, order, run);
    if order.windowStart.At? then Max(estimate, order.windowStart.ms) else estimate
  }

  /** 4, 5 or 6 minutes, by the priority of the order. */
  lemma ServiceIs(order: Stop)
    ensures ServiceMinutesFor(PriorityOf(order))
            == match order.priority case Some(Urgent) => 4.0 case Some(Express) => 5.0 case _ => 6.0
  {
  }

  /** The estimate for an order outside the run: straight to it at the given speed, and its service. */
  lemma EstimateOutsideRun(d: Distance, now: real, place: Coordinate, speed: real, order: Stop, run: seq<Stop>)
    requires speed > 0.0 && IndexOf(run, order.id).None?
    ensures TravelEstimate(d, now, place, speed, order, run)
            == now + (d(place, order.at) / speed * 60.0 + ServiceMinutesFor(PriorityOf(order))) * 60_000.0
  {
  }

  /** And in the run: along the stops up to the order, its service, and six minutes for each before it. */
  lemma EstimateInRun(d: Distance, now: real, place: Coordinate, speed: real, order: Stop, run: seq<Stop>, k: nat)
    requires speed > 0.0 && IndexOf(run, order.id) == Some(k)
    ensures k < |run|
    ensures TravelEstimate(d, now, place, speed, order, run)
            == now + (Length(d, place, run[..k + 1], false) / speed * 60.0 + ServiceMinutesFor(PriorityOf(order))
                      + k as real * 6.0) * 60_000.0
  {
    IndexOfFinds(run, order.id);
    assert Length(d, place, run[..k + 1], false) == Legs(d, place, run[..k + 1]);
  }

  /** The estimate is never before the delivery window opens, and otherwise the travel estimate. */
  lemma EstimateWaitsForWindow(d: Distance, now: real, place: Coordinate, speed: real, order: Stop, run: seq<Stop>)
    requires speed > 0.0
    ensures var travel := TravelEstimate(d, now, place, speed, order, run);
            EstimatedMs(d, now, place, speed, order, run)
            == if order.windowStart.At? && order.windowStart.ms > travel then order.windowStart.ms else travel
  {
  }

  /** The speed in plain numbers: 24 km/h where none is set, at least 5, and a fifth less, but at least
      5, with a stale position. */
  lemma EtaSpeedIs(averageSpeedKph: real)
    ensures EtaSpeed(0.0, false) == 24.0 && EtaSpeed(0.0, true) == 19.2
    ensures averageSpeedKph != 0.0 ==>
              EtaSpeed(averageSpeedKph, false) == if averageSpeedKph < 5.0 then 5.0 else averageSpeedKph
    ensures averageSpeedKph != 0.0 ==>
              EtaSpeed(averageSpeedKph, true) == if averageSpeedKph < 6.25 then 5.0 else 0.8 * averageSpeedKph
  {
  }

  /** A run planned with the same speed and the default six minutes per stop. */
  predicate SamePlan(o: Options, now: real, speed: real) {
    o.startAt == now && Speed(o) == speed && o.serviceMinutes == 6.0
  }

  lemma {:induction false} GreedyClockIsTravelAndService(d: Distance, o: Options, from: Coordinate, elapsed: real,
                                                         route: seq<Stop>, k: nat)
    requires k <= |route|
    ensures GreedyClock(d, o, from, elapsed, route, k)
            == elapsed + TravelTime(d, o, from, route[..k]) + ServiceTime(k, ServiceMs(o))
    decreases k
  {
    if k > 0 {
      GreedyClockIsTravelAndService(d, o, route[0].at, Advance(d, o, from, elapsed, route[0]), route[1..], k - 1);
      assert route[..k][1..] == route[1..][..k - 1];
    }
  }

  lemma EstimateInMs(o: Options, now: real, speed: real, km: real, service: real, earlier: nat)
    requires SamePlan(o, now, speed)
    ensures now + (km / speed * 60.0 + service + earlier as real * 6.0) * MINUTE_MS
            == now + TravelMs(o, km) + ServiceTime(earlier + 1, ServiceMs(o)) - (6.0 - service) * MINUTE_MS
  {
    ServiceTimeIsProduct(earlier + 1, ServiceMs(o));
    var q := km / speed;
    assert q * 60.0 * MINUTE_MS == q * HOUR_MS;
    assert (earlier + 1) as real * (6.0 * MINUTE_MS) == 6.0 * MINUTE_MS + earlier as real * 6.0 * MINUTE_MS;
  }

  function PriorityOf(order: Stop): Priority {
    if order.priority.Some? then order.priority.value else Standard
  }

  /** How much shorter the service of a priority order is than the six minutes of the plan. */
  function ServiceCredit(order: Stop): real { (6.0 - ServiceMinutesFor(PriorityOf(order))) * MINUTE_MS }

  /** For every order of a run, the estimate made at the start of the run is the planned departure
      from its stop, less all waiting planned up to and including it, less the minutes by which
      its priority shortens the service. So it is exactly the planned departure if and only if
      the order is a standard one and no waiting is planned. */
  lemma EstimateMatchesPlan(d: Distance, o: Options, place: Coordinate, speed: real, order: Stop, run: seq<Stop>,
                            k: nat)
    requires SamePlan(o, o.startAt, speed) && IndexOf(run, order.id) == Some(k)
    ensures k < |run| && |Visits(d, o, place, o.startAt, run)| == |run|
    ensures var visits := Visits(d, o, place, o.startAt, run);
            var estimate := TravelEstimate(d, o.startAt, place, speed, order, run);
            && estimate == visits[k].departure - TotalWait(visits[..k + 1]) - ServiceCredit(order)
            && (estimate == visits[k].departure
                <==> PriorityOf(order).Standard? && forall i :: 0 <= i <= k ==> visits[i].wait == 0.0)
  {
    IndexOfFinds(run, order.id);
    var planned := run[..k + 1];
    EstimateInMs(o, o.startAt, speed, Legs(d, place, planned), ServiceMinutesFor(PriorityOf(order)), k);
    TravelTimeOfLegs(d, o, place, planned);
    GreedyClockIsTravelAndService(d, o, place, o.startAt, run, k + 1);
    TwoClocksAgree(d, o, place, run, k + 1);
    WaitIsNonNegative(d, o, place, run, k + 1);
    var visits := Visits(d, o, place, o.startAt, run);
    assert forall i :: 0 <= i < k + 1 ==> visits[..k + 1][i] == visits[i];
  }

  lemma WaitIsNonNegative(d: Distance, o: Options, place: Coordinate, run: seq<Stop>, n: nat)
    requires n <= |run| && o.serviceMinutes >= 0.0
    ensures |Visits(d, o, place, o.startAt, run)| == |run|
    ensures TotalWait(Visits(d, o, place, o.startAt, run)[..n]) >= 0.0
  {
    TimelineIsOrdered(d, o, place, o.startAt, run);
    WaitsAddUp(Visits(d, o, place, o.startAt, run)[..n]);
  }

  /** With the delivery window taken into account the estimate still never exceeds the departure
      planned for the order, when the plan respects windows. */
  lemma EstimateWithinPlan(d: Distance, o: Options, place: Coordinate, speed: real, order: Stop, run: seq<Stop>, k: nat)
    requires SamePlan(o, o.startAt, speed) && o.respectTimeWindows && IndexOf(run, order.id) == Some(k)
    requires k < |run| && run[k].windowStart == order.windowStart
    ensures |Visits(d, o, place, o.startAt, run)| == |run|
    ensures var visit := Visits(d, o, place, o.startAt, run)[k];
            && EstimatedMs(d, o.startAt, place, speed, order, run) <= visit.departure
            && (order.windowStart.At? ==>
                  order.windowStart.ms <= EstimatedMs(d, o.startAt, place, speed, order, run))
  {
    EstimateMatchesPlan(d, o, place, speed, order, run, k);
    TimelineIsOrdered(d, o, place, o.startAt, run);
    WaitIsNonNegative(d, o, place, run, k + 1);
  }

  lemma SlowerTakesLonger(km: real, slow: real, fast: real)
    requires km >= 0.0 && 0.0 < slow <= fast
    ensures km / slow >= km / fast >= 0.0
  {
    var p, q := km / slow, km / fast;
    assert p * slow == km && q * fast == km;
    assert q >= 0.0;
    if p < q {
      assert p * slow < q * slow <= q * fast;
    }
  }

  /** A stale position makes the estimate conservative: never earlier than with a fresh one. */
  lemma StaleIsNeverEarlier(d: Distance, now: real, place: Coordinate, averageSpeedKph: real, order: Stop,
                            run: seq<Stop>)
    ensures EtaSpeed(averageSpeedKph, true) >= 5.0 && EtaSpeed(averageSpeedKph, false) >= 5.0
    ensures EstimatedMs(d, now, place, EtaSpeed(averageSpeedKph, true), order, run)
            >= EstimatedMs(d, now, place, EtaSpeed(averageSpeedKph, false), order, run)
  {
    var index := IndexOf(run, order.id);
    IndexOfFinds(run, order.id);
    var planned := if index.Some? then run[..index.value + 1] else [];
    LegsNonNegative(d, place, planned);
    var km := if planned != [] then Legs(d, place, planned) else d(place, order.at);
    SlowerTakesLonger(km, EtaSpeed(averageSpeedKph, true), EtaSpeed(averageSpeedKph, false));
  }
}
