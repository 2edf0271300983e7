/** The timeline simulation of the route planner and the plan it produces (optimizer.ts). */
module RouteSimulation {
  import opened Prelude
  import opened Geography
  import opened RouteOptimizer

  datatype Visit = Visit(stop: Stop, arrival: real, wait: real, departure: real, late: bool)
  datatype Simulation = Simulation(visits: seq<Visit>, distanceKm: real, durationMinutes: int, finishAt: real)
  datatype Plan = Plan(route: seq<Stop>, simulation: Simulation, timed: bool)

  function Ceil(x: real): int { -((-x).Floor) }

  // ---------------------------------------------------------------------------
  // The end of the shift
  // ---------------------------------------------------------------------------

  function DayStart(ms: real): real { (ms / DAY_MS).Floor as real * DAY_MS }

  function Boundary(o: Options): Option<real> {
    match o.shiftEnd
    case NoShiftEnd => None
    case Instant(ms) => Some(ms)
    case TimeOfDay(minutes) =>
      var sameDay := DayStart(o.startAt) + minutes * MINUTE_MS;
      Some(if sameDay < o.startAt then sameDay + DAY_MS else sameDay)
  }

  /** A time of day means its next occurrence at or after the start. */
  lemma BoundaryIsNextOccurrence(o: Options)
    requires o.shiftEnd.TimeOfDay? && 0.0 <= o.shiftEnd.minutes < 1440.0
    ensures o.startAt <= Boundary(o).value < o.startAt + DAY_MS
  {
    var days := o.startAt / DAY_MS;
    assert days.Floor as real <= days < days.Floor as real + 1.0;
    assert o.startAt == days * DAY_MS;
  }

  // ---------------------------------------------------------------------------
  // The timeline
  // ---------------------------------------------------------------------------

  /** One visit, setting out from `from` at time `clock`. */
  function VisitOf(d: Distance, o: Options, from: Coordinate, clock: real, stop: Stop): Visit {
    var reach := clock + TravelMs(o, d(from, stop.at));
    var wait := WaitMs(o, stop, reach);
    var arrival := reach + wait;
    Visit(stop, arrival, wait, arrival + ServiceMs(o), stop.promisedAt.At? && arrival > stop.promisedAt.ms)
  }

  function Visits(d: Distance, o: Options, from: Coordinate, clock: real, route: seq<Stop>): seq<Visit>
    decreases |route|
  {
    if route == [] then []
    else
      var visit := VisitOf(d, o, from, clock, route[0]);
      [visit] + Visits(d, o, route[0].at, visit.departure, route[1..])
  }

  /** The clock after the visits. */
  function ClockAfter(clock: real, visits: seq<Visit>): real {
    if visits == [] then clock else visits[|visits| - 1].departure
  }

  function TotalWait(visits: seq<Visit>): real {
    if visits == [] then 0.0 else visits[0].wait + TotalWait(visits[1..])
  }

  lemma {:induction false} VisitsAppend(d: Distance, o: Options, from: Coordinate, clock: real, route: seq<Stop>,
                                        stop: Stop)
    ensures |Visits(d, o, from, clock, route)| == |route|
    ensures Visits(d, o, from, clock, route + [stop])
            == Visits(d, o, from, clock, route)
               + [VisitOf(d, o, LastPlace(from, route), ClockAfter(clock, Visits(d, o, from, clock, route)), stop)]
    decreases |route|
  {
    if route == [] {
      assert [stop][1..] == [];
      assert route + [stop] == [stop];
    } else {
      var visit := VisitOf(d, o, from, clock, route[0]);
      assert (route + [stop])[1..] == route[1..] + [stop];
      VisitsAppend(d, o, route[0].at, visit.departure, route[1..], stop);
    }
  }

  /** The drive back to the start, when asked for. */
  function ReturnTime(d: Distance, o: Options, start: Coordinate, route: seq<Stop>): real {
    if o.returnToDepot && route != [] then TravelMs(o, d(LastPlace(start, route), start)) else 0.0
  }

  function FinishAt(d: Distance, o: Options, start: Coordinate, route: seq<Stop>): real {
    ClockAfter(o.startAt, Visits(d, o, start, o.startAt, route)) + ReturnTime(d, o, start, route)
  }

  function DurationMinutes(o: Options, finish: real): int { Ceil((finish - o.startAt) / MINUTE_MS) }

  predicate TooLong(o: Options, finish: real) {
    o.maxRouteMinutes.Some? && DurationMinutes(o, finish) > o.maxRouteMinutes.value
  }

  predicate PastShift(o: Options, finish: real) {
    Boundary(o).Some? && finish > Boundary(o).value
  }

  method Simulate(d: Distance, o: Options, start: Coordinate, route: seq<Stop>) returns (r: Result<Simulation>)
    ensures var finish := FinishAt(d, o, start, route);
            && (r == Err(OverTimeLimit) <==> TooLong(o, finish))
            && (r == Err(AfterShiftEnd) <==> !TooLong(o, finish) && PastShift(o, finish))
            && (r.Ok? <==> !TooLong(o, finish) && !PastShift(o, finish))
            && (r.Ok? ==> r.value == Simulation(Visits(d, o, start, o.startAt, route),
                                               Length(d, start, route, o.returnToDepot),
                                               DurationMinutes(o, finish), finish))
  {
    var cursor := o.startAt;
    var previous := start;
    var distanceKm := 0.0;
    var visits: seq<Visit> := [];
    for i := 0 to |route|
      invariant visits == Visits(d, o, start, o.startAt, route[..i])
      invariant previous == LastPlace(start, route[..i]) && cursor == ClockAfter(o.startAt, visits)
      invariant distanceKm == Legs(d, start, route[..i])
    {
      var stop := route[i];
      VisitsAppend(d, o, start, o.startAt, route[..i], stop);
      LegsAppend(d, start, route[..i], stop);
      assert route[..i + 1] == route[..i] + [stop];
      var legKm := d(previous, stop.at);
      distanceKm := distanceKm + legKm;
      var visit := VisitOf(d, o, previous, cursor, stop);
      cursor := visit.departure;
      visits := visits + [visit];
      previous := stop.at;
    }
    assert route[..|route|] == route;
    if o.returnToDepot && route != [] {
      var returnKm := d(previous, start);
      distanceKm := distanceKm + returnKm;
      cursor := cursor + TravelMs(o, returnKm);
    }
    var durationMinutes := DurationMinutes(o, cursor);
    if o.maxRouteMinutes.Some? && durationMinutes > o.maxRouteMinutes.value {
      return Err(OverTimeLimit);
    }
    if Boundary(o).Some? && cursor > Boundary(o).value {
      return Err(AfterShiftEnd);
    }
    r := Ok(Simulation(visits, distanceKm, durationMinutes, cursor));
  }

  // ---------------------------------------------------------------------------
  // Conservation of time
  // ---------------------------------------------------------------------------

  lemma TravelAdds(o: Options, a: real, b: real)
    ensures TravelMs(o, a + b) == TravelMs(o, a) + TravelMs(o, b)
  {
    var s := Speed(o);
    assert a / s * s == a && b / s * s == b;
    assert (a / s + b / s) * s == a + b;
    assert (a + b) / s == a / s + b / s;
  }

  lemma FirstVisit(d: Distance, o: Options, from: Coordinate, clock: real, route: seq<Stop>)
    requires route != []
    ensures var visit := VisitOf(d, o, from, clock, route[0]);
            var tail := Visits(d, o, route[0].at, visit.departure, route[1..]);
            var visits := Visits(d, o, from, clock, route);
            && TotalWait(visits) == visit.wait + TotalWait(tail)
            && ClockAfter(clock, visits) == ClockAfter(visit.departure, tail)
  {
    var visit := VisitOf(d, o, from, clock, route[0]);
    var tail := Visits(d, o, route[0].at, visit.departure, route[1..]);
    assert ([visit] + tail)[1..] == tail;
  }

  function TravelTime(d: Distance, o: Options, from: Coordinate, route: seq<Stop>): real
    decreases |route|
  {
    if route == [] then 0.0 else TravelMs(o, d(from, route[0].at)) + TravelTime(d, o, route[0].at, route[1..])
  }

  function ServiceTime(n: nat, service: real): real {
    if n == 0 then 0.0 else service + ServiceTime(n - 1, service)
  }

  lemma {:induction false} TravelTimeOfLegs(d: Distance, o: Options, from: Coordinate, route: seq<Stop>)
    ensures TravelTime(d, o, from, route) == TravelMs(o, Legs(d, from, route))
    decreases |route|
  {
    if route != [] {
      TravelTimeOfLegs(d, o, route[0].at, route[1..]);
      TravelAdds(o, d(from, route[0].at), Legs(d, route[0].at, route[1..]));
    }
  }

  lemma {:induction false} ServiceTimeIsProduct(n: nat, service: real)
    ensures ServiceTime(n, service) == n as real * service
  {
    if n > 0 {
      ServiceTimeIsProduct(n - 1, service);
      assert n as real * service == (n - 1) as real * service + service;
    }
  }

  lemma {:induction false} ClockConserved(d: Distance, o: Options, from: Coordinate, clock: real, route: seq<Stop>)
    ensures var visits := Visits(d, o, from, clock, route);
            ClockAfter(clock, visits)
            == clock + TravelTime(d, o, from, route) + TotalWait(visits) + ServiceTime(|route|, ServiceMs(o))
    decreases |route|
  {
    if route != [] {
      var visit := VisitOf(d, o, from, clock, route[0]);
      ClockConserved(d, o, route[0].at, visit.departure, route[1..]);
      FirstVisit(d, o, from, clock, route);
    }
  }

  lemma TravelTimeOfLength(d: Distance, o: Options, start: Coordinate, route: seq<Stop>)
    ensures TravelMs(o, Length(d, start, route, o.returnToDepot))
            == TravelTime(d, o, start, route) + ReturnTime(d, o, start, route)
  {
    TravelTimeOfLegs(d, o, start, route);
    if o.returnToDepot && route != [] {
      TravelAdds(o, Legs(d, start, route), d(LastPlace(start, route), start));
    } else {
      assert Length(d, start, route, o.returnToDepot) == Legs(d, start, route);
    }
  }

  lemma FinishAdds(d: Distance, o: Options, start: Coordinate, route: seq<Stop>)
    ensures FinishAt(d, o, start, route)
            == o.startAt + TravelMs(o, Length(d, start, route, o.returnToDepot))
               + TotalWait(Visits(d, o, start, o.startAt, route)) + ServiceTime(|route|, ServiceMs(o))
  {
    ClockConserved(d, o, start, o.startAt, route);
    TravelTimeOfLength(d, o, start, route);
  }

  /** The finish is the start plus the time to drive the route's length, plus every wait, plus
      one service per stop. */
  lemma TimeIsConserved(d: Distance, o: Options, start: Coordinate, route: seq<Stop>)
    ensures FinishAt(d, o, start, route)
            == o.startAt + TravelMs(o, Length(d, start, route, o.returnToDepot))
               + TotalWait(Visits(d, o, start, o.startAt, route)) + |route| as real * ServiceMs(o)
  {
    ServiceTimeIsProduct(|route|, ServiceMs(o));
    var service := ServiceTime(|route|, ServiceMs(o));
    assert service == |route| as real * ServiceMs(o);
    FinishAdds(d, o, start, route);
  }

  /** Time never runs backwards, and with windows respected nobody arrives before one opens. */
  lemma {:induction false} TimelineIsOrdered(d: Distance, o: Options, from: Coordinate, clock: real, route: seq<Stop>)
    requires o.serviceMinutes >= 0.0
    ensures var visits := Visits(d, o, from, clock, route);
            |visits| == |route|
            && forall k :: 0 <= k < |visits| ==>
                 && ClockAfter(clock, visits[..k]) <= visits[k].arrival <= visits[k].departure
                 && visits[k].stop == route[k] && visits[k].wait >= 0.0
                 && (o.respectTimeWindows && route[k].windowStart.At? ==> route[k].windowStart.ms <= visits[k].arrival)
                 && (!o.respectTimeWindows ==> visits[k].wait == 0.0)
    decreases |route|
  {
    if route != [] {
      var visit := VisitOf(d, o, from, clock, route[0]);
      TravelNonNegative(o, d(from, route[0].at));
      TimelineIsOrdered(d, o, route[0].at, visit.departure, route[1..]);
      var tail := Visits(d, o, route[0].at, visit.departure, route[1..]);
      var visits := Visits(d, o, from, clock, route);
      forall k | 1 <= k < |visits|
        ensures visits[k] == tail[k - 1]
        ensures ClockAfter(clock, visits[..k]) == ClockAfter(visit.departure, tail[..k - 1])
      {
        assert visits[..k] == [visit] + tail[..k - 1];
      }
    }
  }

  lemma TravelNonNegative(o: Options, km: real)
    requires km >= 0.0
    ensures TravelMs(o, km) >= 0.0
  {
    var q := km / Speed(o);
    assert q * Speed(o) == km;
    assert q >= 0.0;
  }

  // ---------------------------------------------------------------------------
  // Two clocks
  // ---------------------------------------------------------------------------

  /** The greedy loop's clock after the first `k` stops of a route. */
  function GreedyClock(d: Distance, o: Options, from: Coordinate, elapsed: real, route: seq<Stop>, k: nat): real
    requires k <= |route|
    decreases k
  {
    if k == 0 then elapsed
    else GreedyClock(d, o, route[0].at, Advance(d, o, from, elapsed, route[0]), route[1..], k - 1)
  }

  lemma FirstTakesBest(d: Distance, o: Options, current: Coordinate, elapsed: real, remaining: seq<Stop>, j: nat)
    requires j < |Greedy(d, o, current, elapsed, remaining)|
    ensures var route := Greedy(d, o, current, elapsed, remaining);
            Score(d, o, current, elapsed, route[0]) <= Score(d, o, current, elapsed, route[j])
  {
    var stop := Greedy(d, o, current, elapsed, remaining)[j];
    GreedyIsPermutation(d, o, current, elapsed, remaining);
    assert stop in multiset(Greedy(d, o, current, elapsed, remaining));
    var i :| 0 <= i < |remaining| && remaining[i] == stop;
    BestIsFirstMinimum(d, o, current, elapsed, remaining, |remaining|);
  }

  lemma TailOfRoute(route: seq<Stop>, current: Coordinate, k: nat)
    requires 0 < k <= |route|
    ensures LastPlace(current, route[..k]) == LastPlace(route[0].at, route[1..][..k - 1])
  {
  }

  /** The scores the greedy loop compares when it has `k` stops. */
  function ScoreAt(d: Distance, o: Options, current: Coordinate, elapsed: real, route: seq<Stop>, k: nat,
                   stop: Stop): real
    requires k <= |route|
  {
    Score(d, o, LastPlace(current, route[..k]), GreedyClock(d, o, current, elapsed, route, k), stop)
  }

  lemma TailScores(d: Distance, o: Options, current: Coordinate, elapsed: real, route: seq<Stop>, k: nat, stop: Stop)
    requires 0 < k <= |route|
    ensures ScoreAt(d, o, current, elapsed, route, k, stop)
            == ScoreAt(d, o, route[0].at, Advance(d, o, current, elapsed, route[0]), route[1..], k - 1, stop)
  {
    TailOfRoute(route, current, k);
  }

  lemma GreedyTail(d: Distance, o: Options, current: Coordinate, elapsed: real, remaining: seq<Stop>)
      returns (rest: seq<Stop>)
    requires remaining != []
    ensures var route := Greedy(d, o, current, elapsed, remaining);
            route != [] && |rest| < |remaining|
            && route[1..] == Greedy(d, o, route[0].at, Advance(d, o, current, elapsed, route[0]), rest)
  {
    rest := RemoveAt(remaining, BestOf(d, o, current, elapsed, remaining, |remaining|));
  }

  /** At every step the greedy tour goes to a stop of least score among those still to visit,
      scored at its own clock and from the stop before. */
  lemma {:induction false} GreedyTakesBest(d: Distance, o: Options, current: Coordinate, elapsed: real,
                                           remaining: seq<Stop>, k: nat, j: nat)
    requires k <= j < |Greedy(d, o, current, elapsed, remaining)|
    ensures var route := Greedy(d, o, current, elapsed, remaining);
            ScoreAt(d, o, current, elapsed, route, k, route[k]) <= ScoreAt(d, o, current, elapsed, route, k, route[j])
    decreases |remaining|
  {
    var route := Greedy(d, o, current, elapsed, remaining);
    if k == 0 {
      FirstTakesBest(d, o, current, elapsed, remaining, j);
    } else {
      var rest := GreedyTail(d, o, current, elapsed, remaining);
      GreedyTakesBest(d, o, route[0].at, Advance(d, o, current, elapsed, route[0]), rest, k - 1, j - 1);
      TailScores(d, o, current, elapsed, route, k, route[k]);
      TailScores(d, o, current, elapsed, route, k, route[j]);
    }
  }

  /** After every stop the greedy clock is the simulated clock less all the waiting so far. */
  lemma {:induction false} ClocksDifferByWaiting(d: Distance, o: Options, from: Coordinate, elapsed: real, clock: real,
                                                 route: seq<Stop>, k: nat)
    requires k <= |route|
    ensures |Visits(d, o, from, clock, route)| == |route|
    ensures var visits := Visits(d, o, from, clock, route)[..k];
            GreedyClock(d, o, from, elapsed, route, k) - elapsed
                == ClockAfter(clock, visits) - clock - TotalWait(visits)
    decreases |route|
  {
    if route != [] {
      var visit := VisitOf(d, o, from, clock, route[0]);
      var tail := Visits(d, o, route[0].at, visit.departure, route[1..]);
      if k == 0 {
        ClocksDifferByWaiting(d, o, route[0].at, elapsed, visit.departure, route[1..], 0);
      } else {
        ClocksDifferByWaiting(d, o, route[0].at, Advance(d, o, from, elapsed, route[0]), visit.departure, route[1..],
                              k - 1);
        assert ([visit] + tail)[..k] == [visit] + tail[..k - 1];
        assert ([visit] + tail[..k - 1])[1..] == tail[..k - 1];
      }
    }
  }

  lemma {:induction false} WaitsAddUp(visits: seq<Visit>)
    requires forall k :: 0 <= k < |visits| ==> visits[k].wait >= 0.0
    ensures TotalWait(visits) >= 0.0
    ensures TotalWait(visits) == 0.0 <==> forall k :: 0 <= k < |visits| ==> visits[k].wait == 0.0
  {
    if visits != [] {
      WaitsAddUp(visits[1..]);
      assert forall k :: 1 <= k < |visits| ==> visits[k] == visits[1..][k - 1];
    }
  }

  /** With the start time fixed, the greedy clock is never ahead of the simulated one, and the
      two agree after `k` stops exactly when nobody has waited yet. */
  lemma TwoClocksAgree(d: Distance, o: Options, start: Coordinate, route: seq<Stop>, k: nat)
    requires k <= |route| && o.serviceMinutes >= 0.0
    ensures |Visits(d, o, start, o.startAt, route)| == |route|
    ensures var visits := Visits(d, o, start, o.startAt, route)[..k];
            var greedy := GreedyClock(d, o, start, o.startAt, route, k);
            && greedy == ClockAfter(o.startAt, visits) - TotalWait(visits)
            && greedy <= ClockAfter(o.startAt, visits)
            && (greedy == ClockAfter(o.startAt, visits) <==> forall i :: 0 <= i < k ==> visits[i].wait == 0.0)
            && (!o.respectTimeWindows ==> greedy == ClockAfter(o.startAt, visits))
  {
    ClocksDifferByWaiting(d, o, start, o.startAt, o.startAt, route, k);
    TimelineIsOrdered(d, o, start, o.startAt, route);
    WaitsAddUp(Visits(d, o, start, o.startAt, route)[..k]);
  }

  /** Visit `k` sets out from the stop before it, when that one is done. */
  lemma {:induction false} VisitAt(d: Distance, o: Options, from: Coordinate, clock: real, route: seq<Stop>, k: nat)
    requires k < |route|
    ensures |Visits(d, o, from, clock, route)| == |route|
    ensures var visits := Visits(d, o, from, clock, route);
            visits[k] == VisitOf(d, o, LastPlace(from, route[..k]), ClockAfter(clock, visits[..k]), route[k])
    decreases k
  {
    var visit := VisitOf(d, o, from, clock, route[0]);
    VisitsAppend(d, o, from, clock, route[..|route| - 1], route[|route| - 1]);
    assert route[..|route| - 1] + [route[|route| - 1]] == route;
    if k > 0 {
      var tail := Visits(d, o, route[0].at, visit.departure, route[1..]);
      VisitAt(d, o, route[0].at, visit.departure, route[1..], k - 1);
      TailOfRoute(route, from, k);
      assert Visits(d, o, from, clock, route)[..k] == [visit] + tail[..k - 1];
    }
  }

  /** The lateness foreseen for a stop by a clock that is not ahead is never more than the real one. */
  lemma LatenessIsForeseen(d: Distance, o: Options, from: Coordinate, elapsed: real, clock: real, stop: Stop)
    requires elapsed <= clock
    ensures Foreseen(d, o, from, elapsed, stop) <= LateMinutes(stop, VisitOf(d, o, from, clock, stop).arrival)
    ensures Foreseen(d, o, from, elapsed, stop) > 0.0 ==> VisitOf(d, o, from, clock, stop).late
    ensures elapsed == clock ==>
              Foreseen(d, o, from, elapsed, stop) == LateMinutes(stop, VisitOf(d, o, from, clock, stop).arrival)
  {
    var reach := elapsed + TravelMs(o, d(from, stop.at));
    assert reach + WaitMs(o, stop, reach) <= VisitOf(d, o, from, clock, stop).arrival;
  }

  /** The lateness that goes into the score of a stop. */
  function Foreseen(d: Distance, o: Options, current: Coordinate, elapsed: real, stop: Stop): real {
    var reach := elapsed + TravelMs(o, d(current, stop.at));
    LateMinutes(stop, reach + WaitMs(o, stop, reach))
  }

  /** Over the whole greedy tour: the lateness that went into the score of each chosen stop is at
      most the lateness of its visit in the timeline, a stop scored as late is reported as late,
      and up to the first wait the two are equal. */
  lemma ForeseenLatenessHappens(d: Distance, o: Options, start: Coordinate, stops: seq<Stop>, k: nat)
    requires o.serviceMinutes >= 0.0 && k < |Greedy(d, o, start, o.startAt, stops)|
    ensures |Visits(d, o, start, o.startAt, Greedy(d, o, start, o.startAt, stops))|
            == |Greedy(d, o, start, o.startAt, stops)|
    ensures var route := Greedy(d, o, start, o.startAt, stops);
            var visits := Visits(d, o, start, o.startAt, route);
            var clock := GreedyClock(d, o, start, o.startAt, route, k);
            var foreseen := Foreseen(d, o, LastPlace(start, route[..k]), clock, route[k]);
            && foreseen <= LateMinutes(route[k], visits[k].arrival)
            && (foreseen > 0.0 ==> visits[k].late)
            && ((forall i :: 0 <= i < k ==> visits[i].wait == 0.0) ==>
                foreseen == LateMinutes(route[k], visits[k].arrival))
  {
    var route := Greedy(d, o, start, o.startAt, stops);
    var visits := Visits(d, o, start, o.startAt, route);
    VisitAt(d, o, start, o.startAt, route, k);
    TwoClocksAgree(d, o, start, route, k);
    LatenessIsForeseen(d, o, LastPlace(start, route[..k]), GreedyClock(d, o, start, o.startAt, route, k),
                       ClockAfter(o.startAt, visits[..k]), route[k]);
  }

  // ---------------------------------------------------------------------------
  // The score and the visit in plain numbers
  // ---------------------------------------------------------------------------

  /** The lateness foreseen for a stop, in minutes past its promise: after the drive from `current`
      at the planned speed, but at least 5 km/h, and after waiting for the window to open. */
  lemma ForeseenIs(d: Distance, o: Options, current: Coordinate, elapsed: real, stop: Stop)
    ensures var speed := if o.averageSpeedKph < 5.0 then 5.0 else o.averageSpeedKph;
            var reach := elapsed + d(current, stop.at) / speed * 3_600_000.0;
            var arrival := if o.respectTimeWindows && stop.windowStart.At? && stop.windowStart.ms > reach
                           then stop.windowStart.ms else reach;
            Foreseen(d, o, current, elapsed, stop)
            == if stop.promisedAt.At? && arrival > stop.promisedAt.ms
               then (arrival - stop.promisedAt.ms) / 60_000.0 else 0.0
  {
  }

  /** The score: kilometres, plus four for each minute late, less 42 for an urgent stop and 18 for an
      express one. */
  lemma ScoreIs(d: Distance, o: Options, current: Coordinate, elapsed: real, stop: Stop)
    ensures Score(d, o, current, elapsed, stop)
            == d(current, stop.at) + 4.0 * Foreseen(d, o, current, elapsed, stop)
               - match stop.priority
                 case Some(Urgent) => 42.0
                 case Some(Express) => 18.0
                 case _ => 0.0
  {
  }

  /** In plain numbers: at each step of the greedy tour the kilometres to the chosen stop, plus four
      for each minute late, less its priority bonus, are no more than for any later stop. */
  lemma GreedyChoosesLeast(d: Distance, o: Options, start: Coordinate, stops: seq<Stop>, k: nat, j: nat)
    requires k <= j < |Greedy(d, o, start, o.startAt, stops)|
    ensures var route := Greedy(d, o, start, o.startAt, stops);
            var here := LastPlace(start, route[..k]);
            var clock := GreedyClock(d, o, start, o.startAt, route, k);
            var x, y := route[k], route[j];
            d(here, x.at) + 4.0 * Foreseen(d, o, here, clock, x)
            - (match x.priority case Some(Urgent) => 42.0 case Some(Express) => 18.0 case _ => 0.0)
            <= d(here, y.at) + 4.0 * Foreseen(d, o, here, clock, y)
               - (match y.priority case Some(Urgent) => 42.0 case Some(Express) => 18.0 case _ => 0.0)
  {
    var route := Greedy(d, o, start, o.startAt, stops);
    GreedyTakesBest(d, o, start, o.startAt, stops, k, j);
    var clock := GreedyClock(d, o, start, o.startAt, route, k);
    LeastInNumbers(d, o, LastPlace(start, route[..k]), clock, route[k], route[j]);
  }

  lemma LeastInNumbers(d: Distance, o: Options, here: Coordinate, clock: real, x: Stop, y: Stop)
    requires Score(d, o, here, clock, x) <= Score(d, o, here, clock, y)
    ensures d(here, x.at) + 4.0 * Foreseen(d, o, here, clock, x)
            - (match x.priority case Some(Urgent) => 42.0 case Some(Express) => 18.0 case _ => 0.0)
            <= d(here, y.at) + 4.0 * Foreseen(d, o, here, clock, y)
               - (match y.priority case Some(Urgent) => 42.0 case Some(Express) => 18.0 case _ => 0.0)
  {
    ScoreIs(d, o, here, clock, x);
    ScoreIs(d, o, here, clock, y);
  }

  /** Of two stops equally near that are not going to be late, an urgent one goes before an express
      one and an express one before a standard one. */
  lemma UrgentGoesFirst(d: Distance, o: Options, start: Coordinate, stops: seq<Stop>, k: nat, j: nat)
    requires var route := Greedy(d, o, start, o.startAt, stops);
             && k <= j < |route|
             && var here := LastPlace(start, route[..k]);
                var clock := GreedyClock(d, o, start, o.startAt, route, k);
                && d(here, route[k].at) == d(here, route[j].at)
                && Foreseen(d, o, here, clock, route[k]) == 0.0 == Foreseen(d, o, here, clock, route[j])
    ensures var route := Greedy(d, o, start, o.startAt, stops);
            && (route[j].priority == Some(Urgent) ==> route[k].priority == Some(Urgent))
            && (route[j].priority == Some(Express) ==>
                  route[k].priority == Some(Urgent) || route[k].priority == Some(Express))
  {
    var route := Greedy(d, o, start, o.startAt, stops);
    var clock := GreedyClock(d, o, start, o.startAt, route, k);
    GreedyTakesBest(d, o, start, o.startAt, stops, k, j);
    PriorityDecides(d, o, LastPlace(start, route[..k]), clock, route[k], route[j]);
  }

  lemma PriorityDecides(d: Distance, o: Options, here: Coordinate, clock: real, x: Stop, y: Stop)
    requires Score(d, o, here, clock, x) <= Score(d, o, here, clock, y) && d(here, x.at) == d(here, y.at)
    requires Foreseen(d, o, here, clock, x) == 0.0 == Foreseen(d, o, here, clock, y)
    ensures y.priority == Some(Urgent) ==> x.priority == Some(Urgent)
    ensures y.priority == Some(Express) ==> x.priority == Some(Urgent) || x.priority == Some(Express)
  {
    ScoreIs(d, o, here, clock, x);
    ScoreIs(d, o, here, clock, y);
  }

  /** A standard stop at 1 km and an urgent one at 2 km, neither with a promise: the urgent one is
      visited first. */
  lemma UrgentAtTwoKilometres(d: Distance, o: Options, start: Coordinate, near: Stop, far: Stop)
    requires d(start, near.at) == 1.0 && d(start, far.at) == 2.0
    requires near.priority == Some(Standard) && far.priority == Some(Urgent)
    requires near.promisedAt == Absent && far.promisedAt == Absent
    ensures Greedy(d, o, start, o.startAt, [near, far]) == [far, near]
  {
    var stops := [near, far];
    ScoreIs(d, o, start, o.startAt, near);
    ScoreIs(d, o, start, o.startAt, far);
    BestIsFirstMinimum(d, o, start, o.startAt, stops, 2);
    assert stops[1] == far && stops[0] == near;
    assert BestOf(d, o, start, o.startAt, stops, 2) == 1;
    assert RemoveAt(stops, 1) == [near];
    var clock := Advance(d, o, start, o.startAt, far);
    assert BestOf(d, o, far.at, clock, [near], 1) == 0 && RemoveAt([near], 0) == [];
    assert Greedy(d, o, far.at, clock, [near]) == [near];
  }

  /** The greedy clock, in plain numbers: drive and service, in milliseconds. */
  lemma GreedyClockIs(d: Distance, o: Options, from: Coordinate, elapsed: real, route: seq<Stop>, k: nat)
    requires k < |route|
    ensures var speed := if o.averageSpeedKph < 5.0 then 5.0 else o.averageSpeedKph;
            GreedyClock(d, o, from, elapsed, route, 0) == elapsed
            && GreedyClock(d, o, from, elapsed, route, k + 1)
               == GreedyClock(d, o, from, elapsed, route, k)
                  + d(LastPlace(from, route[..k]), route[k].at) / speed * 3_600_000.0 + o.serviceMinutes * 60_000.0
    decreases k
  {
    if k == 0 {
      assert GreedyClock(d, o, from, elapsed, route, 1)
             == GreedyClock(d, o, route[0].at, Advance(d, o, from, elapsed, route[0]), route[1..], 0);
    } else {
      GreedyClockIs(d, o, route[0].at, Advance(d, o, from, elapsed, route[0]), route[1..], k - 1);
      TailOfRoute(route, from, k);
    }
  }

  /** One line of the timeline, in plain numbers: drive from the stop before at the planned speed, but
      at least 5 km/h; wait for the window if windows are respected; late exactly when the arrival
      is past the promise; leave after the service time. */
  lemma VisitIs(d: Distance, o: Options, start: Coordinate, route: seq<Stop>, k: nat)
    requires k < |route|
    ensures |Visits(d, o, start, o.startAt, route)| == |route|
    ensures var visits := Visits(d, o, start, o.startAt, route);
            var speed := if o.averageSpeedKph < 5.0 then 5.0 else o.averageSpeedKph;
            var from := if k == 0 then start else route[k - 1].at;
            var left := if k == 0 then o.startAt else visits[k - 1].departure;
            var reach := left + d(from, route[k].at) / speed * 3_600_000.0;
            var v := visits[k];
            && v.stop == route[k]
            && v.arrival == (if o.respectTimeWindows && route[k].windowStart.At? && route[k].windowStart.ms > reach
                             then route[k].windowStart.ms else reach)
            && v.wait == v.arrival - reach && v.departure == v.arrival + o.serviceMinutes * 60_000.0
            && (v.late <==> route[k].promisedAt.At? && v.arrival > route[k].promisedAt.ms)
  {
    VisitAt(d, o, start, o.startAt, route, k);
  }

  /** The duration is the least whole number of minutes that covers the route. */
  lemma DurationIs(o: Options, finish: real)
    ensures (DurationMinutes(o, finish) - 1) as real * 60_000.0 < finish - o.startAt
            <= DurationMinutes(o, finish) as real * 60_000.0
  {
    var minutes := (finish - o.startAt) / 60_000.0;
    assert minutes * 60_000.0 == finish - o.startAt;
    var n := DurationMinutes(o, finish);
    assert n == -((-minutes).Floor);
    assert (-minutes).Floor as real <= -minutes < (-minutes).Floor as real + 1.0;
  }

  /** The two refusals: too many minutes, or a finish after the end of the shift, which is the given
      instant, or the given time of day, of the next day where it is past at the start. */
  lemma RefusalsAre(o: Options, finish: real)
    ensures TooLong(o, finish) <==> o.maxRouteMinutes.Some? && DurationMinutes(o, finish) > o.maxRouteMinutes.value
    ensures PastShift(o, finish) <==>
              match o.shiftEnd
              case NoShiftEnd => false
              case Instant(ms) => finish > ms
              case TimeOfDay(minutes) =>
                var today := (o.startAt / 86_400_000.0).Floor as real * 86_400_000.0 + minutes * 60_000.0;
                finish > if today < o.startAt then today + 86_400_000.0 else today
  {
  }

  // ---------------------------------------------------------------------------
  // The plan
  // ---------------------------------------------------------------------------

  function Demand(stops: seq<Stop>): real {
    if stops == [] then 0.0 else stops[0].demandKg + Demand(stops[1..])
  }

  lemma TimedIs(route: seq<Stop>)
    ensures AnyTiming(route) <==>
              exists i :: 0 <= i < |route| && !(route[i].windowStart == Absent && route[i].promisedAt == Absent)
  {
    if i :| 0 <= i < |route| && !(route[i].windowStart == Absent && route[i].promisedAt == Absent) {
      assert HasTiming(route[i]);
    }
  }

  predicate HasTiming(stop: Stop) { stop.windowStart != Absent || stop.promisedAt != Absent }

  predicate AnyTiming(route: seq<Stop>) {
    exists i :: 0 <= i < |route| && HasTiming(route[i])
  }

  lemma {:induction false} DemandAppend(stops: seq<Stop>, stop: Stop)
    ensures Demand(stops + [stop]) == Demand(stops) + stop.demandKg
  {
    if stops == [] {
      assert stops + [stop] == [stop] && [stop][1..] == [];
    } else {
      assert (stops + [stop])[1..] == stops[1..] + [stop];
      DemandAppend(stops[1..], stop);
    }
  }

  /** The demand in plain terms: nothing for no stops, and each stop adds its kilograms once. */
  lemma DemandIs(stops: seq<Stop>, stop: Stop)
    ensures Demand([]) == 0.0 && Demand([stop]) == stop.demandKg
    ensures Demand(stops + [stop]) == Demand(stops) + stop.demandKg
  {
    DemandAppend(stops, stop);
    assert [stop][1..] == [];
    assert Demand([stop]) == stop.demandKg + Demand([]);
  }

  method TotalDemand(stops: seq<Stop>) returns (demand: real)
    ensures demand == Demand(stops)
  {
    demand := 0.0;
    for i := 0 to |stops|
      invariant demand == Demand(stops[..i])
    {
      assert stops[..i + 1] == stops[..i] + [stops[i]];
      DemandAppend(stops[..i], stops[i]);
      demand := demand + stops[i].demandKg;
    }
    assert stops[..|stops|] == stops;
  }

  /** What the route of a plan guarantees: the same stops, no longer than the greedy tour, in
      greedy order when some stop has a time constraint, and otherwise the result of reversals. */
  ghost predicate GoodRoute(d: Distance, o: Options, start: Coordinate, stops: seq<Stop>, route: seq<Stop>,
                            moves: nat) {
    var greedy := Greedy(d, o, start, o.startAt, stops);
    && multiset(route) == multiset(stops)
    && Improved(d, start, o.returnToDepot, greedy, route, moves)
    && (AnyTiming(stops) ==> route == greedy)
    && (!AnyTiming(stops) ==> LocallyOptimal(d, start, o.returnToDepot, route) || moves >= 50)
  }

  lemma TimingIsPermutationInvariant(a: seq<Stop>, b: seq<Stop>)
    requires multiset(a) == multiset(b)
    ensures AnyTiming(a) <==> AnyTiming(b)
  {
    forall s ensures s in a <==> s in b {
      assert s in multiset(a) <==> s in multiset(b);
    }
    if AnyTiming(a) {
      var i :| 0 <= i < |a| && HasTiming(a[i]);
      assert a[i] in b;
    }
    if AnyTiming(b) {
      var i :| 0 <= i < |b| && HasTiming(b[i]);
      assert b[i] in a;
    }
  }

  /** `capacityKg` is absent when the vehicle has no limit; `route` is the tour that was timed,
      whether or not its timing was accepted. */
  method OptimizeRoute(d: Distance, o: Options, start: Coordinate, stops: seq<Stop>, capacityKg: Option<real>)
    returns (r: Result<Plan>, ghost route: seq<Stop>, ghost moves: nat)
    ensures r == Err(OverCapacity) <==> capacityKg.Some? && Demand(stops) > capacityKg.value
    ensures r != Err(OverCapacity) ==>
              var finish := FinishAt(d, o, start, route);
              && GoodRoute(d, o, start, stops, route, moves)
              && (r == Err(OverTimeLimit) <==> TooLong(o, finish))
              && (r == Err(AfterShiftEnd) <==> !TooLong(o, finish) && PastShift(o, finish))
    ensures r.Ok? ==> var finish := FinishAt(d, o, start, route);
              r.value == Plan(route, Simulation(Visits(d, o, start, o.startAt, route),
                                                Length(d, start, route, o.returnToDepot),
                                                DurationMinutes(o, finish), finish), AnyTiming(stops))
  {
    route, moves := [], 0;
    var demand := TotalDemand(stops);
    if capacityKg.Some? && demand > capacityKg.value {
      return Err(OverCapacity), [], 0;
    }
    var greedy := BuildGreedy(d, o, start, stops);
    GreedyIsPermutation(d, o, start, o.startAt, stops);
    TimingIsPermutationInvariant(greedy, stops);
    var timed := exists i :: 0 <= i < |greedy| && HasTiming(greedy[i]);
    var tour := greedy;
    if !timed {
      var improved, passes;
      tour, improved, passes, moves := TwoOpt(d, start, o.returnToDepot, greedy);
    }
    route := tour;
    var simulation := Simulate(d, o, start, tour);
    match simulation
    case Ok(value) => r := Ok(Plan(tour, value, timed));
    case Err(error) => r := Err(error);
  }
}
