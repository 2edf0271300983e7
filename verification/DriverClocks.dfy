/**
 Orders and the positions of their drivers. Geofence events of an HTTP position carry the time of
 the last position of the order's driver (app.ts, 1482-1504), and that time does not go back for one
 driver; a socket position sets the time to the server's (realtime/socket.ts, 126-165).
 */
module DriverClocks {
  import opened Prelude
  import opened Geography
  import opened OrderTypes
  import opened Geofence
  import opened Orders
  import opened GeofenceAnalytics
  import LiveLocation

  datatype Recorded = Recorded(driver: nat, fix: LiveLocation.Fix)

  /** `looping` are the drivers with an HTTP position whose write succeeded and whose handler is in
      its loop over the driver's orders. */
  datatype Tracked = Tracked(world: World, live: seq<LiveLocation.Live>, history: seq<Recorded>, looping: set<nat>)

  /** Whether a position is within the two geofences of an order. */
  datatype Inside = Inside(atPickup: bool, atDropoff: bool)

  /** `Fix` is the first part of an HTTP position, `Handle(Locate(..))` its loop at one order and
      `EndLoop` the end of the loop. A socket position does everything at once: it reads the clock
      as `at` for the position and as `stamp` for the events, and answers whether or not its
      writes succeed. The other requests are as in the order machine. */
  datatype TrackedStep =
    | Fix(driver: nat, fix: LiveLocation.Fix, persisted: bool)
    | EndLoop(driver: nat)
    | Socket(driver: nat, at: int, stamp: int, place: Coordinate, inside: nat -> Inside, persisted: bool)
    | Handle(request: Request, at: int, persisted: bool)

  /** The time of the last position of the driver of an order. */
  function Clock(t: Tracked, i: nat): Option<int> {
    if i < |t.world.orders| && t.world.orders[i].driver.Some? && t.world.orders[i].driver.value < |t.live|
    then t.live[t.world.orders[i].driver.value].lastSeen
    else None
  }

  /** A handler is looping over the orders of the driver of this one. */
  predicate InLoop(t: Tracked, i: nat) {
    Clock(t, i).Some? && t.world.orders[i].driver.value in t.looping
  }

  function DoFix(t: Tracked, d: nat, fix: LiveLocation.Fix, persisted: bool): Tracked
    requires d < |t.live|
  {
    var current := LiveLocation.IsCurrent(t.live[d], fix);
    t.(live := t.live[d := LiveLocation.Take(t.live[d], fix)],
       history := t.history + if persisted then [Recorded(d, fix)] else [],
       looping := t.looping + if persisted && current then {d} else {})
  }

  /** The position at order `i`, if it is the driver's. */
  function LocateOne(w: World, d: nat, inside: Inside, stamp: int, i: nat): World {
    if i < |w.orders| && w.orders[i].driver == Some(d)
    then Apply(w, Step(Locate(i, inside.atPickup, inside.atDropoff), stamp, true))
    else w
  }

  /** The position at the first `n` orders, one after the other. */
  function LocateAll(w: World, d: nat, inside: nat -> Inside, stamp: int, n: nat): World {
    if n == 0 then w else LocateOne(LocateAll(w, d, inside, stamp, n - 1), d, inside(n - 1), stamp, n - 1)
  }

  function DoSocket(t: Tracked, d: nat, at: int, stamp: int, place: Coordinate, inside: nat -> Inside,
                    persisted: bool): Tracked
    requires d < |t.live|
  {
    t.(world := LocateAll(t.world, d, inside, stamp, |t.world.orders|),
       live := t.live[d := LiveLocation.Live(place, Some(at))],
       history := t.history + if persisted then [Recorded(d, LiveLocation.Fix(at, place))] else [])
  }

  function TrackedApply(t: Tracked, s: TrackedStep): Tracked {
    match s
    case Fix(d, fix, persisted) => if d < |t.live| then DoFix(t, d, fix, persisted) else t
    case EndLoop(d) => t.(looping := t.looping - {d})
    case Socket(d, at, stamp, place, inside, persisted) =>
      if d < |t.live| then DoSocket(t, d, at, stamp, place, inside, persisted) else t
    case Handle(request, at, persisted) =>
      if !request.Locate? then t.(world := Apply(t.world, Step(request, at, persisted)))
      else if InLoop(t, request.order) then
        t.(world := Apply(t.world, Step(request, Clock(t, request.order).value, persisted)))
      else t
  }

  /** What a position leaves behind: over HTTP the place and time if it is not older, over the socket
      always; and an entry in the history, if its write succeeds, current or not. */
  lemma PositionIs(t: Tracked, s: TrackedStep)
    requires (s.Fix? || s.Socket?) && s.driver < |t.live|
    ensures var fix := if s.Fix? then s.fix else LiveLocation.Fix(s.at, s.place);
            var last := t.live[s.driver];
            var t' := TrackedApply(t, s);
            && t'.history == t.history + (if s.persisted then [Recorded(s.driver, fix)] else [])
            && |t'.live| == |t.live| && (forall e :: 0 <= e < |t.live| && e != s.driver ==> t'.live[e] == t.live[e])
            && t'.live[s.driver] == (if s.Fix? && last.lastSeen.Some? && fix.at < last.lastSeen.value then last
                                     else LiveLocation.Live(fix.place, Some(fix.at)))
            && (s.Fix? ==> t'.world == t.world)
  {
  }

  function TrackedRun(t: Tracked, steps: seq<TrackedStep>): Tracked
    decreases |steps|
  {
    if steps == [] then t else TrackedRun(TrackedApply(t, steps[0]), steps[1..])
  }

  // ---------------------------------------------------------------------------
  // Writes that fail
  // ---------------------------------------------------------------------------

  predicate Fails(t: Tracked, s: TrackedStep) {
    match s
    case Fix(_, _, persisted) => !persisted
    case Handle(request, _, persisted) => !persisted && Check(t.world, request).Done?
    case _ => false
  }

  /** What a request whose write fails leaves changed: a position that is current and new moves the
      driver; the others as in the order machine. */
  predicate KeepsChange(t: Tracked, s: TrackedStep) {
    match s
    case Fix(d, fix, _) =>
      && d < |t.live| && LiveLocation.IsCurrent(t.live[d], fix)
      && t.live[d] != LiveLocation.Live(fix.place, Some(fix.at))
    case Handle(request, at, _) =>
      if request.Locate? then InLoop(t, request.order) && LeavesTrace(t.world, request, Clock(t, request.order).value)
      else LeavesTrace(t.world, request, at)
    case _ => false
  }

  /** A failed write leaves orders, drivers, positions and history as they were if and only if the
      request is none of these: a current position that is new, a position that causes a geofence
      event at an order, an exception report, and an acceptance (unless repeated within the same
      millisecond). */
  lemma FailureUndoneExactly(t: Tracked, s: TrackedStep)
    requires Fails(t, s)
    ensures TrackedApply(t, s) == t <==> !KeepsChange(t, s)
  {
    match s
    case Fix(d, fix, persisted) =>
      if d < |t.live| {
        LiveLocation.FailedFixUndoneExactly(t.live[d], fix);
        assert t.live[d := LiveLocation.Take(t.live[d], fix)][d] == LiveLocation.Take(t.live[d], fix);
      }
    case Handle(request, at, persisted) =>
      HandleUndoneExactly(t, request, at);
  }

  lemma HandleUndoneExactly(t: Tracked, r: Request, at: int)
    requires Check(t.world, r).Done?
    ensures TrackedApply(t, Handle(r, at, false)) == t <==> !KeepsChange(t, Handle(r, at, false))
  {
    if !r.Locate? {
      FailedWriteUndoneExactly(t.world, r, at);
    } else if InLoop(t, r.order) {
      FailedWriteUndoneExactly(t.world, r, Clock(t, r.order).value);
    }
  }

  /** After a position whose write failed no event is logged at the driver's orders, unless another
      of the driver's positions is still being handled. */
  lemma FailedFixLogsNothing(t: Tracked, d: nat, fix: LiveLocation.Fix, i: nat, inside: Inside, at: int,
                             persisted: bool)
    requires d < |t.live| && d !in t.looping && i < |t.world.orders| && t.world.orders[i].driver == Some(d)
    ensures var t' := TrackedApply(t, Fix(d, fix, false));
            && t'.history == t.history && t'.world == t.world
            && TrackedApply(t', Handle(Locate(i, inside.atPickup, inside.atDropoff), at, persisted)) == t'
  {
  }

  /** By its log, the order was rejected by its driver while it was at the place. */
  predicate HandedOver(events: Log, place: Place) {
    events != [] &&
    (|| HandedOver(events[..|events| - 1], place)
     || (events[|events| - 1].kind.Rejected? && VisitOf(events[..|events| - 1], place).Here?))
  }

  lemma HandedOverOneMore(events: Log, e: OrderEvent, place: Place)
    ensures HandedOver(events + [e], place) <==>
              (HandedOver(events, place) || (e.kind.Rejected? && VisitOf(events, place).Here?))
  {
    assert (events + [e])[..|events|] == events;
  }

  /** So the log holds a rejection after the arrival. */
  lemma {:induction false} HandedOverMeans(events: Log, place: Place)
    requires HandedOver(events, place)
    ensures exists j, k :: 0 <= j < k < |events| && events[j].kind == Arrived(place) && events[k].kind == Rejected
  {
    var front := events[..|events| - 1];
    if HandedOver(front, place) {
      HandedOverMeans(front, place);
      var j, k :| 0 <= j < k < |front| && front[j].kind == Arrived(place) && front[k].kind == Rejected;
      assert events[j].kind == Arrived(place) && events[k].kind == Rejected;
    } else {
      VisitMatchesEvents(front, place);
      var j :| 0 <= j < |front| && front[j].kind == Arrived(place);
      assert events[j].kind == Arrived(place);
    }
  }

  // ---------------------------------------------------------------------------
  // Invariant
  // ---------------------------------------------------------------------------

  /** Unless it was handed over, an open visit began no later than the clock of the order's
      driver shows, and a finished one did not end before it began. */
  predicate VisitOk(events: Log, place: Place, clock: Option<int>) {
    HandedOver(events, place) ||
    match VisitOf(events, place)
    case Never => true
    case Here(arrivedAt) => clock.Some? && arrivedAt <= clock.value
    case Gone(arrivedAt, departedAt) => arrivedAt <= departedAt
    case Odd => false
  }

  predicate VisitsOk(t: Tracked) {
    forall i: nat, place :: i < |t.world.orders| ==> VisitOk(t.world.orders[i].events, place, Clock(t, i))
  }

  ghost predicate TrackedInv(t: Tracked) {
    Inv(t.world) && VisitsOk(t)
  }

  /** A socket position that disturbs the clock of its driver: it sets it back, or reads two
      different times. */
  predicate Unsteady(t: Tracked, s: TrackedStep) {
    && s.Socket? && s.driver < |t.live|
    && (s.at != s.stamp || (t.live[s.driver].lastSeen.Some? && s.at < t.live[s.driver].lastSeen.value))
  }

  /** The driver's clock moves on, if at all. */
  lemma ClockMovesOn(t: Tracked, t': Tracked, d: nat)
    requires VisitsOk(t) && t'.world == t.world && d < |t.live| && |t'.live| == |t.live|
    requires forall e :: 0 <= e < |t.live| && e != d ==> t'.live[e] == t.live[e]
    requires t.live[d].lastSeen.Some? ==>
               t'.live[d].lastSeen.Some? && t.live[d].lastSeen.value <= t'.live[d].lastSeen.value
    ensures VisitsOk(t')
  {
    forall i: nat, place | i < |t'.world.orders| ensures VisitOk(t'.world.orders[i].events, place, Clock(t', i)) {
      assert VisitOk(t.world.orders[i].events, place, Clock(t, i));
    }
  }

  /** What a request other than a position does to one order: it keeps its driver and logs nothing
      about places, or it is given to a driver when it had none, or taken from one and logged as rejected. */
  ghost predicate KeepsTrack(o: Order, o': Order, at: int) {
    || (o'.events == o.events && o'.driver == o.driver)
    || (exists kind :: && o'.events == o.events + [OrderEvent(kind, at)] && !kind.Arrived? && !kind.Departed?
                       && (o'.driver == o.driver || o.driver.None? || kind.Rejected?))
  }

  lemma HandleKeepsTrack(w: World, r: Request, at: int, i: nat)
    requires Inv(w) && Check(w, r).Done? && !r.Locate? && !r.Create? && i < |w.orders|
    ensures i < |Effect(w, r, at).orders| && KeepsTrack(w.orders[i], Effect(w, r, at).orders[i], at)
  {
    assert OrderOk(w, w.orders[i]);
    EffectKeepsCount(w, r, at);
    var o' := Effect(w, r, at).orders[i];
    if o'.events != w.orders[i].events {
      var kind := match r
        case Assign(_, _) => Changed(Assigned)
        case SetStatus(_, to, _) => Changed(to)
        case Accept(_, _) => Accepted
        case Reject(_, _) => Rejected
        case Cancel(_) => Changed(Cancelled)
        case Prove(_, _, _) => Changed(Delivered)
        case Note(_, name) => Other(name)
        case Report(_, _) => Exception
        case _ => Rejected;
      assert o'.events == w.orders[i].events + [OrderEvent(kind, at)];
    }
  }

  lemma TrackKeepsVisit(o: Order, o': Order, at: int, place: Place, clock: Option<int>, clock': Option<int>)
    requires KeepsTrack(o, o', at) && VisitOk(o.events, place, clock)
    requires o.driver.None? ==> clock.None?
    requires o'.driver == o.driver ==> clock' == clock
    ensures VisitOk(o'.events, place, clock')
  {
    if !(o'.events == o.events && o'.driver == o.driver) {
      var kind :| && o'.events == o.events + [OrderEvent(kind, at)] && !kind.Arrived? && !kind.Departed?
                  && (o'.driver == o.driver || o.driver.None? || kind.Rejected?);
      HandedOverOneMore(o.events, OrderEvent(kind, at), place);
      VisitOneMore(o.events, OrderEvent(kind, at));
    }
  }

  lemma CreateKeepsTracked(t: Tracked, weightKg: real, at: int)
    requires TrackedInv(t)
    ensures TrackedInv(t.(world := Effect(t.world, Create(weightKg), at)))
  {
    var t' := t.(world := Effect(t.world, Create(weightKg), at));
    CreateKeepsInv(t.world, weightKg, at);
    forall i: nat, place | i < |t'.world.orders| ensures VisitOk(t'.world.orders[i].events, place, Clock(t', i)) {
      if i == 0 {
        VisitOneMore([], OrderEvent(Created, at));
        assert [] + [OrderEvent(Created, at)] == [OrderEvent(Created, at)];
      } else {
        assert t'.world.orders[i] == t.world.orders[i - 1];
        assert VisitOk(t.world.orders[i - 1].events, place, Clock(t, i - 1));
      }
    }
  }

  lemma HandleKeepsTracked(t: Tracked, r: Request, at: int)
    requires TrackedInv(t) && Check(t.world, r).Done? && !r.Locate? && !r.Create?
    ensures TrackedInv(t.(world := Effect(t.world, r, at)))
  {
    var t' := t.(world := Effect(t.world, r, at));
    EffectKeepsInv(t.world, r, at);
    EffectKeepsCount(t.world, r, at);
    forall i: nat, place | i < |t'.world.orders| ensures VisitOk(t'.world.orders[i].events, place, Clock(t', i)) {
      HandleKeepsTrack(t.world, r, at, i);
      assert VisitOk(t.world.orders[i].events, place, Clock(t, i));
      TrackKeepsVisit(t.world.orders[i], t'.world.orders[i], at, place, Clock(t, i), Clock(t', i));
    }
  }

  lemma {:induction false} PlacesKeepHandover(events: Log, kinds: seq<EventType>, at: int, place: Place)
    requires forall k :: 0 <= k < |kinds| ==> kinds[k].Arrived? || kinds[k].Departed?
    ensures HandedOver(LogAll(events, kinds, at), place) <==> HandedOver(events, place)
    decreases |kinds|
  {
    if kinds != [] {
      HandedOverOneMore(events, OrderEvent(kinds[0], at), place);
      PlacesKeepHandover(events + [OrderEvent(kinds[0], at)], kinds[1..], at, place);
    }
  }

  lemma LocateKeepsVisit(o: Order, atPickup: bool, atDropoff: bool, now: int, place: Place)
    requires forall p :: !VisitOf(o.events, p).Odd?
    requires VisitOk(o.events, place, Some(now))
    ensures VisitOk(LogAll(o.events, GeofenceTransitions(o.status, o.events, atPickup, atDropoff), now), place,
                    Some(now))
  {
    TransitionsAreMoves(o.status, o.events, atPickup, atDropoff);
    PlacesKeepHandover(o.events, GeofenceTransitions(o.status, o.events, atPickup, atDropoff), now, place);
    TransitionsKeepVisits(o.status, o.events, atPickup, atDropoff, now);
  }

  lemma LocateKeepsTracked(t: Tracked, i: nat, atPickup: bool, atDropoff: bool, persisted: bool)
    requires TrackedInv(t) && Clock(t, i).Some?
    ensures TrackedInv(t.(world := Apply(t.world, Step(Locate(i, atPickup, atDropoff), Clock(t, i).value, persisted))))
  {
    var now := Clock(t, i).value;
    var t' := t.(world := Apply(t.world, Step(Locate(i, atPickup, atDropoff), now, persisted)));
    LocateKeepsInv(t.world, i, atPickup, atDropoff, now);
    assert OrderOk(t.world, t.world.orders[i]);
    forall j: nat, place | j < |t'.world.orders| ensures VisitOk(t'.world.orders[j].events, place, Clock(t', j)) {
      assert VisitOk(t.world.orders[j].events, place, Clock(t, j));
      if j == i {
        LocateKeepsVisit(t.world.orders[i], atPickup, atDropoff, now, place);
      }
    }
  }

  lemma {:induction false} LocateAllKeepsInv(w: World, d: nat, inside: nat -> Inside, stamp: int, n: nat)
    requires Inv(w)
    ensures Inv(LocateAll(w, d, inside, stamp, n))
  {
    if n > 0 {
      LocateAllKeepsInv(w, d, inside, stamp, n - 1);
      var before := LocateAll(w, d, inside, stamp, n - 1);
      var here := inside(n - 1);
      LocateOneKeepsInv(before, d, here, stamp, n - 1);
      assert LocateAll(w, d, inside, stamp, n) == LocateOne(before, d, here, stamp, n - 1);
    }
  }

  lemma LocateOneKeepsInv(w: World, d: nat, inside: Inside, stamp: int, i: nat)
    requires Inv(w)
    ensures Inv(LocateOne(w, d, inside, stamp, i))
  {
    StepKeepsInv(w, Step(Locate(i, inside.atPickup, inside.atDropoff), stamp, true));
  }

  lemma LocateOneKeepsTracked(t: Tracked, d: nat, inside: Inside, stamp: int, i: nat)
    requires TrackedInv(t) && d < |t.live| && t.live[d].lastSeen == Some(stamp)
    ensures TrackedInv(t.(world := LocateOne(t.world, d, inside, stamp, i)))
  {
    if i < |t.world.orders| && t.world.orders[i].driver == Some(d) {
      LocateKeepsTracked(t, i, inside.atPickup, inside.atDropoff, true);
    }
  }

  lemma {:induction false} LocateAllKeepsTracked(t: Tracked, d: nat, inside: nat -> Inside, stamp: int, n: nat)
    requires TrackedInv(t) && d < |t.live| && t.live[d].lastSeen == Some(stamp)
    ensures TrackedInv(t.(world := LocateAll(t.world, d, inside, stamp, n)))
  {
    if n > 0 {
      LocateAllKeepsTracked(t, d, inside, stamp, n - 1);
      var before := t.(world := LocateAll(t.world, d, inside, stamp, n - 1));
      var here := inside(n - 1);
      LocateOneKeepsTracked(before, d, here, stamp, n - 1);
      assert LocateAll(t.world, d, inside, stamp, n) == LocateOne(before.world, d, here, stamp, n - 1);
    }
  }

  /** Every position and every request keeps the invariant of the order machine. */
  lemma TrackedStepKeepsWorld(t: Tracked, s: TrackedStep)
    requires Inv(t.world)
    ensures Inv(TrackedApply(t, s).world)
  {
    match s
    case Fix(_, _, _) =>
    case EndLoop(_) =>
    case Socket(d, at, stamp, place, inside, persisted) =>
      LocateAllKeepsInv(t.world, d, inside, stamp, |t.world.orders|);
    case Handle(request, at, persisted) =>
      StepKeepsInv(t.world, Step(request, at, persisted));
      if request.Locate? && InLoop(t, request.order) {
        StepKeepsInv(t.world, Step(request, Clock(t, request.order).value, persisted));
      }
  }

  /** And, unless it is a socket position that disturbs a clock, what is known about open visits. */
  lemma TrackedStepKeepsInv(t: Tracked, s: TrackedStep)
    requires TrackedInv(t) && !Unsteady(t, s)
    ensures TrackedInv(TrackedApply(t, s))
  {
    match s
    case Fix(d, fix, persisted) =>
      if d < |t.live| {
        ClockMovesOn(t, TrackedApply(t, s), d);
      }
    case EndLoop(_) => SameVisits(t, TrackedApply(t, s));
    case Socket(d, at, stamp, place, inside, persisted) =>
      if d < |t.live| {
        SocketKeepsTracked(t, d, at, place, inside, persisted);
      }
    case Handle(request, at, persisted) =>
      if request.Locate? {
        if InLoop(t, request.order) {
          LocateKeepsTracked(t, request.order, request.atPickup, request.atDropoff, persisted);
        }
      } else if TakesEffect(t.world, request, persisted) {
        if request.Create? {
          CreateKeepsTracked(t, request.weightKg, at);
        } else {
          HandleKeepsTracked(t, request, at);
        }
      }
  }

  lemma SameVisits(t: Tracked, t': Tracked)
    requires TrackedInv(t) && t'.world == t.world && t'.live == t.live
    ensures TrackedInv(t')
  {
    forall i: nat, place | i < |t'.world.orders| ensures VisitOk(t'.world.orders[i].events, place, Clock(t', i)) {
      assert VisitOk(t.world.orders[i].events, place, Clock(t, i));
    }
  }

  lemma SocketKeepsTracked(t: Tracked, d: nat, at: int, place: Coordinate, inside: nat -> Inside, persisted: bool)
    requires TrackedInv(t) && d < |t.live|
    requires t.live[d].lastSeen.Some? ==> t.live[d].lastSeen.value <= at
    ensures TrackedInv(DoSocket(t, d, at, at, place, inside, persisted))
  {
    var moved := t.(live := t.live[d := LiveLocation.Live(place, Some(at))]);
    ClockMovesOn(t, moved, d);
    LocateAllKeepsTracked(moved, d, inside, at, |t.world.orders|);
    SameVisits(moved.(world := LocateAll(t.world, d, inside, at, |t.world.orders|)),
               DoSocket(t, d, at, at, place, inside, persisted));
  }

  /** No socket position of the run disturbs a clock. */
  ghost predicate Steady(t: Tracked, steps: seq<TrackedStep>)
    decreases |steps|
  {
    steps != [] ==> !Unsteady(t, steps[0]) && Steady(TrackedApply(t, steps[0]), steps[1..])
  }

  lemma {:induction false} TrackedRunKeepsInv(t: Tracked, steps: seq<TrackedStep>)
    requires TrackedInv(t) && Steady(t, steps)
    ensures TrackedInv(TrackedRun(t, steps))
    decreases |steps|
  {
    if steps != [] {
      TrackedStepKeepsInv(t, steps[0]);
      TrackedRunKeepsInv(TrackedApply(t, steps[0]), steps[1..]);
    }
  }

  lemma {:induction false} TrackedRunKeepsWorld(t: Tracked, steps: seq<TrackedStep>)
    requires Inv(t.world)
    ensures Inv(TrackedRun(t, steps).world)
    decreases |steps|
  {
    if steps != [] {
      TrackedStepKeepsWorld(t, steps[0]);
      TrackedRunKeepsWorld(TrackedApply(t, steps[0]), steps[1..]);
    }
  }

  // ---------------------------------------------------------------------------
  // When a departure can be backdated
  // ---------------------------------------------------------------------------

  /** Over every run, whatever the clocks of the phones say: a departure is stamped before its
      arrival only on an order that its driver rejected in between, or when a socket position
      disturbed a clock. */
  lemma BackdatedNeedsHandover(t: Tracked, steps: seq<TrackedStep>, i: nat, place: Place)
    requires Fresh(t.world) && i < |TrackedRun(t, steps).world.orders|
    requires Backdated(TrackedRun(t, steps).world.orders[i].events, place)
    ensures HandedOver(TrackedRun(t, steps).world.orders[i].events, place) || !Steady(t, steps)
  {
    if Steady(t, steps) {
      TrackedRunKeepsInv(t, steps);
      var t' := TrackedRun(t, steps);
      assert VisitOk(t'.world.orders[i].events, place, Clock(t', i));
    }
  }

  function LogsOf(w: World): seq<Log> {
    seq(|w.orders|, i requires 0 <= i < |w.orders| => w.orders[i].events)
  }

  /** So over every run without such a hand-over or socket position the analytics figures agree. */
  lemma FiguresAgreeWithoutHandover(t: Tracked, steps: seq<TrackedStep>)
    requires Fresh(t.world) && Steady(t, steps)
    requires forall i: nat, place :: i < |TrackedRun(t, steps).world.orders| ==>
               !HandedOver(TrackedRun(t, steps).world.orders[i].events, place)
    ensures var f := FiguresOf(LogsOf(TrackedRun(t, steps).world));
            f.currentlyInside == f.arrivals - f.departures && f.dwellSamples == f.departures
  {
    TrackedRunKeepsWorld(t, steps);
    var w := TrackedRun(t, steps).world;
    forall i, place | 0 <= i < |w.orders|
      ensures !VisitOf(w.orders[i].events, place).Odd? && !Backdated(w.orders[i].events, place)
    {
      assert OrderOk(w, w.orders[i]);
      if Backdated(w.orders[i].events, place) {
        BackdatedNeedsHandover(t, steps, i, place);
      }
    }
    FiguresAgreeExactly(LogsOf(w));
  }

  // ---------------------------------------------------------------------------
  // Runs that do it
  // ---------------------------------------------------------------------------

  const Somewhere := Coordinate(0.0, 0.0)

  /** Two drivers, the first of them perhaps with positions recorded, and one order. */
  function OneOrder(status: Status, driver: Option<nat>, events: Log, updatedAt: int, first: Driver, second: Driver,
                    seen: Option<int>, seenToo: Option<int>): Tracked {
    Tracked(World([Order(1.0, status, driver, None, None, events, updatedAt)], [first, second]),
            [LiveLocation.Live(Somewhere, seen), LiveLocation.Live(Somewhere, seenToo)],
            (if seen.Some? then [Recorded(0, LiveLocation.Fix(seen.value, Somewhere))] else [])
            + (if seenToo.Some? then [Recorded(1, LiveLocation.Fix(seenToo.value, Somewhere))] else []),
            (if seen.Some? then {0} else {}) + (if seenToo.Some? then {1} else {}))
  }

  const Free := Driver(Available, 1.0)
  const AtWork := Driver(Busy, 1.0)
  const Log1: Log := [OrderEvent(Created, 0)]
  const Log2: Log := Log1 + [OrderEvent(Changed(Assigned), 1)]
  const Log3: Log := Log2 + [OrderEvent(Arrived(Pickup), 10)]
  const Log4: Log := Log3 + [OrderEvent(Rejected, 11)]
  const Log5: Log := Log4 + [OrderEvent(Changed(Assigned), 12)]
  const Log6: Log := Log5 + [OrderEvent(Departed(Pickup), 5)]

  lemma VisitsOfLogs()
    ensures VisitOf(Log2, Pickup) == Never && VisitOf(Log5, Pickup) == Here(10) && VisitOf(Log6, Pickup) == Gone(10, 5)
  {
    assert VisitOf(Log1[..0], Pickup) == Never;
    assert Log1[..|Log1| - 1] == Log1[..0];
    VisitOneMore(Log1, OrderEvent(Changed(Assigned), 1));
    VisitOneMore(Log2, OrderEvent(Arrived(Pickup), 10));
    VisitOneMore(Log3, OrderEvent(Rejected, 11));
    VisitOneMore(Log4, OrderEvent(Changed(Assigned), 12));
    VisitOneMore(Log5, OrderEvent(Departed(Pickup), 5));
  }

  lemma LogOne(events: Log, status: Status, atPickup: bool, kind: EventType, at: int)
    requires Move(status, events, Pickup, atPickup) == [kind] && status.Assigned?
    ensures LogAll(events, GeofenceTransitions(status, events, atPickup, false), at) == events + [OrderEvent(kind, at)]
  {
    assert [kind][1..] == [] && [kind] + [] == [kind];
    assert GeofenceTransitions(status, events, atPickup, false) == [kind];
    assert LogAll(events, [kind], at) == LogAll(events + [OrderEvent(kind, at)], [], at);
  }

  const FirstHalf := [Handle(Create(1.0), 0, true), Handle(Assign(0, 0), 1, true),
                      Fix(0, LiveLocation.Fix(10, Somewhere), true), Handle(Locate(0, true, false), 0, true)]
  const SecondHalf := [Handle(Reject(0, 0), 11, true), Handle(Assign(0, 1), 12, true),
                       Fix(1, LiveLocation.Fix(5, Somewhere), true), Handle(Locate(0, false, false), 0, true)]
  const Ready := Tracked(World([], [Free, Free]),
                         [LiveLocation.Live(Somewhere, None), LiveLocation.Live(Somewhere, None)], [], {})

  lemma RunFour(t: Tracked, a: TrackedStep, b: TrackedStep, c: TrackedStep, d: TrackedStep)
    ensures TrackedRun(t, [a, b, c, d]) == TrackedApply(TrackedApply(TrackedApply(TrackedApply(t, a), b), c), d)
  {
    assert [a, b, c, d][1..] == [b, c, d] && [b, c, d][1..] == [c, d] && [c, d][1..] == [d] && [d][1..] == [];
    var t2 := TrackedApply(TrackedApply(t, a), b);
    assert TrackedRun(t2, [c, d]) == TrackedRun(TrackedApply(t2, c), [d]);
    assert TrackedRun(TrackedApply(t2, c), [d]) == TrackedRun(TrackedApply(TrackedApply(t2, c), d), []);
  }

  lemma GivenToFirst()
    ensures TrackedApply(TrackedApply(Ready, FirstHalf[0]), FirstHalf[1])
            == OneOrder(Assigned, Some(0), Log2, 1, AtWork, Free, None, None)
  {
    var t1 := TrackedApply(Ready, FirstHalf[0]);
    assert t1 == OneOrder(Pending, None, Log1, 0, Free, Free, None, None);
  }

  lemma FirstHalfArrives()
    ensures TrackedRun(Ready, FirstHalf) == OneOrder(Assigned, Some(0), Log3, 10, AtWork, Free, Some(10), None)
  {
    RunFour(Ready, FirstHalf[0], FirstHalf[1], FirstHalf[2], FirstHalf[3]);
    GivenToFirst();
    var t3 := TrackedApply(OneOrder(Assigned, Some(0), Log2, 1, AtWork, Free, None, None), FirstHalf[2]);
    assert t3 == OneOrder(Assigned, Some(0), Log2, 1, AtWork, Free, Some(10), None);
    VisitsOfLogs();
    VisitMatchesEvents(Log2, Pickup);
    LogOne(Log2, Assigned, true, Arrived(Pickup), 10);
  }

  lemma GivenToSecond()
    ensures var t := OneOrder(Assigned, Some(0), Log3, 10, AtWork, Free, Some(10), None);
            TrackedApply(TrackedApply(t, SecondHalf[0]), SecondHalf[1])
            == OneOrder(Assigned, Some(1), Log5, 12, Free, AtWork, Some(10), None)
  {
    var t4 := TrackedApply(OneOrder(Assigned, Some(0), Log3, 10, AtWork, Free, Some(10), None), SecondHalf[0]);
    assert t4 == OneOrder(Pending, None, Log4, 11, Free, Free, Some(10), None);
  }

  lemma SecondHalfDeparts()
    ensures TrackedRun(OneOrder(Assigned, Some(0), Log3, 10, AtWork, Free, Some(10), None), SecondHalf)
            == OneOrder(Assigned, Some(1), Log6, 5, Free, AtWork, Some(10), Some(5))
  {
    var t3 := OneOrder(Assigned, Some(0), Log3, 10, AtWork, Free, Some(10), None);
    RunFour(t3, SecondHalf[0], SecondHalf[1], SecondHalf[2], SecondHalf[3]);
    GivenToSecond();
    var t6 := TrackedApply(OneOrder(Assigned, Some(1), Log5, 12, Free, AtWork, Some(10), None), SecondHalf[2]);
    assert t6 == OneOrder(Assigned, Some(1), Log5, 12, Free, AtWork, Some(10), Some(5));
    VisitsOfLogs();
    VisitMatchesEvents(Log5, Pickup);
    LogOne(Log5, Assigned, false, Departed(Pickup), 5);
  }

  lemma {:induction false} TrackedRunConcat(t: Tracked, first: seq<TrackedStep>, second: seq<TrackedStep>)
    ensures TrackedRun(t, first + second) == TrackedRun(TrackedRun(t, first), second)
    decreases |first|
  {
    if first == [] {
      assert first + second == second;
    } else {
      assert (first + second)[1..] == first[1..] + second;
      TrackedRunConcat(TrackedApply(t, first[0]), first[1..], second);
    }
  }

  /** Arrival under one driver at 10, rejection, assignment to another whose clock is behind,
      departure at 5: the order has left, and the figures say it is inside. */
  lemma HandoverCanBackdate()
    ensures Fresh(Ready.world) && Steady(Ready, FirstHalf + SecondHalf)
    ensures var w := TrackedRun(Ready, FirstHalf + SecondHalf).world;
            && |w.orders| == 1 && Backdated(w.orders[0].events, Pickup)
            && var f := FiguresOf(LogsOf(w));
               f.dwellSamples != f.departures || f.currentlyInside != f.arrivals - f.departures
  {
    TrackedRunConcat(Ready, FirstHalf, SecondHalf);
    FirstHalfArrives();
    SecondHalfDeparts();
    VisitsOfLogs();
    var w := TrackedRun(Ready, FirstHalf + SecondHalf).world;
    assert w.orders[0].events == Log6;
    NoSocketIsSteady(Ready, FirstHalf + SecondHalf);
    BackdatedFiguresDiffer(Ready, FirstHalf + SecondHalf);
  }

  lemma {:induction false} NoSocketIsSteady(t: Tracked, steps: seq<TrackedStep>)
    requires forall k :: 0 <= k < |steps| ==> !steps[k].Socket?
    ensures Steady(t, steps)
    decreases |steps|
  {
    if steps != [] {
      NoSocketIsSteady(TrackedApply(t, steps[0]), steps[1..]);
    }
  }

  lemma BackdatedFiguresDiffer(t: Tracked, steps: seq<TrackedStep>)
    requires Fresh(t.world)
    requires var w := TrackedRun(t, steps).world; |w.orders| == 1 && Backdated(w.orders[0].events, Pickup)
    ensures var f := FiguresOf(LogsOf(TrackedRun(t, steps).world));
            f.dwellSamples != f.departures || f.currentlyInside != f.arrivals - f.departures
  {
    var w := TrackedRun(t, steps).world;
    TrackedRunKeepsWorld(t, steps);
    assert OrderOk(w, w.orders[0]);
    assert Backdated(LogsOf(w)[0], Pickup);
    FiguresAgreeExactly(LogsOf(w));
  }

  const SocketAtFive := Socket(0, 5, 5, Somewhere, (i: nat) => Inside(false, false), true)

  /** Arrival at 10 by the phone's clock, which runs ahead, and departure at 5 by the server's, over
      the socket: no rejection, and the figures differ just the same. */
  lemma SocketCanBackdate()
    ensures Fresh(Ready.world)
    ensures var w := TrackedRun(Ready, FirstHalf + [SocketAtFive]).world;
            && |w.orders| == 1 && Backdated(w.orders[0].events, Pickup) && !HandedOver(w.orders[0].events, Pickup)
            && var f := FiguresOf(LogsOf(w));
               f.dwellSamples != f.departures || f.currentlyInside != f.arrivals - f.departures
  {
    TrackedRunConcat(Ready, FirstHalf, [SocketAtFive]);
    FirstHalfArrives();
    var t := OneOrder(Assigned, Some(0), Log3, 10, AtWork, Free, Some(10), None);
    assert [SocketAtFive][1..] == [];
    assert TrackedRun(t, [SocketAtFive]) == TrackedRun(TrackedApply(t, SocketAtFive), []);
    SocketDeparts(t.world);
    BackdatedFiguresDiffer(Ready, FirstHalf + [SocketAtFive]);
  }

  const Log4Socket: Log := Log3 + [OrderEvent(Departed(Pickup), 5)]

  lemma SocketDeparts(w: World)
    requires w.orders == [Order(1.0, Assigned, Some(0), None, None, Log3, 10)]
    ensures LocateAll(w, 0, SocketAtFive.inside, 5, 1).orders
            == [Order(1.0, Assigned, Some(0), None, None, Log4Socket, 5)]
    ensures Backdated(Log4Socket, Pickup) && !HandedOver(Log4Socket, Pickup)
  {
    VisitsOfLogs();
    VisitOneMore(Log2, OrderEvent(Arrived(Pickup), 10));
    VisitMatchesEvents(Log3, Pickup);
    LogOne(Log3, Assigned, false, Departed(Pickup), 5);
    VisitOneMore(Log3, OrderEvent(Departed(Pickup), 5));
    NotHandedOver();
    assert LocateAll(w, 0, SocketAtFive.inside, 5, 0) == w;
  }

  lemma NotHandedOver()
    ensures !HandedOver(Log4Socket, Pickup)
  {
    HandedOverOneMore([], OrderEvent(Created, 0), Pickup);
    HandedOverOneMore(Log1, OrderEvent(Changed(Assigned), 1), Pickup);
    HandedOverOneMore(Log2, OrderEvent(Arrived(Pickup), 10), Pickup);
    HandedOverOneMore(Log3, OrderEvent(Departed(Pickup), 5), Pickup);
    assert [] + [OrderEvent(Created, 0)] == Log1;
  }
}
