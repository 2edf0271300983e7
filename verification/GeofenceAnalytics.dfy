/** The geofence figures of the analytics summary (store.ts, 441-481). */
module GeofenceAnalytics {
  import opened Prelude
  import opened OrderTypes
  import opened Geofence
  import opened Orders

  type Log = seq<OrderEvent>

  /** Time spent at a place, in milliseconds per completed visit, and whether a visit is open. */
  datatype Session = Session(dwell: seq<int>, inside: bool)

  predicate About(e: OrderEvent, place: Place) { e.kind == Arrived(place) || e.kind == Departed(place) }

  function Relevant(events: Log, place: Place): Log {
    if events == [] then []
    else
      var front, last := events[..|events| - 1], events[|events| - 1];
      Relevant(front, place) + if About(last, place) then [last] else []
  }

  /** Stable sort by time. */
  function InsertByTime(e: OrderEvent, sorted: Log): Log {
    if sorted == [] || sorted[0].at >= e.at then [e] + sorted else [sorted[0]] + InsertByTime(e, sorted[1..])
  }

  function ByTime(events: Log): Log {
    if events == [] then [] else InsertByTime(events[0], ByTime(events[1..]))
  }

  function Positive(ms: int): int { if ms > 0 then ms else 0 }

  /** The session read off the sorted events, with the arrival time still open. */
  function SessionFrom(sorted: Log, arrivedAt: Option<int>): Session
    decreases |sorted|
  {
    if sorted == [] then Session([], arrivedAt.Some?)
    else if sorted[0].kind.Arrived? then SessionFrom(sorted[1..], Some(sorted[0].at))
    else if arrivedAt.Some? then
      var rest := SessionFrom(sorted[1..], None);
      Session([Positive(sorted[0].at - arrivedAt.value)] + rest.dwell, rest.inside)
    else SessionFrom(sorted[1..], None)
  }

  /** The session loop of the source. */
  method ReadSession(events: Log, place: Place) returns (session: Session)
    ensures session == SessionFrom(ByTime(Relevant(events, place)), None)
  {
    var relevant := ByTime(Relevant(events, place));
    var dwell: seq<int> := [];
    var arrivedAt: Option<int> := None;
    for i := 0 to |relevant|
      invariant SessionFrom(relevant, None)
                == Session(dwell + SessionFrom(relevant[i..], arrivedAt).dwell,
                           SessionFrom(relevant[i..], arrivedAt).inside)
    {
      var e := relevant[i];
      assert relevant[i..][0] == e && relevant[i..][1..] == relevant[i + 1..];
      if e.kind.Arrived? {
        arrivedAt := Some(e.at);
      } else if arrivedAt.Some? {
        dwell := dwell + [Positive(e.at - arrivedAt.value)];
        arrivedAt := None;
      }
    }
    session := Session(dwell, arrivedAt.Some?);
  }

  function SessionOf(events: Log, place: Place): Session { SessionFrom(ByTime(Relevant(events, place)), None) }

  /** A departure stamped earlier than its arrival. */
  predicate Backdated(events: Log, place: Place) {
    VisitOf(events, place).Gone? && VisitOf(events, place).departedAt < VisitOf(events, place).arrivedAt
  }

  lemma {:induction false} RelevantIsVisit(events: Log, place: Place)
    requires !VisitOf(events, place).Odd?
    ensures Relevant(events, place) ==
            match VisitOf(events, place)
            case Never => []
            case Here(a) => [OrderEvent(Arrived(place), a)]
            case Gone(a, b) => [OrderEvent(Arrived(place), a), OrderEvent(Departed(place), b)]
            case Odd => []
  {
    if events != [] {
      RelevantIsVisit(events[..|events| - 1], place);
    }
  }

  lemma SortTwo(a: OrderEvent, b: OrderEvent)
    ensures ByTime([]) == [] && ByTime([a]) == [a]
    ensures ByTime([a, b]) == if b.at >= a.at then [a, b] else [b, a]
  {
    assert [a][1..] == [] && [b][1..] == [] && [a, b][1..] == [b];
    assert ByTime([b]) == [b];
  }

  /** A regular history gives exactly the session one expects, unless the departure is stamped
      before the arrival: then the visit counts as open and has no dwell time. */
  lemma SessionOfVisit(events: Log, place: Place)
    requires !VisitOf(events, place).Odd?
    ensures SessionOf(events, place) ==
            match VisitOf(events, place)
            case Never => Session([], false)
            case Here(_) => Session([], true)
            case Gone(a, b) => if a <= b then Session([b - a], false) else Session([], true)
            case Odd => Session([], false)
  {
    RelevantIsVisit(events, place);
    match VisitOf(events, place)
    case Never =>
    case Here(a) =>
      var arrival := OrderEvent(Arrived(place), a);
      SortTwo(arrival, arrival);
      assert [arrival][1..] == [];
      assert SessionFrom([arrival], None) == SessionFrom([], Some(a));
    case Gone(a, b) =>
      var arrival, departure := OrderEvent(Arrived(place), a), OrderEvent(Departed(place), b);
      SortTwo(arrival, departure);
      assert [arrival, departure][1..] == [departure] && [departure][1..] == [];
      assert [departure, arrival][1..] == [arrival] && [arrival][1..] == [];
      assert SessionFrom([departure], Some(a)) == Session([Positive(b - a)], false) by {
        assert [Positive(b - a)] + [] == [Positive(b - a)];
      }
      assert SessionFrom([arrival], None) == Session([], true);
    case Odd => assert false;
  }

  // ---------------------------------------------------------------------------
  // Totals
  // ---------------------------------------------------------------------------

  function Arrivals(events: Log): nat {
    if events == [] then 0
    else Arrivals(events[..|events| - 1]) + if events[|events| - 1].kind.Arrived? then 1 else 0
  }

  function Departures(events: Log): nat {
    if events == [] then 0
    else Departures(events[..|events| - 1]) + if events[|events| - 1].kind.Departed? then 1 else 0
  }

  datatype Figures = Figures(arrivals: nat, departures: nat, currentlyInside: nat, dwellSamples: nat, backdated: nat)

  function One(b: bool): nat { if b then 1 else 0 }

  /** The figures summed over all orders; `backdated` is not part of the summary. */
  function FiguresOf(logs: seq<Log>): Figures {
    if logs == [] then Figures(0, 0, 0, 0, 0)
    else
      var rest := FiguresOf(logs[1..]);
      var pickup, dropoff := SessionOf(logs[0], Pickup), SessionOf(logs[0], Dropoff);
      Figures(Arrivals(logs[0]) + rest.arrivals, Departures(logs[0]) + rest.departures,
              One(pickup.inside) + One(dropoff.inside) + rest.currentlyInside,
              |pickup.dwell| + |dropoff.dwell| + rest.dwellSamples,
              One(Backdated(logs[0], Pickup)) + One(Backdated(logs[0], Dropoff)) + rest.backdated)
  }

  function Flat(logs: seq<Log>): Log {
    if logs == [] then [] else logs[0] + Flat(logs[1..])
  }

  function Kinds(events: Log): multiset<EventType> {
    multiset(seq(|events|, i requires 0 <= i < |events| => events[i].kind))
  }

  lemma {:induction false} CountsOfLog(events: Log)
    ensures Arrivals(events) == Kinds(events)[Arrived(Pickup)] + Kinds(events)[Arrived(Dropoff)]
    ensures Departures(events) == Kinds(events)[Departed(Pickup)] + Kinds(events)[Departed(Dropoff)]
  {
    if events != [] {
      var front, last := events[..|events| - 1], events[|events| - 1];
      CountsOfLog(front);
      assert seq(|events|, i requires 0 <= i < |events| => events[i].kind)
             == seq(|front|, i requires 0 <= i < |front| => front[i].kind) + [last.kind];
      assert Kinds(events) == Kinds(front) + multiset{last.kind};
      assert last.kind.Arrived? || last.kind.Departed? ==> last.kind.place == Pickup || last.kind.place == Dropoff;
    }
  }

  lemma KindsConcat(a: Log, b: Log)
    ensures Kinds(a + b) == Kinds(a) + Kinds(b)
  {
    assert seq(|a + b|, i requires 0 <= i < |a + b| => (a + b)[i].kind)
           == seq(|a|, i requires 0 <= i < |a| => a[i].kind) + seq(|b|, i requires 0 <= i < |b| => b[i].kind);
  }

  /** Arrivals and departures are the events of these kinds in all logs together. */
  lemma {:induction false} FiguresCountEvents(logs: seq<Log>)
    ensures var kinds := Kinds(Flat(logs));
            && FiguresOf(logs).arrivals == kinds[Arrived(Pickup)] + kinds[Arrived(Dropoff)]
            && FiguresOf(logs).departures == kinds[Departed(Pickup)] + kinds[Departed(Dropoff)]
  {
    if logs != [] {
      FiguresCountEvents(logs[1..]);
      CountsOfLog(logs[0]);
      KindsConcat(logs[0], Flat(logs[1..]));
    }
  }

  predicate Regular(events: Log) { forall place :: !VisitOf(events, place).Odd? }

  lemma {:induction false} EventsOfVisits(events: Log)
    requires Regular(events)
    ensures Arrivals(events) == One(!VisitOf(events, Pickup).Never?) + One(!VisitOf(events, Dropoff).Never?)
    ensures Departures(events) == One(VisitOf(events, Pickup).Gone?) + One(VisitOf(events, Dropoff).Gone?)
  {
    if events != [] {
      var front := events[..|events| - 1];
      assert Regular(front) by {
        forall place: Place ensures !VisitOf(front, place).Odd? {
          assert !VisitOf(events, place).Odd?;
        }
      }
      EventsOfVisits(front);
      assert forall place :: VisitOf(events, place) == NextVisit(VisitOf(front, place), events[|events| - 1], place);
      assert !VisitOf(events, Pickup).Odd? && !VisitOf(events, Dropoff).Odd?;
      var kind := events[|events| - 1].kind;
      assert kind.Arrived? || kind.Departed? ==> kind.place == Pickup || kind.place == Dropoff;
    }
  }

  lemma FiguresOfOne(events: Log)
    requires Regular(events)
    ensures var pickup, dropoff := SessionOf(events, Pickup), SessionOf(events, Dropoff);
            var backdated := One(Backdated(events, Pickup)) + One(Backdated(events, Dropoff));
            && One(pickup.inside) + One(dropoff.inside) == Arrivals(events) - Departures(events) + backdated
            && |pickup.dwell| + |dropoff.dwell| == Departures(events) - backdated
  {
    EventsOfVisits(events);
    assert !VisitOf(events, Pickup).Odd? && !VisitOf(events, Dropoff).Odd?;
    SessionOfVisit(events, Pickup);
    SessionOfVisit(events, Dropoff);
  }

  /** Over any orders with regular histories: those inside are the arrivals less the departures,
      and every departure gives a dwell sample, each off by exactly the backdated departures. */
  lemma {:induction false} FiguresAddUp(logs: seq<Log>)
    requires forall i :: 0 <= i < |logs| ==> Regular(logs[i])
    ensures var f := FiguresOf(logs);
            && f.currentlyInside == f.arrivals - f.departures + f.backdated
            && f.dwellSamples == f.departures - f.backdated
  {
    if logs != [] {
      FiguresAddUp(logs[1..]);
      FiguresOfOne(logs[0]);
    }
  }

  /** So the figures agree exactly when no departure is stamped before its arrival. */
  lemma FiguresAgreeExactly(logs: seq<Log>)
    requires forall i :: 0 <= i < |logs| ==> Regular(logs[i])
    ensures var f := FiguresOf(logs);
            f.currentlyInside == f.arrivals - f.departures && f.dwellSamples == f.departures
            <==> forall i :: 0 <= i < |logs| ==> !Backdated(logs[i], Pickup) && !Backdated(logs[i], Dropoff)
  {
    FiguresAddUp(logs);
    NoneBackdated(logs);
  }

  lemma {:induction false} NoneBackdated(logs: seq<Log>)
    ensures FiguresOf(logs).backdated == 0
            <==> forall i :: 0 <= i < |logs| ==> !Backdated(logs[i], Pickup) && !Backdated(logs[i], Dropoff)
  {
    if logs != [] {
      NoneBackdated(logs[1..]);
      assert forall i :: 1 <= i < |logs| ==> logs[i] == logs[1..][i - 1];
      assert forall i :: 0 <= i < |logs| - 1 ==> logs[1..][i] == logs[i + 1];
    }
  }

  /** Over every run of the order machine in which time does not go back, the figures agree. */
  lemma FiguresAgreeOverRuns(w: World, steps: seq<Step>, now: int)
    requires Fresh(w) && TimeMovesOn(steps, now)
    ensures var orders := Run(w, steps).orders;
            var f := FiguresOf(seq(|orders|, i requires 0 <= i < |orders| => orders[i].events));
            f.currentlyInside == f.arrivals - f.departures && f.dwellSamples == f.departures
  {
    GeofenceHistoryIsRegular(w, steps, now);
    var orders := Run(w, steps).orders;
    var logs := seq(|orders|, i requires 0 <= i < |orders| => orders[i].events);
    var later :| now <= later && Timely(Run(w, steps), later);
    forall i, place | 0 <= i < |logs| ensures !VisitOf(logs[i], place).Odd? && !Backdated(logs[i], place) {
      assert VisitTimely(VisitOf(orders[i].events, place), later);
    }
    FiguresAgreeExactly(logs);
  }
}
