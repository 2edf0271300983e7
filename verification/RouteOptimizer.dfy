/**
 The route planner (optimizer.ts): a greedy tour, improved by 2-opt when no stop has a time
 constraint, then timed by a simulation. Times are milliseconds, distances kilometres; both
 are exact reals.
 */
module RouteOptimizer {
  import opened Prelude
  import opened Geography

  datatype Priority = Standard | Express | Urgent

  /** An optional timestamp, which may be present and yet not a readable date. */
  datatype Moment = Absent | Unreadable | At(ms: real)

  datatype Stop = Stop(id: string, name: string, at: Coordinate, demandKg: real, priority: Option<Priority>,
                       windowStart: Moment, promisedAt: Moment)

  /** The end of the driver's shift: an instant, or a time of day in minutes after midnight. */
  datatype ShiftEnd = NoShiftEnd | Instant(ms: real) | TimeOfDay(minutes: real)

  datatype Options = Options(startAt: real, averageSpeedKph: real, serviceMinutes: real, respectTimeWindows: bool,
                             returnToDepot: bool, maxRouteMinutes: Option<int>, shiftEnd: ShiftEnd)

  datatype RouteError = OverCapacity | OverTimeLimit | AfterShiftEnd
  datatype Result<T> = Ok(value: T) | Err(error: RouteError)

  const EPSILON := 0.00001
  const MINUTE_MS := 60_000.0
  const HOUR_MS := 3_600_000.0
  const DAY_MS := 86_400_000.0

  function Max(a: real, b: real): real { if a > b then a else b }

  function Speed(o: Options): real { Max(5.0, o.averageSpeedKph) }

  function ServiceMs(o: Options): real { o.serviceMinutes * MINUTE_MS }

  function TravelMs(o: Options, km: real): real { km / Speed(o) * HOUR_MS }

  // ---------------------------------------------------------------------------
  // Length of a route
  // ---------------------------------------------------------------------------

  function Legs(d: Distance, from: Coordinate, route: seq<Stop>): real
    decreases |route|
  {
    if route == [] then 0.0 else d(from, route[0].at) + Legs(d, route[0].at, route[1..])
  }

  /** Where the vehicle is after visiting the whole route. */
  function LastPlace(from: Coordinate, route: seq<Stop>): Coordinate {
    if route == [] then from else route[|route| - 1].at
  }

  function Length(d: Distance, start: Coordinate, route: seq<Stop>, returnToDepot: bool): real {
    Legs(d, start, route) + if returnToDepot && route != [] then d(LastPlace(start, route), start) else 0.0
  }

  lemma {:induction false} LegsNonNegative(d: Distance, from: Coordinate, route: seq<Stop>)
    ensures Legs(d, from, route) >= 0.0
    decreases |route|
  {
    if route != [] {
      LegsNonNegative(d, route[0].at, route[1..]);
    }
  }

  lemma LengthNonNegative(d: Distance, start: Coordinate, route: seq<Stop>, returnToDepot: bool)
    ensures Length(d, start, route, returnToDepot) >= 0.0
  {
    LegsNonNegative(d, start, route);
  }

  lemma {:induction false} LegsAppend(d: Distance, from: Coordinate, route: seq<Stop>, stop: Stop)
    ensures Legs(d, from, route + [stop]) == Legs(d, from, route) + d(LastPlace(from, route), stop.at)
    decreases |route|
  {
    if route == [] {
      assert [stop][1..] == [];
      assert route + [stop] == [stop];
    } else {
      assert (route + [stop])[1..] == route[1..] + [stop];
      LegsAppend(d, route[0].at, route[1..], stop);
    }
  }

  /** The length in plain terms: one leg from each place to the next, and the way back if asked for. */
  lemma LengthIs(d: Distance, start: Coordinate, route: seq<Stop>, stop: Stop)
    ensures Length(d, start, [], true) == 0.0 && Length(d, start, [], false) == 0.0
    ensures Length(d, start, [stop], false) == d(start, stop.at)
    ensures route != [] ==>
              && Length(d, start, route + [stop], false)
                 == Length(d, start, route, false) + d(route[|route| - 1].at, stop.at)
              && Length(d, start, route, true) == Length(d, start, route, false) + d(route[|route| - 1].at, start)
  {
    LegsAppend(d, start, route, stop);
    assert [stop][1..] == [];
    assert Legs(d, start, [stop]) == d(start, stop.at) + Legs(d, stop.at, []);
  }

  // ---------------------------------------------------------------------------
  // Greedy construction
  // ---------------------------------------------------------------------------

  function PriorityWeight(stop: Stop): real {
    match stop.priority
    case Some(Express) => 18.0
    case Some(Urgent) => 42.0
    case _ => 0.0
  }

  /** Waiting for a window when reaching a stop at time `reach`. */
  function WaitMs(o: Options, stop: Stop, reach: real): real {
    if o.respectTimeWindows && stop.windowStart.At? then Max(0.0, stop.windowStart.ms - reach) else 0.0
  }

  function LateMinutes(stop: Stop, arrival: real): real {
    if stop.promisedAt.At? then Max(0.0, (arrival - stop.promisedAt.ms) / MINUTE_MS) else 0.0
  }

  function Score(d: Distance, o: Options, current: Coordinate, elapsed: real, stop: Stop): real {
    var km := d(current, stop.at);
    var reach := elapsed + TravelMs(o, km);
    km + LateMinutes(stop, reach + WaitMs(o, stop, reach)) * 4.0 - PriorityWeight(stop)
  }

  /** The first stop of least score among the first `n`. */
  function BestOf(d: Distance, o: Options, current: Coordinate, elapsed: real, remaining: seq<Stop>,
                  n: nat): (best: nat)
    requires 0 < n <= |remaining|
    ensures best < n
  {
    if n == 1 then 0
    else
      var best := BestOf(d, o, current, elapsed, remaining, n - 1);
      if Score(d, o, current, elapsed, remaining[n - 1]) < Score(d, o, current, elapsed, remaining[best])
      then n - 1
      else best
  }

  lemma {:induction false} BestIsFirstMinimum(d: Distance, o: Options, current: Coordinate, elapsed: real,
                                              remaining: seq<Stop>, n: nat)
    requires 0 < n <= |remaining|
    ensures var best := BestOf(d, o, current, elapsed, remaining, n);
            && (forall i :: 0 <= i < n ==>
                  Score(d, o, current, elapsed, remaining[best]) <= Score(d, o, current, elapsed, remaining[i]))
            && (forall i :: 0 <= i < best ==>
                  Score(d, o, current, elapsed, remaining[best]) < Score(d, o, current, elapsed, remaining[i]))
  {
    if n > 1 {
      BestIsFirstMinimum(d, o, current, elapsed, remaining, n - 1);
    }
  }

  function RemoveAt<T>(s: seq<T>, i: nat): seq<T>
    requires i < |s|
  {
    s[..i] + s[i + 1..]
  }

  /** The clock of the greedy loop after one more stop: travel and service, but no waiting. */
  function Advance(d: Distance, o: Options, current: Coordinate, elapsed: real, stop: Stop): real {
    elapsed + (TravelMs(o, d(current, stop.at)) + ServiceMs(o))
  }

  function Greedy(d: Distance, o: Options, current: Coordinate, elapsed: real, remaining: seq<Stop>): seq<Stop>
    decreases |remaining|
  {
    if remaining == [] then []
    else
      var best := BestOf(d, o, current, elapsed, remaining, |remaining|);
      var next := remaining[best];
      [next] + Greedy(d, o, next.at, Advance(d, o, current, elapsed, next), RemoveAt(remaining, best))
  }

  method PickBest(d: Distance, o: Options, current: Coordinate, elapsed: real, remaining: seq<Stop>) returns (best: nat)
    requires remaining != []
    ensures best == BestOf(d, o, current, elapsed, remaining, |remaining|)
  {
    best := 0;
    var bestScore: Option<real> := None;
    for i := 0 to |remaining|
      invariant i == 0 ==> best == 0 && bestScore.None?
      invariant i > 0 ==> best == BestOf(d, o, current, elapsed, remaining, i)
                          && bestScore == Some(Score(d, o, current, elapsed, remaining[best]))
    {
      var candidate := remaining[i];
      var legKm := d(current, candidate.at);
      var arrivalMs := elapsed + TravelMs(o, legKm);
      var waitMs := WaitMs(o, candidate, arrivalMs);
      var lateMinutes := LateMinutes(candidate, arrivalMs + waitMs);
      var score := legKm + lateMinutes * 4.0 - PriorityWeight(candidate);
      assert score == Score(d, o, current, elapsed, candidate);
      if bestScore.None? || score < bestScore.value {
        best := i;
        bestScore := Some(score);
      }
    }
  }

  lemma GreedyUnfolds(d: Distance, o: Options, current: Coordinate, elapsed: real, remaining: seq<Stop>,
                      route: seq<Stop>)
    requires remaining != []
    ensures var best := BestOf(d, o, current, elapsed, remaining, |remaining|);
            var next := remaining[best];
            route + Greedy(d, o, current, elapsed, remaining)
            == (route + [next]) + Greedy(d, o, next.at, Advance(d, o, current, elapsed, next),
                                         RemoveAt(remaining, best))
  {
  }

  method BuildGreedy(d: Distance, o: Options, start: Coordinate, stops: seq<Stop>) returns (route: seq<Stop>)
    ensures route == Greedy(d, o, start, o.startAt, stops)
  {
    var remaining := stops;
    route := [];
    var current := start;
    var elapsedMs := o.startAt;
    while remaining != []
      invariant route + Greedy(d, o, current, elapsedMs, remaining) == Greedy(d, o, start, o.startAt, stops)
      decreases |remaining|
    {
      var best := PickBest(d, o, current, elapsedMs, remaining);
      var next := remaining[best];
      GreedyUnfolds(d, o, current, elapsedMs, remaining, route);
      remaining := RemoveAt(remaining, best);
      route := route + [next];
      elapsedMs := Advance(d, o, current, elapsedMs, next);
      current := next.at;
    }
  }

  lemma RemoveAtMultiset<T>(s: seq<T>, i: nat)
    requires i < |s|
    ensures multiset(s) == multiset{s[i]} + multiset(RemoveAt(s, i))
  {
    assert s == s[..i] + [s[i]] + s[i + 1..];
  }

  /** Greedy construction reorders the stops and nothing else. */
  lemma {:induction false} GreedyIsPermutation(d: Distance, o: Options, current: Coordinate, elapsed: real,
                                               remaining: seq<Stop>)
    ensures multiset(Greedy(d, o, current, elapsed, remaining)) == multiset(remaining)
    decreases |remaining|
  {
    if remaining != [] {
      var best := BestOf(d, o, current, elapsed, remaining, |remaining|);
      RemoveAtMultiset(remaining, best);
      GreedyIsPermutation(d, o, remaining[best].at, Advance(d, o, current, elapsed, remaining[best]),
                          RemoveAt(remaining, best));
    }
  }

  // ---------------------------------------------------------------------------
  // 2-opt
  // ---------------------------------------------------------------------------

  lemma {:induction false} ReverseMultiset<T>(s: seq<T>)
    ensures multiset(Reverse(s)) == multiset(s) && |Reverse(s)| == |s|
  {
    if s != [] {
      ReverseMultiset(s[1..]);
      assert s == [s[0]] + s[1..];
    }
  }

  /** The route with the stops from `i` to `j` visited in the opposite order. */
  function Swapped(route: seq<Stop>, i: nat, j: nat): seq<Stop>
    requires i < j < |route|
  {
    route[..i] + Reverse(route[i..j + 1]) + route[j + 1..]
  }

  lemma {:induction false} ReverseAt<T>(s: seq<T>, k: nat)
    requires k < |s|
    ensures |Reverse(s)| == |s| && Reverse(s)[k] == s[|s| - 1 - k]
  {
    ReverseMultiset(s);
    ReverseMultiset(s[1..]);
    if k < |s| - 1 {
      ReverseAt(s[1..], k);
    }
  }

  /** The stops from `i` to `j` in the opposite order, the others where they were. */
  lemma SwappedAt(route: seq<Stop>, i: nat, j: nat, k: nat)
    requires i < j < |route| && k < |route|
    ensures |Swapped(route, i, j)| == |route|
    ensures Swapped(route, i, j)[k] == if i <= k <= j then route[i + j - k] else route[k]
  {
    SwappedMultiset(route, i, j);
    ReverseMultiset(route[i..j + 1]);
    if i <= k <= j {
      ReverseAt(route[i..j + 1], k - i);
    }
  }

  lemma SwappedMultiset(route: seq<Stop>, i: nat, j: nat)
    requires i < j < |route|
    ensures multiset(Swapped(route, i, j)) == multiset(route) && |Swapped(route, i, j)| == |route|
  {
    ReverseMultiset(route[i..j + 1]);
    assert route == route[..i] + route[i..j + 1] + route[j + 1..];
  }

  /** A reversal worth making. */
  predicate Shortens(d: Distance, start: Coordinate, home: bool, route: seq<Stop>, i: nat, j: nat)
    requires i < j < |route|
  {
    Length(d, start, Swapped(route, i, j), home) + EPSILON < Length(d, start, route, home)
  }

  /** No reversal of a stretch shortens the route by more than the threshold. */
  ghost predicate LocallyOptimal(d: Distance, start: Coordinate, home: bool, route: seq<Stop>) {
    forall i: nat, j: nat :: i < j < |route| ==> !Shortens(d, start, home, route, i, j)
  }

  /** `route` came from `greedy` by `moves` reversals, each gaining more than the threshold. */
  ghost predicate Improved(d: Distance, start: Coordinate, home: bool, greedy: seq<Stop>, route: seq<Stop>,
                           moves: nat) {
    && multiset(route) == multiset(greedy) && |route| == |greedy|
    && (moves == 0 ==> route == greedy)
    && (moves > 0 ==> Length(d, start, route, home) + moves as real * EPSILON < Length(d, start, greedy, home))
  }

  lemma OneMoreMove(d: Distance, start: Coordinate, home: bool, greedy: seq<Stop>, route: seq<Stop>, moves: nat,
                    i: nat, j: nat)
    requires Improved(d, start, home, greedy, route, moves)
    requires i < j < |route| && Shortens(d, start, home, route, i, j)
    ensures Improved(d, start, home, greedy, Swapped(route, i, j), moves + 1)
  {
    SwappedMultiset(route, i, j);
    assert (moves + 1) as real * EPSILON == moves as real * EPSILON + EPSILON;
  }

  /** One pass over all pairs. */
  method TwoOptPass(d: Distance, start: Coordinate, home: bool, before: seq<Stop>, ghost greedy: seq<Stop>,
                    ghost soFar: nat)
    returns (route: seq<Stop>, improved: bool, ghost moves: nat)
    requires Improved(d, start, home, greedy, before, soFar)
    ensures Improved(d, start, home, greedy, route, moves)
    ensures improved ==> moves > soFar
    ensures !improved ==> route == before && moves == soFar && LocallyOptimal(d, start, home, route)
  {
    route, improved, moves := before, false, soFar;
    var i := 0;
    while i < |route| - 1
      invariant 0 <= i && |route| == |before|
      invariant Improved(d, start, home, greedy, route, moves)
      invariant improved ==> moves > soFar
      invariant !improved ==> route == before && moves == soFar
      invariant !improved ==> forall a: nat, b: nat :: a < b < |route| && a < i ==>
          !Shortens(d, start, home, route, a, b)
      decreases |before| - i
    {
      var j := i + 1;
      while j < |route|
        invariant i < j && |route| == |before|
        invariant Improved(d, start, home, greedy, route, moves)
        invariant improved ==> moves > soFar
        invariant !improved ==> route == before && moves == soFar
        invariant !improved ==> forall a: nat, b: nat :: a < b < |route| && (a < i || (a == i && b < j)) ==>
            !Shortens(d, start, home, route, a, b)
        decreases |before| - j
      {
        var candidate := route[..i] + Reverse(route[i..j + 1]) + route[j + 1..];
        if Length(d, start, candidate, home) + EPSILON < Length(d, start, route, home) {
          OneMoreMove(d, start, home, greedy, route, moves, i, j);
          SwappedMultiset(route, i, j);
          route := candidate;
          improved := true;
          moves := moves + 1;
        }
        j := j + 1;
      }
      i := i + 1;
    }
  }

  /** At most 50 passes. If the last one changed nothing, no reversal helps any more; if the cap
      stopped the search, all 50 passes and at least 50 reversals had been made. */
  method TwoOpt(d: Distance, start: Coordinate, home: bool, greedy: seq<Stop>)
    returns (route: seq<Stop>, improved: bool, passes: nat, ghost moves: nat)
    ensures Improved(d, start, home, greedy, route, moves)
    ensures !improved ==> LocallyOptimal(d, start, home, route)
    ensures 1 <= passes <= 50 && (improved ==> passes == 50 && moves >= 50)
  {
    route, improved, moves := greedy, true, 0;
    var loops := 0;
    while improved && loops < 50
      invariant 0 <= loops <= 50 && (loops == 0 ==> improved)
      invariant Improved(d, start, home, greedy, route, moves)
      invariant improved ==> moves >= loops
      invariant !improved ==> LocallyOptimal(d, start, home, route)
      decreases 50 - loops
    {
      loops := loops + 1;
      route, improved, moves := TwoOptPass(d, start, home, route, greedy, moves);
    }
    passes := loops;
  }

  /** `other` is the route with the stretch from `i` to `j` turned round. */
  predicate TurnsRound(route: seq<Stop>, other: seq<Stop>, i: nat, j: nat) {
    && i < j < |route| && |other| == |route|
    && (forall k :: 0 <= k < i ==> other[k] == route[k])
    && (forall k :: i <= k <= j ==> other[k] == route[i + j - k])
    && (forall k :: j < k < |route| ==> other[k] == route[k])
  }

  lemma TurnedIsSwapped(route: seq<Stop>, other: seq<Stop>, i: nat, j: nat)
    requires TurnsRound(route, other, i, j)
    ensures Swapped(route, i, j) == other
  {
    var swapped := Swapped(route, i, j);
    SwappedMultiset(route, i, j);
    forall k | 0 <= k < |route| ensures swapped[k] == other[k] {
      SwappedAt(route, i, j, k);
    }
  }

  /** What it means that no reversal helps: turning round any stretch of the route makes it longer, or
      shorter by no more than a centimetre (0.00001 km). */
  lemma LocallyOptimalMeans(d: Distance, start: Coordinate, home: bool, route: seq<Stop>, other: seq<Stop>,
                            i: nat, j: nat)
    requires LocallyOptimal(d, start, home, route) && TurnsRound(route, other, i, j)
    ensures Length(d, start, route, home) <= Length(d, start, other, home) + 0.00001
  {
    assert !Shortens(d, start, home, route, i, j);
    TurnedIsSwapped(route, other, i, j);
  }

  /** Each accepted reversal costs the threshold, so their number is bounded by the greedy length. */
  lemma FewMoves(d: Distance, start: Coordinate, home: bool, greedy: seq<Stop>, route: seq<Stop>, moves: nat)
    requires Improved(d, start, home, greedy, route, moves)
    ensures Length(d, start, route, home) <= Length(d, start, greedy, home)
    ensures moves > 0 ==> moves as real < Length(d, start, greedy, home) / 0.00001
  {
    LengthNonNegative(d, start, route, home);
    if moves > 0 {
      assert moves as real * EPSILON < Length(d, start, greedy, home);
    }
  }
}
