/** Service territories: the even-odd point-in-polygon test (territories.ts), over exact reals. */
module Territories {
  import opened Prelude
  import opened Geography

  type Polygon = seq<Coordinate>

  /** Height, in latitude, at which the edge meets the point's meridian. */
  function Height(p: Coordinate, prior: Coordinate, current: Coordinate): real
    requires prior.lng != current.lng
  {
    (prior.lat - current.lat) * (p.lng - current.lng) / (prior.lng - current.lng) + current.lat
  }

  predicate Straddles(p: Coordinate, a: Coordinate, b: Coordinate) {
    (a.lng > p.lng) != (b.lng > p.lng)
  }

  predicate Crosses(p: Coordinate, prior: Coordinate, current: Coordinate) {
    Straddles(p, current, prior) && p.lat < Height(p, prior, current)
  }

  /** Crossings along an open path. */
  function Count(p: Coordinate, path: seq<Coordinate>): nat {
    if |path| < 2 then 0
    else (if Crosses(p, path[0], path[1]) then 1 else 0) + Count(p, path[1..])
  }

  /** The boundary, walked from the last vertex round to itself. */
  function Boundary(polygon: Polygon): seq<Coordinate> {
    if polygon == [] then [] else [polygon[|polygon| - 1]] + polygon
  }

  predicate Inside(p: Coordinate, polygon: Polygon) { Count(p, Boundary(polygon)) % 2 == 1 }

  lemma {:induction false} CountAppend(p: Coordinate, path: seq<Coordinate>, v: Coordinate)
    requires path != []
    ensures Count(p, path + [v]) == Count(p, path) + if Crosses(p, path[|path| - 1], v) then 1 else 0
  {
    if |path| > 1 {
      CountAppend(p, path[1..], v);
      assert (path + [v])[1..] == path[1..] + [v];
    } else {
      assert (path + [v])[1..] == [v];
    }
  }

  /** The part of the boundary walked after `n` vertices. */
  function Walk(polygon: Polygon, n: nat): seq<Coordinate>
    requires polygon != [] && n <= |polygon|
  {
    [polygon[|polygon| - 1]] + polygon[..n]
  }

  lemma WalkOn(p: Coordinate, polygon: Polygon, n: nat)
    requires n < |polygon|
    ensures var prior := polygon[if n == 0 then |polygon| - 1 else n - 1];
            Count(p, Walk(polygon, n + 1))
            == Count(p, Walk(polygon, n)) + if Crosses(p, prior, polygon[n]) then 1 else 0
  {
    assert Walk(polygon, n + 1) == Walk(polygon, n) + [polygon[n]];
    CountAppend(p, Walk(polygon, n), polygon[n]);
  }

  /** The two-index loop of the source. */
  method PointInPolygon(point: Coordinate, polygon: Polygon) returns (inside: bool)
    ensures inside == Inside(point, polygon)
  {
    inside := false;
    var index, previous := 0, |polygon| - 1;
    while index < |polygon|
      invariant 0 <= index <= |polygon|
      invariant previous == if index == 0 then |polygon| - 1 else index - 1
      invariant if polygon == [] then !inside else inside == (Count(point, Walk(polygon, index)) % 2 == 1)
    {
      WalkOn(point, polygon, index);
      var current, prior := polygon[index], polygon[previous];
      var intersects := (current.lng > point.lng) != (prior.lng > point.lng)
          && point.lat < Height(point, prior, current);
      if intersects {
        inside := !inside;
      }
      previous := index;
      index := index + 1;
    }
    assert polygon != [] ==> Walk(polygon, |polygon|) == Boundary(polygon);
  }

  // ---------------------------------------------------------------------------
  // Where the vertex list starts and which way it runs do not matter
  // ---------------------------------------------------------------------------

  lemma HeightSymmetric(p: Coordinate, a: Coordinate, b: Coordinate)
    requires a.lng != b.lng
    ensures Height(p, a, b) == Height(p, b, a)
  {
    var k := a.lng - b.lng;
    var q := (a.lat - b.lat) * (p.lng - b.lng) / k;
    var r := (b.lat - a.lat) * (p.lng - a.lng) / (0.0 - k);
    assert q * k == (a.lat - b.lat) * (p.lng - b.lng);
    assert r * k == (a.lat - b.lat) * (p.lng - a.lng);
    assert (q - r) * k == (a.lat - b.lat) * k;
    Cancel(q - r, a.lat - b.lat, k);
  }

  lemma Cancel(x: real, y: real, k: real)
    requires k != 0.0 && x * k == y * k
    ensures x == y
  {
    assert x == x * k / k;
    assert y == y * k / k;
  }

  lemma CrossesSymmetric(p: Coordinate, a: Coordinate, b: Coordinate)
    ensures Crosses(p, a, b) == Crosses(p, b, a)
  {
    if Straddles(p, a, b) {
      HeightSymmetric(p, a, b);
    }
  }

  /** Counting from the first vertex round to itself gives the same as from the last. */
  lemma BoundaryFromFirst(p: Coordinate, polygon: Polygon)
    requires polygon != []
    ensures Count(p, Boundary(polygon)) == Count(p, polygon + [polygon[0]])
  {
    CountAppend(p, polygon, polygon[0]);
    assert Boundary(polygon)[1..] == polygon;
  }

  function Rotated(polygon: Polygon, k: nat): Polygon
    requires k <= |polygon|
  {
    polygon[k..] + polygon[..k]
  }

  lemma RotateOnce(p: Coordinate, polygon: Polygon)
    requires polygon != []
    ensures Inside(p, polygon[1..] + [polygon[0]]) == Inside(p, polygon)
  {
    BoundaryFromFirst(p, polygon);
    assert Boundary(polygon[1..] + [polygon[0]]) == polygon + [polygon[0]];
  }

  lemma RotateFurther(polygon: Polygon, k: nat)
    requires k < |polygon|
    ensures Rotated(polygon, k)[1..] + [Rotated(polygon, k)[0]] == Rotated(polygon, k + 1)
  {
  }

  /** The answer does not depend on which vertex comes first. */
  lemma {:induction false} RotationInvariant(p: Coordinate, polygon: Polygon, k: nat)
    requires k <= |polygon|
    ensures Inside(p, Rotated(polygon, k)) == Inside(p, polygon)
  {
    if k == 0 {
      assert Rotated(polygon, 0) == polygon;
    } else {
      RotationInvariant(p, polygon, k - 1);
      RotateOnce(p, Rotated(polygon, k - 1));
      RotateFurther(polygon, k - 1);
    }
  }

  lemma {:induction false} ReverseEnds(path: seq<Coordinate>)
    ensures |Reverse(path)| == |path|
    ensures path != [] ==> Reverse(path)[0] == path[|path| - 1] && Reverse(path)[|path| - 1] == path[0]
  {
    if path != [] {
      ReverseEnds(path[1..]);
    }
  }

  lemma {:induction false} CountReverse(p: Coordinate, path: seq<Coordinate>)
    ensures Count(p, Reverse(path)) == Count(p, path)
  {
    if |path| == 1 {
      assert Reverse(path[1..]) == [];
    } else if |path| > 1 {
      CountReverse(p, path[1..]);
      ReverseEnds(path[1..]);
      CountAppend(p, Reverse(path[1..]), path[0]);
      CrossesSymmetric(p, path[0], path[1]);
    }
  }

  /** The answer does not depend on the direction of the vertex list. */
  lemma ReversalInvariant(p: Coordinate, polygon: Polygon)
    ensures Inside(p, Reverse(polygon)) == Inside(p, polygon)
  {
    if polygon != [] {
      ReverseEnds(polygon);
      ReverseAppend(polygon, polygon[0]);
      assert Boundary(Reverse(polygon)) == Reverse(polygon + [polygon[0]]);
      CountReverse(p, polygon + [polygon[0]]);
      BoundaryFromFirst(p, polygon);
    }
  }

  // ---------------------------------------------------------------------------
  // Outside the bounding box
  // ---------------------------------------------------------------------------

  /** The half-open box: west and south edges in, east and north edges out. */
  predicate InBox(p: Coordinate, polygon: Polygon) {
    && (exists i :: 0 <= i < |polygon| && polygon[i].lng <= p.lng)
    && (exists i :: 0 <= i < |polygon| && p.lng < polygon[i].lng)
    && (exists i :: 0 <= i < |polygon| && polygon[i].lat <= p.lat)
    && (exists i :: 0 <= i < |polygon| && p.lat < polygon[i].lat)
  }

  lemma HeightBetween(p: Coordinate, prior: Coordinate, current: Coordinate)
    requires Straddles(p, current, prior)
    ensures prior.lat <= current.lat ==> prior.lat <= Height(p, prior, current) <= current.lat
    ensures current.lat <= prior.lat ==> current.lat <= Height(p, prior, current) <= prior.lat
  {
    var k := prior.lng - current.lng;
    var t := (p.lng - current.lng) / k;
    assert t * k == p.lng - current.lng;
    assert 0.0 <= t <= 1.0;
    var rise := prior.lat - current.lat;
    var q := rise * (p.lng - current.lng) / k;
    assert q * k == rise * (t * k) == rise * t * k;
    Cancel(q, rise * t, k);
    Fraction(rise, t);
  }

  lemma Fraction(rise: real, t: real)
    requires 0.0 <= t <= 1.0
    ensures rise >= 0.0 ==> 0.0 <= rise * t <= rise
    ensures rise <= 0.0 ==> rise <= rise * t <= 0.0
  {
  }

  /** A walk changes sides of the meridian an even number of times exactly when it ends on the
      side where it began; far enough south, every change counts. */
  lemma {:induction false} SouthCountsEveryChange(p: Coordinate, path: seq<Coordinate>)
    requires path != [] && forall i :: 0 <= i < |path| ==> p.lat < path[i].lat
    ensures Count(p, path) % 2 == 1 <==> Straddles(p, path[0], path[|path| - 1])
  {
    if |path| > 1 {
      SouthCountsEveryChange(p, path[1..]);
      if Straddles(p, path[0], path[1]) {
        HeightBetween(p, path[0], path[1]);
      }
    }
  }

  lemma {:induction false} NorthCountsNothing(p: Coordinate, path: seq<Coordinate>)
    requires forall i :: 0 <= i < |path| ==> path[i].lat <= p.lat
    ensures Count(p, path) == 0
  {
    if |path| > 1 {
      NorthCountsNothing(p, path[1..]);
      if Straddles(p, path[0], path[1]) {
        HeightBetween(p, path[0], path[1]);
      }
    }
  }

  lemma {:induction false} OneSideCountsNothing(p: Coordinate, path: seq<Coordinate>)
    requires (forall i :: 0 <= i < |path| ==> path[i].lng > p.lng)
             || (forall i :: 0 <= i < |path| ==> path[i].lng <= p.lng)
    ensures Count(p, path) == 0
  {
    if |path| > 1 {
      OneSideCountsNothing(p, path[1..]);
    }
  }

  /** No point outside the half-open bounding box is inside. */
  lemma InsideIsInBox(p: Coordinate, polygon: Polygon)
    requires Inside(p, polygon)
    ensures InBox(p, polygon)
  {
    var path := Boundary(polygon);
    assert polygon != [];
    if !exists i :: 0 <= i < |polygon| && polygon[i].lat <= p.lat {
      SouthCountsEveryChange(p, path);
      assert false;
    }
    if !exists i :: 0 <= i < |polygon| && p.lat < polygon[i].lat {
      NorthCountsNothing(p, path);
      assert false;
    }
    if !InBox(p, polygon) {
      OneSideCountsNothing(p, path);
      assert false;
    }
  }

  // ---------------------------------------------------------------------------
  // Dividing a territory
  // ---------------------------------------------------------------------------

  lemma {:induction false} CountSplits(p: Coordinate, path: seq<Coordinate>, k: nat)
    requires k < |path|
    ensures Count(p, path) == Count(p, path[..k + 1]) + Count(p, path[k..])
  {
    if k == 0 {
      assert path[0..] == path;
    } else {
      CountSplits(p, path[1..], k - 1);
      assert path[1..][..k] == path[..k + 1][1..] && path[1..][k - 1..] == path[k..];
    }
  }

  lemma FirstPart(p: Coordinate, polygon: Polygon, k: nat)
    requires k < |polygon|
    ensures Count(p, Boundary(polygon[..k + 1]))
            == Count(p, polygon[..k + 1]) + if Crosses(p, polygon[k], polygon[0]) then 1 else 0
  {
    BoundaryFromFirst(p, polygon[..k + 1]);
    CountAppend(p, polygon[..k + 1], polygon[0]);
  }

  lemma SecondPart(p: Coordinate, polygon: Polygon, k: nat)
    requires k < |polygon|
    ensures Count(p, Boundary(polygon[k..] + [polygon[0]]))
            == Count(p, polygon[k..] + [polygon[0]]) + if Crosses(p, polygon[k], polygon[0]) then 1 else 0
  {
    var b := polygon[k..] + [polygon[0]];
    assert Boundary(b)[1..] == b;
    CrossesSymmetric(p, polygon[k], polygon[0]);
  }

  lemma BothParts(p: Coordinate, polygon: Polygon, k: nat)
    requires k < |polygon|
    ensures Count(p, Boundary(polygon)) == Count(p, polygon[..k + 1]) + Count(p, polygon[k..] + [polygon[0]])
  {
    var loop := polygon + [polygon[0]];
    BoundaryFromFirst(p, polygon);
    CountSplits(p, loop, k);
    assert loop[..k + 1] == polygon[..k + 1] && loop[k..] == polygon[k..] + [polygon[0]];
  }

  lemma Parity(whole: nat, first: nat, second: nat, x: nat, y: nat, chord: nat)
    requires whole == x + y && first == x + chord && second == y + chord
    ensures whole % 2 == 1 <==> (first % 2 == 1) != (second % 2 == 1)
  {
  }

  /** Cutting a polygon along a straight line between two of its vertices divides it cleanly:
      every point inside is in exactly one part, every point outside in neither or (where the
      cut leaves the polygon) in both. */
  lemma CutDividesInside(p: Coordinate, polygon: Polygon, k: nat)
    requires k < |polygon|
    ensures Inside(p, polygon) <==> Inside(p, polygon[..k + 1]) != Inside(p, polygon[k..] + [polygon[0]])
  {
    BothParts(p, polygon, k);
    FirstPart(p, polygon, k);
    SecondPart(p, polygon, k);
    Parity(Count(p, Boundary(polygon)), Count(p, Boundary(polygon[..k + 1])),
           Count(p, Boundary(polygon[k..] + [polygon[0]])),
           Count(p, polygon[..k + 1]), Count(p, polygon[k..] + [polygon[0]]),
           if Crosses(p, polygon[k], polygon[0]) then 1 else 0);
  }

  // ---------------------------------------------------------------------------
  // Service areas
  // ---------------------------------------------------------------------------

  datatype Territory = Territory(organizationId: string, active: bool, polygon: Polygon)
  datatype Coverage = Coverage(enforced: bool, inServiceArea: bool, territories: seq<Territory>)

  function ActiveFor(territories: seq<Territory>, organizationId: string): seq<Territory> {
    if territories == [] then []
    else
      var rest := ActiveFor(territories[1..], organizationId);
      if territories[0].organizationId == organizationId && territories[0].active then [territories[0]] + rest else rest
  }

  lemma {:induction false} ActiveForSelects(territories: seq<Territory>, organizationId: string, t: Territory)
    ensures t in ActiveFor(territories, organizationId)
            <==> t in territories && t.organizationId == organizationId && t.active
  {
    if territories != [] {
      ActiveForSelects(territories[1..], organizationId, t);
    }
  }

  function Containing(territories: seq<Territory>, point: Coordinate): seq<Territory> {
    if territories == [] then []
    else
      var rest := Containing(territories[1..], point);
      if Inside(point, territories[0].polygon) then [territories[0]] + rest else rest
  }

  lemma {:induction false} ContainingSelects(territories: seq<Territory>, point: Coordinate, t: Territory)
    ensures t in Containing(territories, point) <==> t in territories && Inside(point, t.polygon)
  {
    if territories != [] {
      ContainingSelects(territories[1..], point, t);
    }
  }

  function ValidateServiceArea(territories: seq<Territory>, organizationId: string, point: Coordinate): Coverage {
    var active := ActiveFor(territories, organizationId);
    if active == [] then Coverage(false, true, [])
    else
      var matching := Containing(active, point);
      Coverage(true, matching != [], matching)
  }

  predicate Serves(territories: seq<Territory>, organizationId: string, t: Territory) {
    t in territories && t.organizationId == organizationId && t.active
  }

  /** Without an active territory anything goes; with one, the point must lie in one of them. */
  lemma ServiceAreaMeaning(territories: seq<Territory>, organizationId: string, point: Coordinate)
    ensures var r := ValidateServiceArea(territories, organizationId, point);
            && (r.enforced <==> exists t :: Serves(territories, organizationId, t))
            && (r.inServiceArea <==>
                  !r.enforced || exists t :: Serves(territories, organizationId, t) && Inside(point, t.polygon))
            && (r.enforced ==>
                  forall t :: t in r.territories <==>
                    Serves(territories, organizationId, t) && Inside(point, t.polygon))
  {
    var active := ActiveFor(territories, organizationId);
    forall t ensures t in active <==> Serves(territories, organizationId, t) {
      ActiveForSelects(territories, organizationId, t);
    }
    var matching := Containing(active, point);
    forall t ensures t in matching <==> t in active && Inside(point, t.polygon) {
      ContainingSelects(active, point, t);
    }
    assert active != [] ==> active[0] in active;
    assert matching != [] ==> matching[0] in matching;
  }
}
