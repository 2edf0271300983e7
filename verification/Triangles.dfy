/**
 What the point-in-polygon test of territories.ts means: for a triangle, the points on the inner
 side of its three edges; for any polygon, an odd number of the triangles it is cut into.
 */
module Triangles {
  import opened Prelude
  import opened Geography
  import opened Territories

  /** On which side of the line from `u` to `v` a point lies: positive, negative, or on the line. */
  function Side(p: Coordinate, u: Coordinate, v: Coordinate): real {
    (v.lng - u.lng) * (p.lat - u.lat) - (v.lat - u.lat) * (p.lng - u.lng)
  }

  /** Positive and negative for the two directions a triangle can be walked in, zero for a flat one. */
  function Turn(a: Coordinate, b: Coordinate, c: Coordinate): real { Side(c, a, b) }

  /** On the same side of all three edges. */
  predicate StrictlyInside(p: Coordinate, a: Coordinate, b: Coordinate, c: Coordinate) {
    || (Side(p, a, b) > 0.0 && Side(p, b, c) > 0.0 && Side(p, c, a) > 0.0)
    || (Side(p, a, b) < 0.0 && Side(p, b, c) < 0.0 && Side(p, c, a) < 0.0)
  }

  /** On the other side of some edge than the triangle. */
  predicate StrictlyOutside(p: Coordinate, a: Coordinate, b: Coordinate, c: Coordinate) {
    || (Turn(a, b, c) > 0.0 && (Side(p, a, b) < 0.0 || Side(p, b, c) < 0.0 || Side(p, c, a) < 0.0))
    || (Turn(a, b, c) < 0.0 && (Side(p, a, b) > 0.0 || Side(p, b, c) > 0.0 || Side(p, c, a) > 0.0))
  }

  // ---------------------------------------------------------------------------
  // Crossings and sides
  // ---------------------------------------------------------------------------

  lemma Scale(x: real, y: real, k: real)
    requires k != 0.0
    ensures k > 0.0 ==> (x < y <==> x * k < y * k)
    ensures k < 0.0 ==> (x < y <==> x * k > y * k)
  {
    assert (y - x) * k == y * k - x * k;
  }

  lemma Compare(y: real, rise: real, k: real, base: real)
    requires k != 0.0
    ensures k > 0.0 ==> (y < rise / k + base <==> k * (y - base) - rise < 0.0)
    ensures k < 0.0 ==> (y < rise / k + base <==> k * (y - base) - rise > 0.0)
  {
    var q := rise / k;
    assert q * k == rise;
    Scale(y - base, q, k);
  }

  /** An edge that straddles the meridian is crossed exactly by the points south of its line. */
  lemma CrossesBySide(p: Coordinate, u: Coordinate, v: Coordinate)
    requires Straddles(p, u, v)
    ensures Crosses(p, u, v) <==> if u.lng <= p.lng then Side(p, u, v) < 0.0 else Side(p, u, v) > 0.0
  {
    CrossesSymmetric(p, u, v);
    var k, rise := v.lng - u.lng, (v.lat - u.lat) * (p.lng - u.lng);
    Compare(p.lat, rise, k, u.lat);
    assert Height(p, v, u) == rise / k + u.lat;
    assert Side(p, u, v) == k * (p.lat - u.lat) - rise;
  }

  /** Seen from the point, a side is a cross product. */
  lemma SideAsProduct(p: Coordinate, u: Coordinate, v: Coordinate)
    ensures Side(p, u, v) == (u.lng - p.lng) * (v.lat - p.lat) - (v.lng - p.lng) * (u.lat - p.lat)
  {
    var x, y, z, w := u.lng - p.lng, u.lat - p.lat, v.lng - p.lng, v.lat - p.lat;
    assert (z - x) * (0.0 - y) == x * y - z * y;
    assert (w - y) * (0.0 - x) == x * y - w * x;
  }

  lemma Weights(ax: real, ay: real, bx: real, by_: real, cx: real, cy: real)
    ensures (bx * cy - cx * by_) * ax + (cx * ay - ax * cy) * bx + (ax * by_ - bx * ay) * cx == 0.0
  {
    assert (bx * cy - cx * by_) * ax == ax * bx * cy - ax * cx * by_;
    assert (cx * ay - ax * cy) * bx == bx * cx * ay - ax * bx * cy;
    assert (ax * by_ - bx * ay) * cx == ax * cx * by_ - bx * cx * ay;
  }

  /** The point is the mean of the corners, each weighted with the side of the edge opposite. */
  lemma PointIsMean(p: Coordinate, a: Coordinate, b: Coordinate, c: Coordinate)
    ensures Side(p, b, c) * (a.lng - p.lng) + Side(p, c, a) * (b.lng - p.lng) + Side(p, a, b) * (c.lng - p.lng) == 0.0
  {
    SideAsProduct(p, a, b);
    SideAsProduct(p, b, c);
    SideAsProduct(p, c, a);
    Weights(a.lng - p.lng, a.lat - p.lat, b.lng - p.lng, b.lat - p.lat, c.lng - p.lng, c.lat - p.lat);
  }

  lemma SidesAddUp(p: Coordinate, a: Coordinate, b: Coordinate, c: Coordinate)
    ensures Side(p, a, b) + Side(p, b, c) + Side(p, c, a) == Turn(a, b, c)
  {
    SideAsProduct(c, a, b);
    SideAsSums(p, a, b);
    SideAsSums(p, b, c);
    SideAsSums(p, c, a);
    SideAsSums(c, a, b);
  }

  lemma SideAsSums(p: Coordinate, u: Coordinate, v: Coordinate)
    ensures Side(p, u, v)
            == v.lng * p.lat - u.lng * p.lat - v.lng * u.lat + u.lng * v.lat - v.lat * p.lng + u.lat * p.lng
  {
    assert (v.lng - u.lng) * (p.lat - u.lat) == v.lng * p.lat - u.lng * p.lat - v.lng * u.lat + u.lng * u.lat;
    assert (v.lat - u.lat) * (p.lng - u.lng) == v.lat * p.lng - u.lat * p.lng - v.lat * u.lng + u.lat * u.lng;
  }

  // ---------------------------------------------------------------------------
  // Parity for three edges
  // ---------------------------------------------------------------------------

  lemma Sign(s: real, x: real)
    ensures s * x > 0.0 <==> (s > 0.0 && x > 0.0) || (s < 0.0 && x < 0.0)
    ensures s * x < 0.0 <==> (s > 0.0 && x < 0.0) || (s < 0.0 && x > 0.0)
  {
  }

  /** An edge from longitude `x` to `y`, both relative to the point, on whose side `s` the point lies. */
  predicate EdgeCrossed(x: real, y: real, s: real) {
    (x > 0.0) != (y > 0.0) && if x <= 0.0 then s < 0.0 else s > 0.0
  }

  predicate Odd3(first: bool, second: bool, third: bool) { (first != second) != third }

  /** `r` is the side of the edge from `x` to `y`, `s` from `y` to `z`, `t` from `z` to `x`. */
  lemma InsideIsOdd(x: real, y: real, z: real, r: real, s: real, t: real)
    requires s * x + t * y + r * z == 0.0 && !(x == 0.0 && y == 0.0 && z == 0.0)
    requires (r > 0.0 && s > 0.0 && t > 0.0) || (r < 0.0 && s < 0.0 && t < 0.0)
    ensures Odd3(EdgeCrossed(x, y, r), EdgeCrossed(y, z, s), EdgeCrossed(z, x, t))
  {
    Sign(s, x);
    Sign(t, y);
    Sign(r, z);
  }

  lemma OutsideIsEven(x: real, y: real, z: real, r: real, s: real, t: real)
    requires s * x + t * y + r * z == 0.0
    requires || (r + s + t > 0.0 && (r < 0.0 || s < 0.0 || t < 0.0))
             || (r + s + t < 0.0 && (r > 0.0 || s > 0.0 || t > 0.0))
    ensures !Odd3(EdgeCrossed(x, y, r), EdgeCrossed(y, z, s), EdgeCrossed(z, x, t))
  {
    Sign(s, x);
    Sign(t, y);
    Sign(r, z);
  }

  lemma EdgeIsCrossed(p: Coordinate, u: Coordinate, v: Coordinate)
    ensures Crosses(p, u, v) <==> EdgeCrossed(u.lng - p.lng, v.lng - p.lng, Side(p, u, v))
  {
    if Straddles(p, u, v) {
      CrossesBySide(p, u, v);
    }
  }

  lemma TriangleParity(p: Coordinate, a: Coordinate, b: Coordinate, c: Coordinate)
    ensures Inside(p, [a, b, c]) <==> Odd3(Crosses(p, a, b), Crosses(p, b, c), Crosses(p, c, a))
  {
    assert Boundary([a, b, c]) == [c, a, b, c];
    assert [c, a, b, c][1..] == [a, b, c] && [a, b, c][1..] == [b, c] && [b, c][1..] == [c];
    assert Count(p, [b, c]) == (if Crosses(p, b, c) then 1 else 0) + Count(p, [c]);
    assert Count(p, [a, b, c]) == (if Crosses(p, a, b) then 1 else 0) + Count(p, [b, c]);
  }

  lemma TriangleBySides(p: Coordinate, a: Coordinate, b: Coordinate, c: Coordinate)
    ensures var x, y, z := a.lng - p.lng, b.lng - p.lng, c.lng - p.lng;
            Inside(p, [a, b, c]) <==>
              Odd3(EdgeCrossed(x, y, Side(p, a, b)), EdgeCrossed(y, z, Side(p, b, c)), EdgeCrossed(z, x, Side(p, c, a)))
  {
    TriangleParity(p, a, b, c);
    EdgeIsCrossed(p, a, b);
    EdgeIsCrossed(p, b, c);
    EdgeIsCrossed(p, c, a);
  }

  /** A point on the inner side of all three edges is inside. */
  lemma InsideTriangle(p: Coordinate, a: Coordinate, b: Coordinate, c: Coordinate)
    requires StrictlyInside(p, a, b, c)
    ensures Inside(p, [a, b, c])
  {
    TriangleBySides(p, a, b, c);
    PointIsMean(p, a, b, c);
    SideAsProduct(p, a, b);
    InsideIsOdd(a.lng - p.lng, b.lng - p.lng, c.lng - p.lng, Side(p, a, b), Side(p, b, c), Side(p, c, a));
  }

  /** A point on the outer side of some edge is not. */
  lemma OutsideTriangle(p: Coordinate, a: Coordinate, b: Coordinate, c: Coordinate)
    requires StrictlyOutside(p, a, b, c)
    ensures !Inside(p, [a, b, c])
  {
    TriangleBySides(p, a, b, c);
    PointIsMean(p, a, b, c);
    SidesAddUp(p, a, b, c);
    OutsideIsEven(a.lng - p.lng, b.lng - p.lng, c.lng - p.lng, Side(p, a, b), Side(p, b, c), Side(p, c, a));
  }

  /** Off the three lines of a triangle that is not flat, the test says exactly whether the point is
      on the inner side of all three edges. */
  lemma TriangleMeaning(p: Coordinate, a: Coordinate, b: Coordinate, c: Coordinate)
    requires Turn(a, b, c) != 0.0 && Side(p, a, b) != 0.0 && Side(p, b, c) != 0.0 && Side(p, c, a) != 0.0
    ensures Inside(p, [a, b, c]) <==> StrictlyInside(p, a, b, c)
  {
    SidesAddUp(p, a, b, c);
    if StrictlyInside(p, a, b, c) {
      InsideTriangle(p, a, b, c);
    } else {
      OutsideTriangle(p, a, b, c);
    }
  }

  // ---------------------------------------------------------------------------
  // Any polygon
  // ---------------------------------------------------------------------------

  /** How many of the triangles that the first vertex makes with each later edge, up to vertex `n`,
      contain the point. */
  function FanCount(p: Coordinate, polygon: Polygon, n: nat): nat
    requires n <= |polygon|
  {
    if n < 3 then 0
    else FanCount(p, polygon, n - 1) + if Inside(p, [polygon[0], polygon[n - 2], polygon[n - 1]]) then 1 else 0
  }

  lemma TooFewVertices(p: Coordinate, polygon: Polygon)
    requires |polygon| < 3
    ensures !Inside(p, polygon)
  {
    if |polygon| == 1 {
      var v := polygon[0];
      assert Boundary(polygon) == [v, v] && [v, v][1..] == [v];
      assert Count(p, [v, v]) == (if Crosses(p, v, v) then 1 else 0) + Count(p, [v]);
    } else if |polygon| == 2 {
      var u, v := polygon[0], polygon[1];
      assert Boundary(polygon) == [v, u, v] && [v, u, v][1..] == [u, v] && [u, v][1..] == [v];
      assert Count(p, [u, v]) == (if Crosses(p, u, v) then 1 else 0) + Count(p, [v]);
      assert Count(p, [v, u, v]) == (if Crosses(p, v, u) then 1 else 0) + Count(p, [u, v]);
      CrossesSymmetric(p, u, v);
    }
  }

  lemma LastTriangle(p: Coordinate, polygon: Polygon)
    requires |polygon| >= 3
    ensures var n := |polygon|;
            Inside(p, polygon) <==>
              Inside(p, polygon[..n - 1]) != Inside(p, [polygon[0], polygon[n - 2], polygon[n - 1]])
  {
    var n := |polygon|;
    var triangle := [polygon[0], polygon[n - 2], polygon[n - 1]];
    CutDividesInside(p, polygon, n - 2);
    assert polygon[..n - 2 + 1] == polygon[..n - 1];
    assert polygon[n - 2..] + [polygon[0]] == [polygon[n - 2], polygon[n - 1], polygon[0]] == Rotated(triangle, 1);
    RotationInvariant(p, triangle, 1);
  }

  lemma {:induction false} FanOfPrefix(p: Coordinate, polygon: Polygon, m: nat, n: nat)
    requires n <= m <= |polygon|
    ensures FanCount(p, polygon[..m], n) == FanCount(p, polygon, n)
  {
    if n >= 3 {
      FanOfPrefix(p, polygon, m, n - 1);
    }
  }

  /** For every polygon: a point is inside if and only if it is inside an odd number of the triangles
      of its fan. */
  lemma {:induction false} InsideIsFanParity(p: Coordinate, polygon: Polygon)
    ensures Inside(p, polygon) <==> FanCount(p, polygon, |polygon|) % 2 == 1
    decreases |polygon|
  {
    var n := |polygon|;
    if n < 3 {
      TooFewVertices(p, polygon);
    } else {
      LastTriangle(p, polygon);
      InsideIsFanParity(p, polygon[..n - 1]);
      FanOfPrefix(p, polygon, n - 1, n - 1);
    }
  }
}
