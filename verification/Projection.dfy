/** Distances to a coverage area, over the reals, from netareas.go. The cosine and the
    great-circle distance are parameters. */
module Projection {
  import opened Reals
  import opened Rings

  datatype Geo = Geo(cos: real -> real, distance: (Point, Point) -> real)

  // ---------------------------------------------------------------- the nearest point of a segment

  datatype Vec = Vec(x: real, y: real)

  function Dot(v: Vec, w: Vec): real {
    v.x * w.x + v.y * w.y
  }

  function Minus(v: Vec, w: Vec): Vec {
    Vec(v.x - w.x, v.y - w.y)
  }

  /** The point at `t` along the segment that starts at `a` and runs along `d`. */
  function Along(a: Vec, d: Vec, t: real): Vec {
    Vec(a.x + t * d.x, a.y + t * d.y)
  }

  /** The parameter of the vertex of a parabola, clamped to [0, 1]. */
  function Clamped(u: real, seg: real): real {
    if seg > 0.0 then
      var t := -u / seg;
      if t < 0.0 then 0.0 else if t > 1.0 then 1.0 else t
    else 0.0
  }

  function Parabola(c: real, u: real, seg: real, t: real): real {
    c + 2.0 * u * t + seg * t * t
  }

  lemma QuadraticGap(c: real, u: real, seg: real, s: real, t: real)
    ensures Parabola(c, u, seg, s) - Parabola(c, u, seg, t) == (s - t) * (2.0 * u + seg * (s + t))
  {
  }

  lemma Products(x: real, y: real)
    ensures x > 0.0 && y > 0.0 ==> x * y > 0.0
    ensures x < 0.0 && y < 0.0 ==> x * y > 0.0
  {
  }

  /** Of a parabola that opens upwards, the clamped vertex is the lowest point on [0, 1], and
      the only one. */
  lemma ClampedIsLowest(c: real, u: real, seg: real, s: real)
    requires seg > 0.0 && 0.0 <= s <= 1.0
    ensures s != Clamped(u, seg) ==> Parabola(c, u, seg, Clamped(u, seg)) < Parabola(c, u, seg, s)
  {
    hide Parabola, Clamped;
    var t := Clamped(u, seg);
    if s != t {
      var v := -u / seg;
      QuadraticGap(c, u, seg, s, t);
      Vertex(u, seg);
      VertexSide(u, seg, s);
      GapFactor(u, seg, v, s, t);
      hide *;
      var w := (s - v) + (t - v);
      Products(seg, w);
      Products(seg, -w);
      Negated(seg, w);
      Products(s - t, seg * w);
    }
  }

  lemma Vertex(u: real, seg: real)
    requires seg > 0.0
    ensures (-u / seg) * seg == -u
  {
  }

  lemma Negated(x: real, y: real)
    ensures x * (-y) == -(x * y)
  {
  }

  lemma GapFactor(u: real, seg: real, v: real, s: real, t: real)
    requires v * seg == -u
    ensures 2.0 * u + seg * (s + t) == seg * ((s - v) + (t - v))
  {
    Distribute(s + t, -v - v, seg);
    Distribute(-v, -v, seg);
    Negated(seg, v);
    assert (s - v) + (t - v) == (s + t) + (-v - v);
  }

  /** A point of [0, 1] other than the clamped vertex lies on the same side of it as the
      vertex does not. */
  lemma VertexSide(u: real, seg: real, s: real)
    requires seg > 0.0 && 0.0 <= s <= 1.0 && s != Clamped(u, seg)
    ensures var t, v := Clamped(u, seg), -u / seg;
            if s > t then (s - v) + (t - v) > 0.0 else (s - v) + (t - v) < 0.0
  {
  }

  lemma SquareOfSum(a: real, d: real, t: real)
    ensures (a + t * d) * (a + t * d) == a * a + 2.0 * (a * d) * t + (d * d) * t * t
  {
  }

  /** The squared distance from the origin is a parabola in the parameter. */
  lemma SquaredIsParabola(a: Vec, d: Vec, t: real)
    ensures Dot(Along(a, d, t), Along(a, d, t)) == Parabola(Dot(a, a), Dot(a, d), Dot(d, d), t)
  {
    SquareOfSum(a.x, d.x, t);
    SquareOfSum(a.y, d.y, t);
    Distribute(a.x * d.x, a.y * d.y, 2.0 * t);
    Distribute(d.x * d.x, d.y * d.y, t * t);
  }

  function Times(x: real, y: real): real {
    x * y
  }

  lemma SameSign(x: real, y: real)
    requires (x > 0.0 && y > 0.0) || (x < 0.0 && y < 0.0)
    ensures Times(x, y) > 0.0
  {
  }

  lemma ZeroTimes(y: real)
    ensures Times(0.0, y) == 0.0
  {
  }

  lemma DotTimes(v: Vec, w: Vec)
    ensures Dot(v, w) == Times(v.x, w.x) + Times(v.y, w.y)
  {
  }

  lemma LengthIsPositive(d: Vec)
    ensures if d == Vec(0.0, 0.0) then Dot(d, d) == 0.0 else Dot(d, d) > 0.0
  {
    hide Dot, Times;
    DotTimes(d, d);
    assert d == Vec(d.x, d.y);
    if d.x != 0.0 { SameSign(d.x, d.x); } else { ZeroTimes(d.x); }
    if d.y != 0.0 { SameSign(d.y, d.y); } else { ZeroTimes(d.y); }
  }

  /** The chosen parameter lies on the segment and gives its nearest point to the origin; on a
      segment that is no single point it is the only one that does. */
  lemma ClampedIsNearest(a: Vec, d: Vec, s: real)
    requires 0.0 <= s <= 1.0
    ensures var t := Clamped(Dot(a, d), Dot(d, d));
            && 0.0 <= t <= 1.0
            && Dot(Along(a, d, t), Along(a, d, t)) <= Dot(Along(a, d, s), Along(a, d, s))
            && (d != Vec(0.0, 0.0) && s != t ==>
                Dot(Along(a, d, t), Along(a, d, t)) < Dot(Along(a, d, s), Along(a, d, s)))
  {
    var t := Clamped(Dot(a, d), Dot(d, d));
    hide Dot, Parabola, Clamped;
    ClampedInUnit(Dot(a, d), Dot(d, d));
    LengthIsPositive(d);
    if d == Vec(0.0, 0.0) {
      assert Along(a, d, s) == a && Along(a, d, t) == a;
    } else {
      SquaredIsParabola(a, d, s);
      SquaredIsParabola(a, d, t);
      ClampedIsLowest(Dot(a, a), Dot(a, d), Dot(d, d), s);
    }
  }

  lemma ClampedInUnit(u: real, seg: real)
    ensures 0.0 <= Clamped(u, seg) <= 1.0
  {
  }

  /** The plane centred at `p`; `scale` is the cosine of its latitude. */
  function Flat(p: Point, q: Point, scale: real): Vec {
    Vec((q.lon - p.lon) * scale, q.lat - p.lat)
  }

  /** Squared planar distance from `p`. */
  function Planar(p: Point, q: Point, scale: real): real {
    Dot(Flat(p, q, scale), Flat(p, q, scale))
  }

  const DEGREE := 3.141592653589793 / 180.0

  /** Where segmentDistanceKM measures the distance. */
  function NearestPoint(p: Point, a: Point, b: Point, scale: real): Point {
    var d := Minus(Flat(p, b, scale), Flat(p, a, scale));
    At(a, b, Clamped(Dot(Flat(p, a, scale), d), Dot(d, d)))
  }

  lemma Interpolated(a: real, b: real, p: real, t: real, scale: real)
    ensures (a + t * (b - a) - p) * scale == (a - p) * scale + t * ((b - p) * scale - (a - p) * scale)
  {
    var u, v := a - p, b - a;
    Distribute(u, t * v, scale);
    Associate(t, v, scale);
    Distribute(u, v, scale);
    assert a + t * v - p == u + t * v && b - p == u + v;
  }

  lemma FlatAlongX(p: Point, a: Point, b: Point, scale: real, t: real)
    ensures Flat(p, At(a, b, t), scale).x
            == Along(Flat(p, a, scale), Minus(Flat(p, b, scale), Flat(p, a, scale)), t).x
  {
    Interpolated(a.lon, b.lon, p.lon, t, scale);
  }

  lemma FlatAlongY(p: Point, a: Point, b: Point, scale: real, t: real)
    ensures Flat(p, At(a, b, t), scale).y
            == Along(Flat(p, a, scale), Minus(Flat(p, b, scale), Flat(p, a, scale)), t).y
  {
    var u, v := a.lat - p.lat, b.lat - a.lat;
    assert b.lat - p.lat - u == v;
  }

  /** The projection takes points along a segment to points along the projected one. */
  lemma FlatAlong(p: Point, a: Point, b: Point, scale: real, t: real)
    ensures Flat(p, At(a, b, t), scale)
            == Along(Flat(p, a, scale), Minus(Flat(p, b, scale), Flat(p, a, scale)), t)
  {
    hide Flat, At, Along, Minus;
    FlatAlongX(p, a, b, scale, t);
    FlatAlongY(p, a, b, scale, t);
    SameVec(Flat(p, At(a, b, t), scale), Along(Flat(p, a, scale), Minus(Flat(p, b, scale), Flat(p, a, scale)), t));
  }

  lemma SameVec(v: Vec, w: Vec)
    requires v.x == w.x && v.y == w.y
    ensures v == w
  {
  }

  /** No point of the segment is nearer in the plane than the one the distance is measured to. */
  lemma NearestPointIsNearest(p: Point, a: Point, b: Point, scale: real, s: real)
    requires 0.0 <= s <= 1.0
    ensures Planar(p, NearestPoint(p, a, b, scale), scale) <= Planar(p, At(a, b, s), scale)
    ensures exists t :: 0.0 <= t <= 1.0 && NearestPoint(p, a, b, scale) == At(a, b, t)
  {
    hide Dot, Flat, At, Clamped, Minus, Along;
    var d := Minus(Flat(p, b, scale), Flat(p, a, scale));
    var t := Clamped(Dot(Flat(p, a, scale), d), Dot(d, d));
    ClampedIsNearest(Flat(p, a, scale), d, s);
    FlatAlong(p, a, b, scale, s);
    FlatAlong(p, a, b, scale, t);
    assert NearestPoint(p, a, b, scale) == At(a, b, t);
  }

  /** segmentDistanceKM */
  function SegmentDistance(p: Point, a: Point, b: Point, g: Geo): real {
    g.distance(p, NearestPoint(p, a, b, g.cos(p.lat * DEGREE)))
  }

  /** Longitudes count as much as the cosine says, latitudes in full. */
  lemma PlanarIs(p: Point, q: Point, scale: real)
    ensures Planar(p, q, scale)
            == ((q.lon - p.lon) * scale) * ((q.lon - p.lon) * scale) + (q.lat - p.lat) * (q.lat - p.lat)
  {
  }

  /** The distance to a segment is the distance to one of its points, and no point of it is
      nearer once longitudes are scaled by the cosine of the latitude of `p`. */
  lemma SegmentDistanceIsToNearest(p: Point, a: Point, b: Point, g: Geo) returns (t: real)
    ensures 0.0 <= t <= 1.0 && SegmentDistance(p, a, b, g) == g.distance(p, At(a, b, t))
    ensures var scale := g.cos(p.lat * (3.141592653589793 / 180.0));
            forall s :: 0.0 <= s <= 1.0 ==> Planar(p, At(a, b, t), scale) <= Planar(p, At(a, b, s), scale)
  {
    var scale := g.cos(p.lat * DEGREE);
    hide NearestPoint, Planar, At;
    NearestPointIsNearest(p, a, b, scale, 0.0);
    t :| 0.0 <= t <= 1.0 && NearestPoint(p, a, b, scale) == At(a, b, t);
    forall s | 0.0 <= s <= 1.0 ensures Planar(p, At(a, b, t), scale) <= Planar(p, At(a, b, s), scale) {
      NearestPointIsNearest(p, a, b, scale, s);
    }
  }

  // ---------------------------------------------------------------- the nearest edge

  function EdgeDistance(ring: Ring, i: nat, p: Point, g: Geo): real
    requires i < |ring|
  {
    SegmentDistance(p, ring[i], ring[(i + 1) % |ring|], g)
  }

  function EdgeDistances(ring: Ring, p: Point, g: Geo): (r: seq<real>)
    ensures |r| == |ring|
  {
    seq(|ring|, i requires 0 <= i < |ring| => EdgeDistance(ring, i, p, g))
  }

  /** ringDistanceKM: the least distance to an edge, which some edge attains; infinite for an
      empty ring. */
  method RingDistance(ring: Ring, p: Point, g: Geo) returns (best: Bound)
    ensures IsLeast(EdgeDistances(ring, p, g), best)
  {
    best := PlusInf;
    var ds := EdgeDistances(ring, p, g);
    hide EdgeDistances, SegmentDistance;
    var n := |ring|;
    for i := 0 to n
      invariant IsLeast(ds[..i], best)
    {
      var a := ring[i];
      var b := ring[(i + 1) % n];
      var d := SegmentDistance(p, a, b, g);
      EdgeAt(ring, p, g, i);
      assert ds[..i + 1] == ds[..i] + [d];
      if !AtMost(best, Fin(d)) {
        best := Fin(d);
      }
    }
    assert ds[..n] == ds;
  }

  lemma EdgeAt(ring: Ring, p: Point, g: Geo, i: nat)
    requires i < |ring|
    ensures EdgeDistances(ring, p, g)[i] == SegmentDistance(p, ring[i], ring[(i + 1) % |ring|], g)
  {
  }

  /** All edge distances of a polygon, ring by ring. */
  function PolygonDistances(rings: seq<Ring>, p: Point, g: Geo): seq<real> {
    if rings == [] then []
    else PolygonDistances(rings[..|rings| - 1], p, g) + EdgeDistances(rings[|rings| - 1], p, g)
  }

  function AreaDistances(polys: seq<Polygon>, p: Point, g: Geo): seq<real> {
    if polys == [] then []
    else AreaDistances(polys[..|polys| - 1], p, g) + PolygonDistances(polys[|polys| - 1].rings, p, g)
  }

  /** Edge `k` of ring `j` is at distance `x`. */
  predicate EdgeAtDistance(rings: seq<Ring>, p: Point, g: Geo, j: int, k: int, x: real) {
    && 0 <= j < |rings| && 0 <= k < |rings[j]|
    && x == SegmentDistance(p, rings[j][k], rings[j][if k + 1 == |rings[j]| then 0 else k + 1], g)
  }

  lemma EdgeDistancesAre(rings: seq<Ring>, j: nat, p: Point, g: Geo, x: real)
    requires j < |rings|
    ensures x in EdgeDistances(rings[j], p, g) <==> exists k :: EdgeAtDistance(rings, p, g, j, k, x)
  {
    hide SegmentDistance, EdgeDistances;
    var ds := EdgeDistances(rings[j], p, g);
    if k :| 0 <= k < |ds| && ds[k] == x {
      EdgeAt(rings[j], p, g, k);
      NextVertex(k, |ds|);
      assert EdgeAtDistance(rings, p, g, j, k, x);
    }
    if k :| EdgeAtDistance(rings, p, g, j, k, x) {
      EdgeAt(rings[j], p, g, k);
      NextVertex(k, |ds|);
    }
  }

  lemma NextVertex(k: nat, n: nat)
    requires k < n
    ensures (k + 1) % n == if k + 1 == n then 0 else k + 1
  {
  }

  lemma {:induction false} PolygonDistancesAre(rings: seq<Ring>, p: Point, g: Geo, x: real)
    ensures x in PolygonDistances(rings, p, g) <==> exists j, k :: EdgeAtDistance(rings, p, g, j, k, x)
  {
    hide SegmentDistance, EdgeDistances;
    if rings != [] {
      var n := |rings| - 1;
      PolygonDistancesAre(rings[..n], p, g, x);
      EdgeDistancesAre(rings, n, p, g, x);
      if j, k :| EdgeAtDistance(rings[..n], p, g, j, k, x) { assert EdgeAtDistance(rings, p, g, j, k, x); }
      if j, k :| EdgeAtDistance(rings, p, g, j, k, x) {
        if j < n { assert EdgeAtDistance(rings[..n], p, g, j, k, x); }
      }
    }
  }

  /** The distances that count are those to every edge of every ring, holes included. */
  lemma {:induction false} AreaDistancesAre(polys: seq<Polygon>, p: Point, g: Geo, x: real)
    ensures x in AreaDistances(polys, p, g)
            <==> exists i, j, k :: 0 <= i < |polys| && EdgeAtDistance(polys[i].rings, p, g, j, k, x)
  {
    hide EdgeAtDistance, PolygonDistances;
    if polys != [] {
      var n := |polys| - 1;
      AreaDistancesAre(polys[..n], p, g, x);
      PolygonDistancesAre(polys[n].rings, p, g, x);
    }
  }

  function Less(a: Bound, b: Bound): Bound {
    if AtMost(b, a) then b else a
  }

  lemma LeastOfBoth(xs: seq<real>, ys: seq<real>, x: Bound, y: Bound)
    requires IsLeast(xs, x) && IsLeast(ys, y)
    ensures IsLeast(xs + ys, Less(x, y))
  {
  }

  /** networkArea.distanceKM: zero inside the coverage, otherwise the least distance to any edge
      of any ring, holes included. */
  method AreaDistance(polys: seq<Polygon>, p: Point, g: Geo) returns (best: Bound)
    ensures if exists i :: 0 <= i < |polys| && Contains(polys[i], p) then best == Fin(0.0)
            else IsLeast(AreaDistances(polys, p, g), best)
  {
    hide Contains, IsLeast, EdgeDistances, Less;
    for i := 0 to |polys|
      invariant forall j :: 0 <= j < i ==> !Contains(polys[j], p)
    {
      var inside := PolygonContains(polys[i], p);
      if inside {
        return Fin(0.0);
      }
    }
    best := PlusInf;
    NothingIsLeast();
    for i := 0 to |polys|
      invariant IsLeast(AreaDistances(polys[..i], p, g), best)
    {
      assert polys[..i + 1][..i] == polys[..i];
      best := PolygonDistance(polys[i].rings, p, g, AreaDistances(polys[..i], p, g), best);
    }
    assert polys[..|polys|] == polys;
  }

  method PolygonDistance(rings: seq<Ring>, p: Point, g: Geo, ghost before: seq<real>, was: Bound) returns (best: Bound)
    requires IsLeast(before, was)
    ensures IsLeast(before + PolygonDistances(rings, p, g), best)
  {
    hide IsLeast, EdgeDistances;
    best := was;
    assert before + [] == before;
    for i := 0 to |rings|
      invariant IsLeast(before + PolygonDistances(rings[..i], p, g), best)
    {
      var d := RingDistance(rings[i], p, g);
      LeastOfBoth(before + PolygonDistances(rings[..i], p, g), EdgeDistances(rings[i], p, g), best, d);
      assert rings[..i + 1][..i] == rings[..i];
      assert before + PolygonDistances(rings[..i + 1], p, g)
          == before + PolygonDistances(rings[..i], p, g) + EdgeDistances(rings[i], p, g);
      if AtMost(d, best) {
        best := d;
      }
    }
    assert rings[..|rings|] == rings;
  }

  lemma NothingIsLeast()
    ensures IsLeast([], PlusInf)
  {
  }
}
