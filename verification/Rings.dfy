/** Point-in-ring tests and bounding boxes of coverage areas, over the reals, from netareas.go. */
module Rings {
  import opened Collections

  /** A vertex, or a point: longitude and latitude. */
  datatype Point = Point(lon: real, lat: real)

  type Ring = seq<Point>

  // ---------------------------------------------------------------- crossings

  predicate Straddles(a: Point, b: Point, p: Point) {
    (a.lat > p.lat) != (b.lat > p.lat)
  }

  /** The point at `t` along a segment. */
  function At(a: Point, b: Point, t: real): Point {
    Point(a.lon + t * (b.lon - a.lon), a.lat + t * (b.lat - a.lat))
  }

  /** Where the line from `a` to `b` meets the latitude of `p`. */
  function CrossingLon(a: Point, b: Point, p: Point): real
    requires Straddles(a, b, p)
  {
    (b.lon - a.lon) * (p.lat - a.lat) / (b.lat - a.lat) + a.lon
  }

  /** The ray that leaves `p` to the east crosses the edge. */
  predicate Crosses(a: Point, b: Point, p: Point) {
    Straddles(a, b, p) && p.lon < CrossingLon(a, b, p)
  }

  /** How many edges of an open path the ray crosses. */
  function PathCrossings(path: seq<Point>, p: Point): nat {
    if |path| < 2 then 0
    else
      var n := |path| - 1;
      PathCrossings(path[..n], p) + if Crosses(path[n], path[n - 1], p) then 1 else 0
  }

  /** The path around a ring, starting and ending at its last vertex. */
  function Around(ring: Ring): seq<Point> {
    if ring == [] then [] else [ring[|ring| - 1]] + ring
  }

  /** Even-odd rule. */
  predicate Inside(ring: Ring, p: Point) {
    PathCrossings(Around(ring), p) % 2 == 1
  }

  /** ringContains: whether the ray that leaves `p` to the east meets an odd number of edges. */
  method RingContains(ring: Ring, p: Point) returns (inside: bool)
    ensures inside == Inside(ring, p)
    ensures inside <==> |EdgesMet(ring, |ring|, p)| % 2 == 1
  {
    inside := false;
    var n := |ring|;
    var i, j := 0, n - 1;
    hide PathCrossings, Around, CrossingLon, EdgesMet;
    NoEdgesYet(ring, p);
    while i < n
      invariant 0 <= i <= n && j == if i == 0 then n - 1 else i - 1
      invariant inside == (EdgesCrossed(ring, i, p) % 2 == 1)
    {
      var vi, vj := ring[i], ring[j];
      NextEdge(ring, i, p);
      if (vi.lat > p.lat) != (vj.lat > p.lat) {
        var cross := (vj.lon - vi.lon) * (p.lat - vi.lat) / (vj.lat - vi.lat) + vi.lon;
        CrossingAt(vi, vj, p);
        if p.lon < cross {
          inside := !inside;
        }
      }
      j, i := i, i + 1;
    }
    AllEdges(ring, p);
    InsideIffOddlyMet(ring, p);
  }

  /** How many of the first `i` edges the ray crosses; edge `i` leads to vertex `i`. */
  function EdgesCrossed(ring: Ring, i: nat, p: Point): nat
    requires i <= |ring|
  {
    if i == 0 then 0
    else
      var prev := if i == 1 then ring[|ring| - 1] else ring[i - 2];
      EdgesCrossed(ring, i - 1, p) + if Crosses(ring[i - 1], prev, p) then 1 else 0
  }

  lemma NoEdgesYet(ring: Ring, p: Point)
    ensures EdgesCrossed(ring, 0, p) == 0
  {
  }

  lemma NextEdge(ring: Ring, i: nat, p: Point)
    requires i < |ring|
    ensures var prev := if i == 0 then ring[|ring| - 1] else ring[i - 1];
            EdgesCrossed(ring, i + 1, p) == EdgesCrossed(ring, i, p) + if Crosses(ring[i], prev, p) then 1 else 0
  {
  }

  lemma CrossingAt(a: Point, b: Point, p: Point)
    requires Straddles(a, b, p)
    ensures CrossingLon(a, b, p) == (b.lon - a.lon) * (p.lat - a.lat) / (b.lat - a.lat) + a.lon
  {
  }

  lemma {:induction false} EdgesOfPath(ring: Ring, i: nat, p: Point)
    requires 0 < i <= |ring|
    ensures EdgesCrossed(ring, i, p) == PathCrossings(Around(ring)[..i + 1], p)
  {
    var path := Around(ring)[..i + 1];
    assert path[..i] == Around(ring)[..i];
    if i > 1 { EdgesOfPath(ring, i - 1, p); }
  }

  lemma AllEdges(ring: Ring, p: Point)
    ensures EdgesCrossed(ring, |ring|, p) == PathCrossings(Around(ring), p)
  {
    if ring != [] {
      EdgesOfPath(ring, |ring|, p);
      assert Around(ring)[..|ring| + 1] == Around(ring);
    }
  }

  // ---------------------------------------------------------------- which edges count

  /** Some point of the edge lies at the latitude of `p`, strictly east of it; an end that
      lies on that latitude counts as below it. */
  ghost predicate MeetsEast(a: Point, b: Point, p: Point) {
    && (a.lat > p.lat) != (b.lat > p.lat)
    && exists t {:trigger At(a, b, t)} ::
         0.0 <= t <= 1.0 && At(a, b, t).lat == p.lat && p.lon < At(a, b, t).lon
  }

  lemma OneCrossing(y: real, d: real, t: real)
    requires d != 0.0 && t * d == y
    ensures t == y / d
  {
    DivCancel(t, d);
  }

  /** The one point of the line through an edge at the latitude of `p`. */
  lemma CrossingPoint(a: Point, b: Point, p: Point) returns (t: real)
    requires Straddles(a, b, p)
    ensures 0.0 <= t <= 1.0 && At(a, b, t) == Point(CrossingLon(a, b, p), p.lat)
    ensures forall s {:trigger At(a, b, s)} :: At(a, b, s).lat == p.lat ==> s == t
  {
    var d, y, w := b.lat - a.lat, p.lat - a.lat, b.lon - a.lon;
    t := y / d;
    DivInUnit(y, d);
    DivMul(w, y, d);
    assert t * d == y;
    assert At(a, b, t).lon == a.lon + w * t;
    forall s | At(a, b, s).lat == p.lat ensures s == t {
      OneCrossing(y, d, s);
    }
  }

  lemma CrossesIffMeets(a: Point, b: Point, p: Point)
    ensures Crosses(a, b, p) <==> MeetsEast(a, b, p)
  {
    hide At, CrossingLon;
    if Straddles(a, b, p) {
      var t := CrossingPoint(a, b, p);
      assert At(a, b, t).lat == p.lat;
    }
  }

  /** Edge `i` of a ring leads to vertex `i`. */
  ghost predicate Met(ring: Ring, i: nat, p: Point)
    requires i < |ring|
  {
    MeetsEast(ring[i], ring[if i == 0 then |ring| - 1 else i - 1], p)
  }

  /** The edges of a ring that the ray meets, among the first `n`. */
  ghost function EdgesMet(ring: Ring, n: nat, p: Point): set<nat>
    requires n <= |ring|
  {
    set i | 0 <= i < n && Met(ring, i, p)
  }

  lemma {:induction false} CrossedAreMet(ring: Ring, n: nat, p: Point)
    requires n <= |ring|
    ensures EdgesCrossed(ring, n, p) == |EdgesMet(ring, n, p)|
  {
    hide MeetsEast, Crosses;
    if n == 0 {
      assert EdgesMet(ring, 0, p) == {};
    } else {
      var i := n - 1;
      var prev := if i == 0 then ring[|ring| - 1] else ring[i - 1];
      CrossedAreMet(ring, i, p);
      CrossesIffMeets(ring[i], prev, p);
      if MeetsEast(ring[i], prev, p) {
        assert EdgesMet(ring, n, p) == EdgesMet(ring, i, p) + {i};
      } else {
        assert EdgesMet(ring, n, p) == EdgesMet(ring, i, p);
      }
    }
  }

  /** A point is inside exactly when the ray to its east meets an odd number of edges. */
  lemma InsideIffOddlyMet(ring: Ring, p: Point)
    ensures Inside(ring, p) <==> |EdgesMet(ring, |ring|, p)| % 2 == 1
  {
    AllEdges(ring, p);
    CrossedAreMet(ring, |ring|, p);
  }

  // ---------------------------------------------------------------- the answer depends on the shape only

  lemma DivCancel(x: real, d: real)
    requires d != 0.0
    ensures x * d / d == x
  {
  }

  lemma DivAdd(x: real, y: real, d: real)
    requires d != 0.0
    ensures x / d + y / d == (x + y) / d
  {
  }

  lemma DivNeg(x: real, d: real)
    requires d != 0.0
    ensures x / (-d) == -x / d
  {
    var q := x / (-d);
    assert q * (-d) == x;
    assert (-q) * d == x;
    DivCancel(-q, d);
  }

  /** An edge is crossed in the same place from either end. */
  lemma CrossingIsSymmetric(a: Point, b: Point, p: Point)
    requires Straddles(a, b, p)
    ensures CrossingLon(a, b, p) == CrossingLon(b, a, p)
  {
    var d, w := b.lat - a.lat, b.lon - a.lon;
    var u, v := w * (p.lat - a.lat), w * (p.lat - b.lat);
    assert (a.lon - b.lon) * (p.lat - b.lat) == -v;
    DivNeg(-v, d);
    assert u - v == w * d;
    DivAdd(u, -v, d);
    DivCancel(w, d);
  }

  lemma CrossesIsSymmetric(a: Point, b: Point, p: Point)
    ensures Crosses(a, b, p) == Crosses(b, a, p)
  {
    if Straddles(a, b, p) { CrossingIsSymmetric(a, b, p); }
  }

  /** Crossings of a path add up at any of its vertices. */
  lemma {:induction false} PathSplits(a: seq<Point>, v: Point, b: seq<Point>, p: Point)
    ensures PathCrossings(a + [v] + b, p) == PathCrossings(a + [v], p) + PathCrossings([v] + b, p)
  {
    if b == [] {
      assert a + [v] + b == a + [v];
    } else {
      var init := b[..|b| - 1];
      PathSplits(a, v, init, p);
      assert (a + [v] + b)[..|a| + |b|] == a + [v] + init;
      assert ([v] + b)[..|b|] == [v] + init;
      assert (a + [v] + b)[|a| + |b| - 1] == ([v] + b)[|b| - 1];
    }
  }

  lemma PairCrossings(a: Point, b: Point, p: Point)
    ensures PathCrossings([a, b], p) == if Crosses(a, b, p) then 1 else 0
  {
    assert [a, b][..1] == [a];
    CrossesIsSymmetric(a, b, p);
  }

  lemma {:induction false} ReversedPath(s: seq<Point>, p: Point)
    ensures PathCrossings(Reversed(s), p) == PathCrossings(s, p)
  {
    if |s| >= 2 {
      var n := |s| - 1;
      ReversedPath(s[..n], p);
      assert s == s[..n] + [s[n]];
      ReversedSnoc(s[..n], s[n]);
      CrossingsFromFront(s[n], Reversed(s[..n]), p);
    }
  }

  /** An edge in front of a path. */
  lemma CrossingsFromFront(v: Point, path: seq<Point>, p: Point)
    requires path != []
    ensures PathCrossings([v] + path, p) == PathCrossings(path, p) + if Crosses(v, path[0], p) then 1 else 0
  {
    assert [v] + path == [v] + [path[0]] + path[1..] && [path[0]] + path[1..] == path;
    PathSplits([v], path[0], path[1..], p);
    assert [v] + [path[0]] == [v, path[0]];
    PairCrossings(v, path[0], p);
  }

  /** Starting the ring at another vertex does not change the answer. */
  lemma RotationKeepsInside(a: Ring, b: Ring, p: Point)
    ensures Inside(a + b, p) == Inside(b + a, p)
  {
    if a == [] || b == [] {
      assert a + b == b + a;
    } else {
      RotationKeepsCrossings(a, b, p);
      hide PathCrossings, Around;
    }
  }

  lemma RotationKeepsCrossings(a: Ring, b: Ring, p: Point)
    requires a != [] && b != []
    ensures PathCrossings(Around(a + b), p) == PathCrossings(Around(b + a), p)
  {
    hide PathCrossings, Around;
    AroundSplits(a, b, p);
    AroundSplits(b, a, p);
  }

  lemma AroundSplits(a: Ring, b: Ring, p: Point)
    requires a != [] && b != []
    ensures var la, lb := a[|a| - 1], b[|b| - 1];
            PathCrossings(Around(a + b), p) == PathCrossings([lb] + a, p) + PathCrossings([la] + b, p)
  {
    hide PathCrossings;
    var la, lb, init := a[|a| - 1], b[|b| - 1], a[..|a| - 1];
    assert a == init + [la];
    assert (a + b)[|a + b| - 1] == lb;
    assert Around(a + b) == [lb] + init + [la] + b;
    PathSplits([lb] + init, la, b, p);
    assert [lb] + init + [la] == [lb] + a;
  }

  lemma AroundFromFirst(ring: Ring, p: Point)
    requires ring != []
    ensures PathCrossings(Around(ring), p) == PathCrossings(ring + [ring[0]], p)
  {
    var n := |ring| - 1;
    CrossingsFromFront(ring[n], ring, p);
    assert (ring + [ring[0]])[..n + 1] == ring;
    CrossesIsSymmetric(ring[n], ring[0], p);
  }

  /** Neither does listing it the other way around. */
  lemma ReversalKeepsInside(ring: Ring, p: Point)
    ensures Inside(Reversed(ring), p) == Inside(ring, p)
  {
    if ring != [] {
      ReversedSnoc(ring, ring[0]);
      ReversedPath(ring + [ring[0]], p);
      AroundFromFirst(ring, p);
    }
  }

  /** Nor does leaving out the closing vertex that repeats the first one. */
  lemma ClosingVertexIsRedundant(ring: Ring, p: Point)
    requires |ring| >= 2 && ring[|ring| - 1] == ring[0]
    ensures Inside(ring[..|ring| - 1], p) == Inside(ring, p)
  {
    var n := |ring| - 1;
    AroundFromFirst(ring[..n], p);
    AroundFromFirst(ring, p);
    assert ring[..n] + [ring[0]] == ring;
    assert (ring + [ring[0]])[..n + 1] == ring;
  }

  // ---------------------------------------------------------------- inside lies within the bounds

  lemma ScaledBetween(x: real, t: real)
    requires 0.0 <= t <= 1.0
    ensures x >= 0.0 ==> 0.0 <= x * t <= x
    ensures x <= 0.0 ==> x <= x * t <= 0.0
  {
  }

  lemma DivMul(x: real, y: real, d: real)
    requires d != 0.0
    ensures x * y / d == x * (y / d)
  {
    assert (x * (y / d)) * d == x * y;
    DivCancel(x * (y / d), d);
  }

  lemma PositiveProduct(x: real, y: real)
    requires x > 0.0 && y > 0.0
    ensures x * y > 0.0
  {
  }

  lemma UnitQuotient(q: real, y: real, d: real)
    requires d > 0.0 && q * d == y && 0.0 <= y <= d
    ensures 0.0 <= q <= 1.0
  {
    assert (q - 1.0) * d == q * d - d;
    assert (-q) * d == -(q * d);
    if q > 1.0 { PositiveProduct(q - 1.0, d); }
    if q < 0.0 { PositiveProduct(-q, d); }
  }

  lemma DivInUnit(y: real, d: real)
    requires d != 0.0 && (0.0 <= y <= d || d <= y <= 0.0)
    ensures 0.0 <= y / d <= 1.0
  {
    var q := y / d;
    assert q * d == y;
    if d > 0.0 {
      UnitQuotient(q, y, d);
    } else {
      assert q * (-d) == -(q * d);
      UnitQuotient(q, -y, -d);
    }
  }

  /** An edge is crossed between its ends. */
  lemma CrossingIsBetween(a: Point, b: Point, p: Point)
    requires Straddles(a, b, p)
    ensures (a.lon <= CrossingLon(a, b, p) <= b.lon) || (b.lon <= CrossingLon(a, b, p) <= a.lon)
  {
    var t := (p.lat - a.lat) / (b.lat - a.lat);
    DivInUnit(p.lat - a.lat, b.lat - a.lat);
    DivMul(b.lon - a.lon, p.lat - a.lat, b.lat - a.lat);
    ScaledBetween(b.lon - a.lon, t);
  }

  /** Where a path ends up on the other side of a latitude, it has crossed it an odd number of times. */
  function PathStraddles(path: seq<Point>, p: Point): nat {
    if |path| < 2 then 0
    else
      var n := |path| - 1;
      PathStraddles(path[..n], p) + if Straddles(path[n], path[n - 1], p) then 1 else 0
  }

  lemma {:induction false} StraddleParity(path: seq<Point>, p: Point)
    requires path != []
    ensures PathStraddles(path, p) % 2 == 1 <==> Straddles(path[0], path[|path| - 1], p)
  {
    if |path| > 1 {
      StraddleParity(path[..|path| - 1], p);
    }
  }

  /** West of a whole path the ray crosses all the edges that straddle its latitude; east of
      it, none. */
  lemma {:induction false} BesidePath(path: seq<Point>, p: Point)
    ensures (forall v :: v in path ==> p.lon < v.lon) ==> PathCrossings(path, p) == PathStraddles(path, p)
    ensures (forall v :: v in path ==> v.lon <= p.lon) ==> PathCrossings(path, p) == 0
  {
    if |path| >= 2 {
      var n := |path| - 1;
      BesidePath(path[..n], p);
      assert path[n] in path && path[n - 1] in path;
      if Straddles(path[n], path[n - 1], p) { CrossingIsBetween(path[n], path[n - 1], p); }
    }
  }

  /** Above or below a whole path there is nothing to cross. */
  lemma {:induction false} OffPath(path: seq<Point>, p: Point)
    requires (forall v :: v in path ==> v.lat <= p.lat) || (forall v :: v in path ==> p.lat < v.lat)
    ensures PathCrossings(path, p) == 0
  {
    if |path| >= 2 {
      var n := |path| - 1;
      OffPath(path[..n], p);
      assert path[n] in path && path[n - 1] in path;
    }
  }

  /** A point inside a ring has vertices on every side of it. West of all of them, the ray
      crosses the closed ring an even number of times. */
  lemma InsideIsWithinVertices(ring: Ring, p: Point)
    requires Inside(ring, p)
    ensures exists v :: v in ring && v.lon <= p.lon
    ensures exists v :: v in ring && p.lon < v.lon
    ensures exists v :: v in ring && v.lat <= p.lat
    ensures exists v :: v in ring && p.lat < v.lat
  {
    var path := Around(ring);
    assert forall v :: v in path <==> v in ring;
    BesidePath(path, p);
    if forall v :: v in ring ==> v.lat <= p.lat { OffPath(path, p); }
    if forall v :: v in ring ==> p.lat < v.lat { OffPath(path, p); }
    if ring != [] && forall v :: v in ring ==> p.lon < v.lon { StraddleParity(path, p); }
  }

  // ---------------------------------------------------------------- polygons and their bounds

  /** The outer ring, then the holes. */
  datatype Polygon = Polygon(rings: seq<Ring>)

  predicate Contains(poly: Polygon, p: Point) {
    && poly.rings != [] && Inside(poly.rings[0], p)
    && forall i :: 0 < i < |poly.rings| ==> !Inside(poly.rings[i], p)
  }

  /** polygon.contains */
  method PolygonContains(poly: Polygon, p: Point) returns (contains: bool)
    ensures contains == Contains(poly, p)
    ensures contains <==> && poly.rings != [] && Inside(poly.rings[0], p)
                          && forall i :: 0 < i < |poly.rings| ==> !Inside(poly.rings[i], p)
  {
    hide Inside;
    if |poly.rings| == 0 {
      return false;
    }
    var outer := RingContains(poly.rings[0], p);
    if !outer {
      return false;
    }
    for i := 1 to |poly.rings|
      invariant forall j :: 0 < j < i ==> !Inside(poly.rings[j], p)
    {
      var hole := RingContains(poly.rings[i], p);
      if hole {
        return false;
      }
    }
    return true;
  }

  /** A real, or one of the two infinities. */
  datatype Bound = MinusInf | Fin(value: real) | PlusInf

  predicate AtMost(a: Bound, b: Bound) {
    match (a, b)
    case (MinusInf, _) => true
    case (_, PlusInf) => true
    case (Fin(x), Fin(y)) => x <= y
    case _ => false
  }

  function Lower(a: Bound, x: real): Bound {
    if AtMost(a, Fin(x)) then a else Fin(x)
  }

  function Upper(a: Bound, x: real): Bound {
    if AtMost(Fin(x), a) then a else Fin(x)
  }

  /** The vertices of the outer rings, which bound their polygons. */
  function OuterVertices(polys: seq<Polygon>): seq<Point> {
    if polys == [] then []
    else
      var last := polys[|polys| - 1];
      OuterVertices(polys[..|polys| - 1]) + if last.rings == [] then [] else last.rings[0]
  }

  function Lats(vs: seq<Point>): (r: seq<real>)
    ensures |r| == |vs|
  {
    seq(|vs|, i requires 0 <= i < |vs| => vs[i].lat)
  }

  function Lons(vs: seq<Point>): (r: seq<real>)
    ensures |r| == |vs|
  {
    seq(|vs|, i requires 0 <= i < |vs| => vs[i].lon)
  }

  /** No value lies below `low`, and one reaches it; it is infinite if there are none. */
  ghost predicate IsLeast(xs: seq<real>, low: Bound) {
    && (forall x :: x in xs ==> AtMost(low, Fin(x)))
    && (if xs == [] then low == PlusInf else low.Fin? && low.value in xs)
  }

  ghost predicate IsGreatest(xs: seq<real>, high: Bound) {
    && (forall x :: x in xs ==> AtMost(Fin(x), high))
    && (if xs == [] then high == MinusInf else high.Fin? && high.value in xs)
  }

  lemma GrowBounds(xs: seq<real>, x: real, low: Bound, high: Bound)
    requires IsLeast(xs, low) && IsGreatest(xs, high)
    ensures IsLeast(xs + [x], Lower(low, x)) && IsGreatest(xs + [x], Upper(high, x))
  {
  }

  lemma CoordinatesSnoc(vs: seq<Point>, v: Point)
    ensures Lats(vs + [v]) == Lats(vs) + [v.lat] && Lons(vs + [v]) == Lons(vs) + [v.lon]
  {
  }

  /** A network's coverage and its bounding box. */
  class NetworkArea {
    const polygons: seq<Polygon>
    var minLat: Bound
    var minLon: Bound
    var maxLat: Bound
    var maxLon: Bound

    /** The box is the tightest one around these vertices. */
    ghost predicate Bounds(vs: seq<Point>)
      reads this
    {
      && IsLeast(Lats(vs), minLat) && IsGreatest(Lats(vs), maxLat)
      && IsLeast(Lons(vs), minLon) && IsGreatest(Lons(vs), maxLon)
    }

    predicate InBox(p: Point)
      reads this
    {
      && AtMost(minLat, Fin(p.lat)) && AtMost(Fin(p.lat), maxLat)
      && AtMost(minLon, Fin(p.lon)) && AtMost(Fin(p.lon), maxLon)
    }

    /** buildNetworkArea */
    constructor (polys: seq<Polygon>)
      ensures polygons == polys && Bounds(OuterVertices(polys))
    {
      polygons := polys;
      minLat, minLon, maxLat, maxLon := PlusInf, PlusInf, MinusInf, MinusInf;
      new;
      hide IsLeast, IsGreatest, Lats, Lons;
      NoBounds();
      for i := 0 to |polys|
        invariant Bounds(OuterVertices(polys[..i]))
      {
        assert polys[..i + 1][..i] == polys[..i];
        assert OuterVertices(polys[..i]) + [] == OuterVertices(polys[..i]);
        if |polys[i].rings| == 0 {
          continue;
        }
        var ring := polys[i].rings[0];
        ghost var before := OuterVertices(polys[..i]);
        assert before + ring[..0] == before;
        for j := 0 to |ring|
          invariant Bounds(before + ring[..j])
        {
          assert before + ring[..j + 1] == before + ring[..j] + [ring[j]];
          Include(before + ring[..j], ring[j]);
        }
        assert ring[..|ring|] == ring;
      }
      assert polys[..|polys|] == polys;
    }

    /** Stretches the box to one more vertex. */
    method Include(ghost vs: seq<Point>, v: Point)
      requires Bounds(vs)
      modifies this
      ensures Bounds(vs + [v])
    {
      hide IsLeast, IsGreatest, Lats, Lons, Lower, Upper;
      CoordinatesSnoc(vs, v);
      GrowBounds(Lats(vs), v.lat, minLat, maxLat);
      GrowBounds(Lons(vs), v.lon, minLon, maxLon);
      minLat, maxLat := Lower(minLat, v.lat), Upper(maxLat, v.lat);
      minLon, maxLon := Lower(minLon, v.lon), Upper(maxLon, v.lon);
    }

    /** Every point of the coverage lies in the box. */
    lemma CoverageIsInBox(i: nat, p: Point)
      requires Bounds(OuterVertices(polygons)) && i < |polygons| && Contains(polygons[i], p)
      ensures InBox(p)
    {
      var vs := OuterVertices(polygons);
      hide Bounds, Inside, OuterVertices;
      InsideIsWithinVertices(polygons[i].rings[0], p);
      var w :| w in polygons[i].rings[0] && w.lon <= p.lon;
      var e :| e in polygons[i].rings[0] && p.lon < e.lon;
      var s :| s in polygons[i].rings[0] && s.lat <= p.lat;
      var n :| n in polygons[i].rings[0] && p.lat < n.lat;
      OuterVerticesAre(polygons, w);
      OuterVerticesAre(polygons, e);
      OuterVerticesAre(polygons, s);
      OuterVerticesAre(polygons, n);
      BoundsCover(vs, w);
      BoundsCover(vs, e);
      BoundsCover(vs, s);
      BoundsCover(vs, n);
    }

    lemma BoundsCover(vs: seq<Point>, v: Point)
      requires Bounds(vs) && v in vs
      ensures InBox(v)
    {
      var k :| 0 <= k < |vs| && vs[k] == v;
      assert Lats(vs)[k] == v.lat && Lons(vs)[k] == v.lon;
    }
  }

  lemma NoBounds()
    ensures IsLeast(Lats([]), PlusInf) && IsGreatest(Lats([]), MinusInf)
    ensures IsLeast(Lons([]), PlusInf) && IsGreatest(Lons([]), MinusInf)
  {
  }

  /** Exactly the vertices of the first rings bound the box. */
  lemma {:induction false} OuterVerticesAre(polys: seq<Polygon>, v: Point)
    ensures v in OuterVertices(polys)
            <==> exists i :: 0 <= i < |polys| && polys[i].rings != [] && v in polys[i].rings[0]
  {
    if polys != [] {
      var n := |polys| - 1;
      var init := polys[..n];
      OuterVerticesAre(init, v);
      if i :| 0 <= i < n && init[i].rings != [] && v in init[i].rings[0] {
        assert polys[i].rings != [] && v in polys[i].rings[0];
      }
    }
  }
}
