/** The ray-casting test answers right for every triangle. */
module Triangles {
  import opened Collections
  import opened Reals
  import opened Rings

  /** Twice the signed area of a triangle: which side of the line from `a` to `b` is `p` on. */
  function Side(a: Point, b: Point, p: Point): real {
    (b.lon - a.lon) * (p.lat - a.lat) - (p.lon - a.lon) * (b.lat - a.lat)
  }

  lemma QuotientSign(x: real, d: real, z: real)
    requires d != 0.0
    ensures d > 0.0 ==> (z < x / d <==> z * d < x)
    ensures d < 0.0 ==> (z < x / d <==> z * d > x)
  {
    var q := x / d;
    assert q * d == x;
    assert (q - z) * d == q * d - z * d;
    if d > 0.0 && q > z { PositiveProduct(q - z, d); }
    if d < 0.0 && q > z { PositiveProduct(q - z, -d); }
    if d > 0.0 && q < z { PositiveProduct(z - q, d); }
    if d < 0.0 && q < z { PositiveProduct(z - q, -d); }
  }

  /** An edge is crossed from its east side if it leads up, and from its west side if down. */
  lemma CrossesBySide(a: Point, b: Point, p: Point)
    ensures Crosses(a, b, p) <==> if a.lat <= p.lat < b.lat then Side(a, b, p) > 0.0
                                  else b.lat <= p.lat < a.lat && Side(a, b, p) < 0.0
  {
    if Straddles(a, b, p) {
      QuotientSign((b.lon - a.lon) * (p.lat - a.lat), b.lat - a.lat, p.lon - a.lon);
    }
  }

  lemma TriangleCrossings(u: Point, v: Point, w: Point, p: Point)
    ensures Inside([u, v, w], p)
            <==> (Crosses(u, v, p) != Crosses(v, w, p)) != Crosses(w, u, p)
  {
    hide Crosses;
    var ring := [u, v, w];
    AllEdges(ring, p);
    CrossesIsSymmetric(u, v, p);
    CrossesIsSymmetric(v, w, p);
    CrossesIsSymmetric(w, u, p);
    NextEdge(ring, 0, p);
    NextEdge(ring, 1, p);
    NextEdge(ring, 2, p);
    NoEdgesYet(ring, p);
  }

  // ---------------------------------------------------------------- weights

  /** `p` is the mean of the three points by these weights, which may be negative. */
  predicate Weighs(u: Point, v: Point, w: Point, p: Point, x: real, y: real, z: real) {
    && x + y + z == 1.0
    && p.lon == x * u.lon + y * v.lon + z * w.lon && p.lat == x * u.lat + y * v.lat + z * w.lat
  }

  /** Relative to `u`, only the other two points weigh. */
  lemma FromFirst(a: real, b: real, c: real, p: real, x: real, y: real, z: real)
    requires x + y + z == 1.0 && p == x * a + y * b + z * c
    ensures p - a == y * (b - a) + z * (c - a)
  {
    Distribute(x, y + z, a);
    Distribute(y, z, a);
  }

  lemma Determinant(x1: real, y1: real, x2: real, y2: real, y: real, z: real)
    ensures x1 * (y * y1 + z * y2) - (y * x1 + z * x2) * y1 == z * (x1 * y2 - x2 * y1)
  {
    Distribute(y * x1, z * x2, y1);
    Associate(y, x1, y1);
    Associate(z, x2, y1);
    Distribute(y * y1, z * y2, x1);
    Associate(y, y1, x1);
    Associate(z, y2, x1);
    Distribute(x1 * y2, -(x2 * y1), z);
  }

  /** On which side of the first edge a point lies is told by the weight of the third vertex. */
  lemma SideIsWeight(u: Point, v: Point, w: Point, p: Point, x: real, y: real, z: real)
    requires Weighs(u, v, w, p, x, y, z)
    ensures Side(u, v, p) == z * Side(u, v, w)
  {
    FromFirst(u.lon, v.lon, w.lon, p.lon, x, y, z);
    FromFirst(u.lat, v.lat, w.lat, p.lat, x, y, z);
    Determinant(v.lon - u.lon, v.lat - u.lat, w.lon - u.lon, w.lat - u.lat, y, z);
  }

  lemma SideRotates(u: Point, v: Point, w: Point)
    ensures Side(u, v, w) == Side(v, w, u)
  {
  }

  /** The product of two numbers has the sign that theirs make. */
  predicate Signed(x: real, y: real, xy: real) {
    && (x == 0.0 || y == 0.0 ==> xy == 0.0)
    && ((x > 0.0 && y > 0.0) || (x < 0.0 && y < 0.0) ==> xy > 0.0)
    && ((x > 0.0 && y < 0.0) || (x < 0.0 && y > 0.0) ==> xy < 0.0)
  }

  lemma ProductSigned(x: real, y: real)
    ensures Signed(x, y, x * y)
  {
    if x > 0.0 && y > 0.0 { PositiveProduct(x, y); }
    if x < 0.0 && y < 0.0 { PositiveProduct(-x, -y); }
    if x > 0.0 && y < 0.0 { PositiveProduct(x, -y); }
    if x < 0.0 && y > 0.0 { PositiveProduct(-x, y); }
  }

  /** The height of a vertex over `p` makes an edge lead up or down; `side` is the weight of
      the vertex opposite to it. */
  predicate Counts(from: real, to: real, side: real) {
    if from <= 0.0 < to then side > 0.0 else to <= 0.0 < from && side < 0.0
  }

  lemma CountsByWeight(u: Point, v: Point, w: Point, p: Point, x: real, y: real, z: real)
    requires Weighs(u, v, w, p, x, y, z) && Side(u, v, w) > 0.0
    ensures Crosses(u, v, p) <==> Counts(u.lat - p.lat, v.lat - p.lat, z)
  {
    CrossesBySide(u, v, p);
    SideIsWeight(u, v, w, p, x, y, z);
    ProductSigned(z, Side(u, v, w));
  }

  /** Heights over `p`, weighed, add up to nothing. If no weight is zero or less, an edge in
      three counts; if one is negative, an even number does. */
  lemma CountsAddUp(hu: real, hv: real, hw: real, x: real, y: real, z: real, xu: real, yv: real, zw: real)
    requires Signed(x, hu, xu) && Signed(y, hv, yv) && Signed(z, hw, zw)
    requires xu + yv + zw == 0.0 && x + y + z == 1.0
    ensures var odd := (Counts(hu, hv, z) != Counts(hv, hw, x)) != Counts(hw, hu, y);
            && (z < 0.0 ==> !odd)
            && (x > 0.0 && y > 0.0 && z > 0.0 && !(hu == hv == hw == 0.0) ==> odd)
  {
  }

  lemma WeighedHeights(a: real, b: real, c: real, p: real, x: real, y: real, z: real)
    requires x + y + z == 1.0 && p == x * a + y * b + z * c
    ensures x * (a - p) + y * (b - p) + z * (c - p) == 0.0
  {
    Distribute(a, -p, x);
    Distribute(b, -p, y);
    Distribute(c, -p, z);
    Distribute(x, y, p);
    Distribute(x + y, z, p);
  }

  lemma LeftTurning(u: Point, v: Point, w: Point, p: Point, x: real, y: real, z: real)
    requires Weighs(u, v, w, p, x, y, z) && Side(u, v, w) > 0.0
    ensures z < 0.0 ==> !Inside([u, v, w], p)
    ensures x > 0.0 && y > 0.0 && z > 0.0 ==> Inside([u, v, w], p)
  {
    var hu, hv, hw := u.lat - p.lat, v.lat - p.lat, w.lat - p.lat;
    SideRotates(u, v, w);
    SideRotates(v, w, u);
    CountsByWeight(u, v, w, p, x, y, z);
    CountsByWeight(v, w, u, p, y, z, x);
    CountsByWeight(w, u, v, p, z, x, y);
    TriangleCrossings(u, v, w, p);
    WeighedHeights(u.lat, v.lat, w.lat, p.lat, x, y, z);
    ProductSigned(x, hu);
    ProductSigned(y, hv);
    ProductSigned(z, hw);
    CountsAddUp(hu, hv, hw, x, y, z, x * hu, y * hv, z * hw);
    FlatHasNoSide(u, v, w);
    hide Crosses, Inside, Side, Counts, Weighs, Signed;
  }

  lemma FlatHasNoSide(u: Point, v: Point, w: Point)
    ensures u.lat == v.lat == w.lat ==> Side(u, v, w) == 0.0
  {
  }

  lemma Turned(u: Point, v: Point, w: Point, p: Point)
    ensures Inside([u, v, w], p) == Inside([v, w, u], p) == Inside([v, u, w], p)
    ensures Side(v, u, w) == -Side(u, v, w)
  {
    hide Inside;
    RotationKeepsInside([u], [v, w], p);
    assert [u] + [v, w] == [u, v, w] && [v, w] + [u] == [v, w, u];
    ReversalKeepsInside([u, v, w], p);
    assert Reversed([u, v, w]) == [w, v, u];
    RotationKeepsInside([w], [v, u], p);
    assert [w] + [v, u] == [w, v, u] && [v, u] + [w] == [v, u, w];
  }

  lemma BeyondFirstSide(u: Point, v: Point, w: Point, p: Point, x: real, y: real, z: real)
    requires Weighs(u, v, w, p, x, y, z) && Side(u, v, w) != 0.0
    ensures z < 0.0 ==> !Inside([u, v, w], p)
    ensures x > 0.0 && y > 0.0 && z > 0.0 ==> Inside([u, v, w], p)
  {
    hide Inside, Side;
    Turned(u, v, w, p);
    if Side(u, v, w) > 0.0 {
      LeftTurning(u, v, w, p, x, y, z);
    } else {
      LeftTurning(v, u, w, p, y, x, z);
    }
  }

  /** For every proper triangle: a strict mean of the vertices is inside, a point strictly
      beyond one of the sides is outside. */
  lemma TriangleInside(u: Point, v: Point, w: Point, p: Point, x: real, y: real, z: real)
    requires (v.lon - u.lon) * (w.lat - u.lat) != (w.lon - u.lon) * (v.lat - u.lat)
    requires x + y + z == 1.0
    requires p == Point(x * u.lon + y * v.lon + z * w.lon, x * u.lat + y * v.lat + z * w.lat)
    ensures x > 0.0 && y > 0.0 && z > 0.0 ==> Inside([u, v, w], p)
    ensures x < 0.0 || y < 0.0 || z < 0.0 ==> !Inside([u, v, w], p)
  {
    assert Side(u, v, w) != 0.0 && Weighs(u, v, w, p, x, y, z);
    SideRotates(u, v, w);
    SideRotates(v, w, u);
    Turned(u, v, w, p);
    Turned(v, w, u, p);
    hide Inside, Side;
    BeyondFirstSide(u, v, w, p, x, y, z);
    BeyondFirstSide(v, w, u, p, y, z, x);
    BeyondFirstSide(w, u, v, p, z, x, y);
  }

  /** Cramer's rule for one coordinate. */
  lemma Solved(x1: real, y1: real, x2: real, y2: real, px: real, py: real) returns (y: real, z: real)
    requires x1 * y2 != x2 * y1
    ensures y * x1 + z * x2 == px && y * y1 + z * y2 == py
  {
    var d, m, n := x1 * y2 - x2 * y1, px * y2 - x2 * py, x1 * py - px * y1;
    y, z := m / d, n / d;
    Expanded(x1, y1, x2, y2, px, py);
    Quotients(m, n, x1, x2, d, px);
    Quotients(m, n, y1, y2, d, py);
  }

  lemma Expanded(x1: real, y1: real, x2: real, y2: real, px: real, py: real)
    ensures (px * y2 - x2 * py) * x1 + (x1 * py - px * y1) * x2 == px * (x1 * y2 - x2 * y1)
    ensures (px * y2 - x2 * py) * y1 + (x1 * py - px * y1) * y2 == py * (x1 * y2 - x2 * y1)
  {
  }

  lemma Quotients(m: real, n: real, a: real, b: real, d: real, p: real)
    requires d != 0.0 && m * a + n * b == p * d
    ensures m / d * a + n / d * b == p
  {
    DivMul(a, m, d);
    DivMul(b, n, d);
    DivAdd(a * m, b * n, d);
    DivCancel(p, d);
  }

  lemma FirstTakesRest(a: real, b: real, c: real, p: real, y: real, z: real)
    requires y * (b - a) + z * (c - a) == p - a
    ensures p == (1.0 - y - z) * a + y * b + z * c
  {
    Distribute(b, -a, y);
    Distribute(c, -a, z);
    Distribute(1.0, -y, a);
    Distribute(1.0 - y, -z, a);
  }

  lemma FirstWeighs(u: Point, v: Point, w: Point, p: Point, y: real, z: real) returns (x: real)
    requires y * (v.lon - u.lon) + z * (w.lon - u.lon) == p.lon - u.lon
    requires y * (v.lat - u.lat) + z * (w.lat - u.lat) == p.lat - u.lat
    ensures x + y + z == 1.0
    ensures p == Point(x * u.lon + y * v.lon + z * w.lon, x * u.lat + y * v.lat + z * w.lat)
  {
    x := 1.0 - y - z;
    FirstTakesRest(u.lon, v.lon, w.lon, p.lon, y, z);
    FirstTakesRest(u.lat, v.lat, w.lat, p.lat, y, z);
  }

  /** Every point is such a mean, so that only points on the lines through the sides are left
      open. */
  lemma EveryPointWeighs(u: Point, v: Point, w: Point, p: Point) returns (x: real, y: real, z: real)
    requires (v.lon - u.lon) * (w.lat - u.lat) != (w.lon - u.lon) * (v.lat - u.lat)
    ensures x + y + z == 1.0
    ensures p == Point(x * u.lon + y * v.lon + z * w.lon, x * u.lat + y * v.lat + z * w.lat)
  {
    var x1, y1, x2, y2 := v.lon - u.lon, v.lat - u.lat, w.lon - u.lon, w.lat - u.lat;
    y, z := Solved(x1, y1, x2, y2, p.lon - u.lon, p.lat - u.lat);
    x := FirstWeighs(u, v, w, p, y, z);
  }
}
