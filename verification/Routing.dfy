/** The link graph a route is searched in, and what a best route through it is. */
module Routing {
  import opened Keys

  const ROUTE_HOP_BASE := 1.0

  /** One direction of a link, with the stats a hop reports. */
  datatype Edge = Edge(to: PubKey, packetCount: nat, recentActivity: real, firstSeen: int, lastSeen: int,
                       networks: seq<string>, cost: real)

  type Graph = map<PubKey, seq<Edge>>

  /** The active/network filter of one request; only networks mapped to true select. */
  datatype Filter = Filter(since: int, networks: map<string, bool>)

  function Out(g: Graph, n: PubKey): seq<Edge> {
    if n in g then g[n] else []
  }

  predicate AnyInSet(values: seq<string>, selected: map<string, bool>) {
    values != [] && ((values[0] in selected && selected[values[0]]) || AnyInSet(values[1..], selected))
  }

  predicate EdgePasses(e: Edge, f: Filter) {
    && !(f.since > 0 && e.lastSeen < f.since)
    && !(f.networks != map[] && !AnyInSet(e.networks, f.networks))
  }

  /** The cost of a link for abstract exp and log1p: a fixed hop base plus the inverse of
      a quality that is clamped away from zero. */
  function EdgeCost(exp: real -> real, log1p: real -> real, recentActivity: real, lastSeen: int, now: int): (cost: real)
    ensures cost > ROUTE_HOP_BASE
  {
    var age := (now - lastSeen) as real / 86400.0;
    var ageDays := if age > 0.0 then age else 0.0;
    var recency := exp(-ageDays / 7.0);
    var strength := 1.0 + log1p(if recentActivity > 0.0 then recentActivity else 0.0);
    var quality := recency * strength;
    var clamped := if quality < 0.000001 then 0.000001 else quality;
    ROUTE_HOP_BASE + 1.0 / clamped
  }

  ghost predicate PositiveCosts(g: Graph) {
    forall n, e :: e in Out(g, n) ==> e.cost > 0.0
  }

  // ---------------------------------------------------------------- walks

  /** One step of a walk: an edge together with the node it leaves. */
  datatype Step = Step(src: PubKey, edge: Edge)

  /** Node `i` of the walk `w` that starts in `s`. */
  function Visit(s: PubKey, w: seq<Step>, i: nat): PubKey
    requires i <= |w|
  {
    if i == 0 then s else w[i - 1].edge.to
  }

  /** `w` leads from `s` to `t`: hop i leaves node i and enters node i+1 by a
      filter-passing edge of `g`. */
  ghost predicate IsWalk(g: Graph, f: Filter, s: PubKey, w: seq<Step>, t: PubKey) {
    && (forall i {:trigger HopAt(g, f, s, w, i)} :: 0 <= i < |w| ==> HopAt(g, f, s, w, i))
    && t == Visit(s, w, |w|)
  }

  ghost predicate HopAt(g: Graph, f: Filter, s: PubKey, w: seq<Step>, i: nat)
    requires i < |w|
  {
    IsHop(g, f, w[i]) && w[i].src == Visit(s, w, i)
  }

  ghost predicate IsHop(g: Graph, f: Filter, h: Step) {
    h.edge in Out(g, h.src) && EdgePasses(h.edge, f)
  }

  lemma DropLastHop(g: Graph, f: Filter, s: PubKey, w: seq<Step>, t: PubKey)
    requires IsWalk(g, f, s, w, t) && w != []
    ensures var last := w[|w| - 1];
            IsWalk(g, f, s, w[..|w| - 1], last.src) && IsHop(g, f, last) && last.edge.to == t
  {
    var n := |w| - 1;
    var init := w[..n];
    assert HopAt(g, f, s, w, n);
    forall i | 0 <= i < n ensures HopAt(g, f, s, init, i) {
      assert HopAt(g, f, s, w, i);
    }
  }

  lemma AddHop(g: Graph, f: Filter, s: PubKey, w: seq<Step>, last: Step)
    requires IsWalk(g, f, s, w, last.src) && IsHop(g, f, last)
    ensures IsWalk(g, f, s, w + [last], last.edge.to)
    ensures Cost(w + [last]) == Cost(w) + last.edge.cost
  {
    var v := w + [last];
    assert v[..|v| - 1] == w;
    forall i | 0 <= i < |v| ensures HopAt(g, f, s, v, i) {
      if i < |w| { assert HopAt(g, f, s, w, i); }
    }
  }

  ghost function Cost(w: seq<Step>): real {
    if w == [] then 0.0 else Cost(w[..|w| - 1]) + w[|w| - 1].edge.cost
  }

  ghost predicate Reachable(g: Graph, f: Filter, s: PubKey, t: PubKey) {
    exists w :: IsWalk(g, f, s, w, t)
  }

  /** No walk with the same ends is cheaper. */
  ghost predicate IsOptimal(g: Graph, f: Filter, s: PubKey, w: seq<Step>, t: PubKey) {
    && IsWalk(g, f, s, w, t)
    && forall v :: IsWalk(g, f, s, v, t) ==> Cost(w) <= Cost(v)
  }

  /** The nodes a walk visits, its start included. */
  function Visits(s: PubKey, w: seq<Step>): (r: seq<PubKey>)
    ensures |r| == |w| + 1
  {
    seq(|w| + 1, i requires 0 <= i <= |w| => Visit(s, w, i))
  }

  ghost predicate AllDistinct<T>(s: seq<T>) {
    forall i, j :: 0 <= i < j < |s| ==> s[i] != s[j]
  }

  // ---------------------------------------------------------------- mirrored graphs

  /** The same link seen from its other end. */
  function Reverse(h: Step): Step {
    Step(h.edge.to, h.edge.(to := h.src))
  }

  /** Every edge has its mirror image in the graph. */
  ghost predicate Mirrored(g: Graph) {
    forall n, e {:trigger HasMirror(g, n, e)} :: e in Out(g, n) ==> HasMirror(g, n, e)
  }

  ghost predicate HasMirror(g: Graph, n: PubKey, e: Edge) {
    Reverse(Step(n, e)).edge in Out(g, e.to)
  }

  function ReverseWalk(w: seq<Step>): (r: seq<Step>)
    ensures |r| == |w|
  {
    seq(|w|, i requires 0 <= i < |w| => Reverse(w[|w| - 1 - i]))
  }

  lemma {:induction false} ReverseWalkCost(w: seq<Step>)
    ensures Cost(ReverseWalk(w)) == Cost(w)
  {
    if w != [] {
      var r, rest := ReverseWalk(w), ReverseWalk(w[1..]);
      var n := |w| - 1;
      ReverseWalkCost(w[1..]);
      assert r[..n] == rest by {
        forall i | 0 <= i < n ensures r[i] == rest[i] {
          assert w[1..][n - 1 - i] == w[n - i];
        }
      }
      assert r[n] == Reverse(w[0]);
      CostFromFront(w);
    }
  }

  lemma {:induction false} CostFromFront(w: seq<Step>)
    requires w != []
    ensures Cost(w) == w[0].edge.cost + Cost(w[1..])
  {
    var n := |w| - 1;
    if n == 0 {
      assert w[..0] == [] && w[1..] == [];
    } else {
      CostFromFront(w[..n]);
      assert w[..n][1..] == w[1..][..n - 1];
    }
  }

  /** In a mirrored graph every walk can be walked backwards, at the same cost. */
  lemma ReverseWalkIsWalk(g: Graph, f: Filter, s: PubKey, w: seq<Step>, t: PubKey)
    requires Mirrored(g) && IsWalk(g, f, s, w, t)
    ensures IsWalk(g, f, t, ReverseWalk(w), s)
    ensures Cost(ReverseWalk(w)) == Cost(w)
  {
    ReverseWalkCost(w);
    var r := ReverseWalk(w);
    var n := |w|;
    forall i | 0 <= i < n ensures HopAt(g, f, t, r, i) {
      assert HopAt(g, f, s, w, n - 1 - i);
      ReverseHop(g, f, w[n - 1 - i]);
      if i > 0 {
        assert HopAt(g, f, s, w, n - i);
        assert r[i - 1] == Reverse(w[n - i]);
      }
    }
    if n > 0 {
      assert HopAt(g, f, s, w, 0);
      assert r[n - 1] == Reverse(w[0]);
    }
  }

  lemma ReverseHop(g: Graph, f: Filter, h: Step)
    requires Mirrored(g) && IsHop(g, f, h)
    ensures IsHop(g, f, Reverse(h))
  {
    assert HasMirror(g, h.src, h.edge);
    EdgePassesIgnoresTarget(h.edge, h.src, f);
  }

  lemma EdgePassesIgnoresTarget(e: Edge, n: PubKey, f: Filter)
    ensures EdgePasses(e.(to := n), f) == EdgePasses(e, f)
  {
  }

  /** In a mirrored graph a best route back costs what a best route there costs, under
      any filter, and one exists exactly when the other does. */
  lemma OptimalCostIsSymmetric(g: Graph, f: Filter, s: PubKey, t: PubKey, there: seq<Step>, back: seq<Step>)
    requires Mirrored(g)
    ensures Reachable(g, f, s, t) <==> Reachable(g, f, t, s)
    ensures IsOptimal(g, f, s, there, t) && IsOptimal(g, f, t, back, s) ==> Cost(there) == Cost(back)
  {
    if w :| IsWalk(g, f, s, w, t) { ReverseWalkIsWalk(g, f, s, w, t); }
    if w :| IsWalk(g, f, t, w, s) { ReverseWalkIsWalk(g, f, t, w, s); }
    if IsOptimal(g, f, s, there, t) && IsOptimal(g, f, t, back, s) {
      ReverseWalkIsWalk(g, f, s, there, t);
      ReverseWalkIsWalk(g, f, t, back, s);
    }
  }
}
