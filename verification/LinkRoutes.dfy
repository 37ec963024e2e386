/** What a route says about the stored links it leads over, told by what they carry
    themselves: when they were last seen, and the networks they were seen through. */
module LinkRoutes {
  import opened Keys
  import opened LinkModel
  import opened Routing
  import opened RouteSearch
  import opened LinkGraphs

  /** A link seen since the given time, if one is given, through one of the networks that the
      filter selects, if it names any. */
  ghost predicate Open(rec: Rec, f: Filter) {
    && (f.since > 0 ==> f.since <= rec.lastSeen)
    && (f.networks != map[] ==>
          exists i :: 0 <= i < |rec.networks| && rec.networks[i].id in f.networks && f.networks[rec.networks[i].id])
  }

  /** Some of the networks is mapped to true. */
  ghost predicate Selected(ids: seq<string>, selected: map<string, bool>) {
    exists id :: id in ids && id in selected && selected[id]
  }

  lemma {:induction false} AnyInSetIff(ids: seq<string>, selected: map<string, bool>)
    ensures AnyInSet(ids, selected) <==> Selected(ids, selected)
  {
    if ids != [] {
      AnyInSetIff(ids[1..], selected);
      assert ids == [ids[0]] + ids[1..];
    }
  }

  /** The edges of a link pass the filter exactly when the link is open. */
  lemma PassesIffOpen(rec: Rec, to: PubKey, now: int, p: Pricing, f: Filter)
    ensures EdgePasses(EdgeOf(rec, to, now, p), f) <==> Open(rec, f)
  {
    hide EdgeCost, DecayedScore;
    var e := EdgeOf(rec, to, now, p);
    AnyInSetIff(e.networks, f.networks);
    if id :| id in e.networks && id in f.networks && f.networks[id] {
      var i :| 0 <= i < |e.networks| && e.networks[i] == id;
      assert rec.networks[i].id == id;
    }
    if i :| 0 <= i < |rec.networks| && rec.networks[i].id in f.networks && f.networks[rec.networks[i].id] {
      assert e.networks[i] == rec.networks[i].id;
    }
  }

  // ---------------------------------------------------------------- the hops of a route

  /** The hop leads over link `k` and reports its stats. */
  predicate HopOver(hop: RouteHop, k: LinkKey, rec: Rec, now: int, retain: real) {
    && ((hop.from == HexOf(k.a) && hop.to == HexOf(k.b)) || (hop.from == HexOf(k.b) && hop.to == HexOf(k.a)))
    && hop.packetCount == rec.packetCount && hop.firstSeen == rec.firstSeen && hop.lastSeen == rec.lastSeen
    && hop.recentActivity == DecayedScore(rec.score, rec.scoreAt, now, retain)
    && |hop.networks| == |rec.networks|
    && forall i :: 0 <= i < |rec.networks| ==> hop.networks[i] == rec.networks[i].id
  }

  ghost predicate OverStored(hop: RouteHop, links: map<LinkKey, Rec>, now: int, retain: real) {
    exists k :: k in links && HopOver(hop, k, links[k], now, retain)
  }

  /** Some stored, open link joins the two nodes. */
  ghost predicate Joined(links: map<LinkKey, Rec>, f: Filter, n: PubKey, m: PubKey) {
    exists k :: k in links && Joins(k, n, m) && Open(links[k], f)
  }

  /** Each hop of the search leads over a stored, open link, and any such link makes a hop. */
  lemma HopsAreOpenLinks(g: Graph, links: map<LinkKey, Rec>, now: int, p: Pricing, f: Filter, h: Step)
    requires GraphOver(g, links, links.Keys, now, p) && IsHop(g, f, h)
    ensures OverStored(Render(h), links, now, p.retain) && Joined(links, f, h.src, h.edge.to)
    ensures f.since > 0 ==> f.since <= h.edge.lastSeen
    ensures f.networks != map[] ==> Selected(h.edge.networks, f.networks)
  {
    hide EdgeCost, DecayedScore, HexOf, NoParallelEdges, Open;
    AnyInSetIff(h.edge.networks, f.networks);
    assert Accounted(links, links.Keys, h.src, h.edge, now, p);
    var k :| k in links && EdgeOverLink(links, k, h.src, h.edge, now, p);
    PassesIffOpen(links[k], h.edge.to, now, p, f);
    assert HopOver(Render(h), k, links[k], now, p.retain);
  }

  lemma OpenLinkIsHop(g: Graph, links: map<LinkKey, Rec>, now: int, p: Pricing, f: Filter, n: PubKey, m: PubKey)
    returns (h: Step)
    requires GraphOver(g, links, links.Keys, now, p) && Joined(links, f, n, m)
    ensures IsHop(g, f, h) && h.src == n && h.edge.to == m
  {
    hide EdgeOf, Open, NoParallelEdges;
    var k :| k in links && Joins(k, n, m) && Open(links[k], f);
    assert BothWays(g, links, k, now, p);
    PassesIffOpen(links[k], m, now, p, f);
    EdgeTarget(links[k], m, now, p);
    h := Step(n, EdgeOf(links[k], m, now, p));
  }

  /** Every hop of a reported walk shows a stored link and meets the filter's conditions. */
  lemma ReportedHops(g: Graph, links: map<LinkKey, Rec>, now: int, p: Pricing, f: Filter, from: PubKey, w: seq<Step>,
                     to: PubKey)
    requires GraphOver(g, links, links.Keys, now, p) && IsWalk(g, f, from, w, to)
    ensures var hops := Report(from, w).hops;
            && (forall i :: 0 <= i < |hops| ==> OverStored(hops[i], links, now, p.retain))
            && (forall i :: 0 <= i < |hops| ==>
                  && (f.since > 0 ==> f.since <= hops[i].lastSeen)
                  && (f.networks != map[] ==> Selected(hops[i].networks, f.networks)))
  {
    hide GraphOver, OverStored, IsHop, Joined, HexOf;
    forall i | 0 <= i < |w|
      ensures OverStored(Render(w[i]), links, now, p.retain)
      ensures f.since > 0 ==> f.since <= w[i].edge.lastSeen
      ensures f.networks != map[] ==> Selected(w[i].edge.networks, f.networks)
    {
      assert HopAt(g, f, from, w, i);
      HopsAreOpenLinks(g, links, now, p, f, w[i]);
    }
  }

  // ---------------------------------------------------------------- when there is a route

  /** `nodes` leads from one node to another over stored, open links. */
  ghost predicate IsChain(links: map<LinkKey, Rec>, f: Filter, from: PubKey, nodes: seq<PubKey>, to: PubKey) {
    && nodes != [] && nodes[0] == from && nodes[|nodes| - 1] == to
    && forall i, j {:trigger nodes[i], nodes[j]} :: 0 <= i < |nodes| && j == i + 1 < |nodes| ==>
         Joined(links, f, nodes[i], nodes[j])
  }

  lemma {:induction false} WalkIsChain(g: Graph, links: map<LinkKey, Rec>, now: int, p: Pricing, f: Filter,
                                       from: PubKey, w: seq<Step>, to: PubKey) returns (nodes: seq<PubKey>)
    requires GraphOver(g, links, links.Keys, now, p) && IsWalk(g, f, from, w, to)
    ensures IsChain(links, f, from, nodes, to)
  {
    hide GraphOver, Joined;
    if w == [] {
      nodes := [from];
    } else {
      var last := w[|w| - 1];
      DropLastHop(g, f, from, w, to);
      var init := WalkIsChain(g, links, now, p, f, from, w[..|w| - 1], last.src);
      HopsAreOpenLinks(g, links, now, p, f, last);
      nodes := init + [to];
    }
  }

  lemma {:induction false} ChainIsWalk(g: Graph, links: map<LinkKey, Rec>, now: int, p: Pricing, f: Filter,
                                       from: PubKey, nodes: seq<PubKey>, to: PubKey)
    requires GraphOver(g, links, links.Keys, now, p) && IsChain(links, f, from, nodes, to)
    ensures Reachable(g, f, from, to)
    decreases |nodes|
  {
    hide GraphOver, Joined;
    if |nodes| == 1 {
      assert IsWalk(g, f, from, [], to);
    } else {
      var n := |nodes| - 1;
      var mid := nodes[n - 1];
      ChainIsWalk(g, links, now, p, f, from, nodes[..n], mid);
      var w :| IsWalk(g, f, from, w, mid);
      var h := OpenLinkIsHop(g, links, now, p, f, mid, to);
      AddHop(g, f, from, w, h);
    }
  }

  /** A node is reachable exactly over a chain of stored, open links. */
  lemma ReachableIffChained(g: Graph, links: map<LinkKey, Rec>, now: int, p: Pricing, f: Filter, from: PubKey,
                            to: PubKey)
    requires GraphOver(g, links, links.Keys, now, p)
    ensures Reachable(g, f, from, to) <==> exists nodes :: IsChain(links, f, from, nodes, to)
  {
    hide GraphOver, IsWalk, IsChain;
    if w :| IsWalk(g, f, from, w, to) {
      var nodes := WalkIsChain(g, links, now, p, f, from, w, to);
    }
    if nodes :| IsChain(links, f, from, nodes, to) { ChainIsWalk(g, links, now, p, f, from, nodes, to); }
  }

  /** Two nodes joined by a single link that meets the filter's conditions are reachable. */
  lemma NeighborsAreReachable(g: Graph, links: map<LinkKey, Rec>, now: int, p: Pricing, f: Filter, from: PubKey,
                              to: PubKey)
    requires GraphOver(g, links, links.Keys, now, p)
    ensures forall k ::
              && k in links && ((k.a == from && k.b == to) || (k.a == to && k.b == from))
              && (f.since > 0 ==> f.since <= links[k].lastSeen)
              && (f.networks != map[] ==>
                    exists n :: n in links[k].networks && n.id in f.networks && f.networks[n.id])
              ==> Reachable(g, f, from, to)
  {
    hide GraphOver, Reachable;
    forall k |
      && k in links && ((k.a == from && k.b == to) || (k.a == to && k.b == from))
      && (f.since > 0 ==> f.since <= links[k].lastSeen)
      && (f.networks != map[] ==> exists n :: n in links[k].networks && n.id in f.networks && f.networks[n.id])
      ensures Reachable(g, f, from, to)
    {
      if n :| n in links[k].networks && n.id in f.networks && f.networks[n.id] {
        var i :| 0 <= i < |links[k].networks| && links[k].networks[i] == n;
      }
      assert Joins(k, from, to) && Open(links[k], f);
      assert IsChain(links, f, from, [from, to], to);
      ChainIsWalk(g, links, now, p, f, from, [from, to], to);
    }
  }

  lemma OptimalIsWalk(g: Graph, f: Filter, from: PubKey, w: seq<Step>, to: PubKey)
    ensures IsOptimal(g, f, from, w, to) ==> IsWalk(g, f, from, w, to)
  {
  }

  /** What an answer says about the links the graph was built from. */
  lemma AnswerIsOverLinks(g: Graph, links: map<LinkKey, Rec>, now: int, p: Pricing, f: Filter, from: PubKey, to: PubKey,
                          r: RouteResult, w: seq<Step>)
    requires GraphOver(g, links, links.Keys, now, p)
    requires r.found <==> Reachable(g, f, from, to)
    requires if r.found then IsWalk(g, f, from, w, to) && r == Report(from, w) else r == NOT_FOUND
    ensures r.found <==> exists nodes :: IsChain(links, f, from, nodes, to)
    ensures forall i :: 0 <= i < |r.hops| ==> OverStored(r.hops[i], links, now, p.retain)
    ensures f.since > 0 ==> forall i :: 0 <= i < |r.hops| ==> f.since <= r.hops[i].lastSeen
    ensures f.networks != map[] ==> forall i :: 0 <= i < |r.hops| ==> Selected(r.hops[i].networks, f.networks)
    ensures forall k ::
              && k in links && ((k.a == from && k.b == to) || (k.a == to && k.b == from))
              && (f.since > 0 ==> f.since <= links[k].lastSeen)
              && (f.networks != map[] ==> exists n :: n in links[k].networks && n.id in f.networks && f.networks[n.id])
              ==> r.found
  {
    hide GraphOver, IsWalk, IsChain, Reachable, OverStored, Report;
    ReachableIffChained(g, links, now, p, f, from, to);
    NeighborsAreReachable(g, links, now, p, f, from, to);
    if r.found { ReportedHops(g, links, now, p, f, from, w, to); }
  }

  // ---------------------------------------------------------------- the price of a link

  ghost predicate Monotone(f: real -> real) {
    forall x, y {:trigger f(x), f(y)} :: x <= y ==> f(x) <= f(y)
  }

  function AgeDays(lastSeen: int, now: int): real {
    var age := (now - lastSeen) as real / 86400.0;
    if age > 0.0 then age else 0.0
  }

  function Activity(recent: real): real {
    if recent > 0.0 then recent else 0.0
  }

  function Clamped(quality: real): real {
    if quality < 0.000001 then 0.000001 else quality
  }

  /** One for the hop, and the inverse of the quality. */
  function Price(recency: real, strength: real): real {
    1.0 + 1.0 / Clamped(recency * strength)
  }

  lemma CostOf(exp: real -> real, log1p: real -> real, activity: real, lastSeen: int, now: int)
    ensures EdgeCost(exp, log1p, activity, lastSeen, now)
            == Price(exp(-AgeDays(lastSeen, now) / 7.0), 1.0 + log1p(Activity(activity)))
  {
  }

  lemma LaterIsYounger(lastSeen: int, lastSeen': int, now: int)
    requires lastSeen <= lastSeen'
    ensures -AgeDays(lastSeen, now) / 7.0 <= -AgeDays(lastSeen', now) / 7.0
  {
  }

  lemma ProductGrows(x: real, y: real, x': real, y': real)
    requires 0.0 <= x <= x' && 0.0 <= y <= y'
    ensures x * y <= x' * y'
  {
    assert x * y <= x' * y;
    assert x' * y <= x' * y';
  }

  lemma InverseShrinks(x: real, y: real)
    requires 0.0 < x <= y
    ensures 1.0 / y <= 1.0 / x
  {
    assert 1.0 / x - 1.0 / y == (y - x) / (x * y);
  }

  lemma ActivityGrows(x: real, y: real)
    requires x <= y
    ensures 0.0 <= Activity(x) <= Activity(y)
  {
  }

  lemma BetterQuality(r: real, s: real, r': real, s': real)
    requires 0.0 <= r <= r' && 0.0 <= s <= s'
    ensures Price(r, s) >= Price(r', s')
  {
    ProductGrows(r, s, r', s');
    InverseShrinks(Clamped(r * s), Clamped(r' * s'));
  }

  /** A link that is busier, or was seen later, is never dearer, whatever monotone functions
      stand for the exponential and the logarithm. */
  lemma BetterLinksAreNotDearer(exp: real -> real, log1p: real -> real, activity: real, lastSeen: int, activity': real,
                                lastSeen': int, now: int)
    requires Monotone(exp) && Monotone(log1p) && log1p(0.0) >= 0.0 && forall x :: exp(x) > 0.0
    requires activity <= activity' && lastSeen <= lastSeen'
    ensures EdgeCost(exp, log1p, activity, lastSeen, now) >= EdgeCost(exp, log1p, activity', lastSeen', now)
  {
    hide EdgeCost, AgeDays, Activity, Price;
    CostOf(exp, log1p, activity, lastSeen, now);
    CostOf(exp, log1p, activity', lastSeen', now);
    LaterIsYounger(lastSeen, lastSeen', now);
    var x, x' := -AgeDays(lastSeen, now) / 7.0, -AgeDays(lastSeen', now) / 7.0;
    var r, r' := exp(x), exp(x');
    assert 0.0 <= r <= r';
    var s, s' := 1.0 + log1p(Activity(activity)), 1.0 + log1p(Activity(activity'));
    ActivityGrows(activity, activity');
    assert log1p(0.0) <= log1p(Activity(activity)) <= log1p(Activity(activity'));
    BetterQuality(r, s, r', s');
  }
}
