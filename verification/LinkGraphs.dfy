/** The adjacency snapshot that routes are searched in, and the cache that holds it. */
module LinkGraphs {
  import opened Keys
  import opened LinkModel
  import opened LinkViews
  import opened LinkRuns
  import opened Routing

  const ROUTE_CACHE_TTL := 15

  /** How link costs and scores are computed, for abstract exp and log1p. */
  datatype Pricing = Pricing(exp: real -> real, log1p: real -> real, retain: real)

  /** The edge that leads to `to` over a link. */
  function EdgeOf(rec: Rec, to: PubKey, now: int, p: Pricing): Edge {
    var activity := DecayedScore(rec.score, rec.scoreAt, now, p.retain);
    Edge(to, rec.packetCount, activity, rec.firstSeen, rec.lastSeen, NetworkIds(rec.networks),
         EdgeCost(p.exp, p.log1p, activity, rec.lastSeen, now))
  }

  /** The link leads from `n` to `m`. */
  predicate Joins(k: LinkKey, n: PubKey, m: PubKey) {
    (k.a == n && k.b == m) || (k.a == m && k.b == n)
  }

  /** `g` holds exactly the two directions of every link in `keys`: each of its edges
      belongs to one of them, each of them has both its edges, and no node has two edges to
      the same neighbor. */
  ghost predicate GraphOver(g: Graph, links: map<LinkKey, Rec>, keys: set<LinkKey>, now: int, p: Pricing) {
    && keys <= links.Keys
    && (forall n, e {:trigger Accounted(links, keys, n, e, now, p)} :: e in Out(g, n) ==>
        Accounted(links, keys, n, e, now, p))
    && (forall k {:trigger BothWays(g, links, k, now, p)} :: k in keys ==> BothWays(g, links, k, now, p))
    && (forall n {:trigger NoParallelEdges(Out(g, n))} :: NoParallelEdges(Out(g, n)))
  }

  ghost predicate Accounted(links: map<LinkKey, Rec>, keys: set<LinkKey>, n: PubKey, e: Edge, now: int, p: Pricing)
    requires keys <= links.Keys
  {
    exists k :: k in keys && EdgeOverLink(links, k, n, e, now, p)
  }

  predicate EdgeOverLink(links: map<LinkKey, Rec>, k: LinkKey, n: PubKey, e: Edge, now: int, p: Pricing)
    requires k in links
  {
    Joins(k, n, e.to) && e == EdgeOf(links[k], e.to, now, p)
  }

  predicate BothWays(g: Graph, links: map<LinkKey, Rec>, k: LinkKey, now: int, p: Pricing)
    requires k in links
  {
    EdgeOf(links[k], k.b, now, p) in Out(g, k.a) && EdgeOf(links[k], k.a, now, p) in Out(g, k.b)
  }

  predicate NoParallelEdges(edges: seq<Edge>) {
    forall i, j :: 0 <= i < j < |edges| ==> edges[i].to != edges[j].to
  }

  ghost predicate CanonicalKeys(keys: set<LinkKey>) {
    forall k {:trigger IsCanonical(k)} :: k in keys ==> IsCanonical(k)
  }

  /** Two canonical keys of the same two nodes are the same key. */
  lemma JoinsUnique(k: LinkKey, l: LinkKey, n: PubKey, m: PubKey)
    requires IsCanonical(k) && IsCanonical(l) && Joins(k, n, m) && Joins(l, n, m)
    ensures k == l
  {
    if k != l {
      LexAntisymmetric(k.a.bytes, k.b.bytes);
    }
  }

  lemma AppendedOut(g: Graph, n: PubKey, e: Edge)
    ensures forall m :: Out(g[n := Out(g, n) + [e]], m) == if m == n then Out(g, n) + [e] else Out(g, m)
  {
  }

  lemma NoEdgeYet(g: Graph, links: map<LinkKey, Rec>, keys: set<LinkKey>, now: int, p: Pricing, key: LinkKey,
                  n: PubKey, m: PubKey)
    requires GraphOver(g, links, keys, now, p) && CanonicalKeys(keys)
    requires IsCanonical(key) && key !in keys && Joins(key, n, m)
    ensures forall e :: e in Out(g, n) ==> e.to != m
  {
    hide EdgeOf, LexLeq;
    forall e | e in Out(g, n) ensures e.to != m {
      assert Accounted(links, keys, n, e, now, p);
      var k :| k in keys && EdgeOverLink(links, k, n, e, now, p);
      if e.to == m {
        assert IsCanonical(k);
        JoinsUnique(k, key, n, m);
      }
    }
  }

  /** Adding one direction of a link. */
  lemma AddEdge(g: Graph, links: map<LinkKey, Rec>, keys: set<LinkKey>, now: int, p: Pricing, key: LinkKey,
                n: PubKey, e: Edge)
    requires key in links && keys <= links.Keys && EdgeOverLink(links, key, n, e, now, p)
    requires forall m, d {:trigger Accounted(links, keys, m, d, now, p)} :: d in Out(g, m) ==>
            Accounted(links, keys, m, d, now, p)
    requires forall m {:trigger NoParallelEdges(Out(g, m))} :: NoParallelEdges(Out(g, m))
    requires forall d :: d in Out(g, n) ==> d.to != e.to
    ensures var g' := g[n := Out(g, n) + [e]];
            && (forall m, d {:trigger Accounted(links, keys + {key}, m, d, now, p)} :: d in Out(g', m) ==>
                Accounted(links, keys + {key}, m, d, now, p))
            && (forall m {:trigger NoParallelEdges(Out(g', m))} :: NoParallelEdges(Out(g', m)))
            && (forall m, d :: d in Out(g, m) ==> d in Out(g', m))
            && e in Out(g', n)
            && (forall m :: m != n ==> Out(g', m) == Out(g, m))
  {
    hide EdgeOf;
    var g' := g[n := Out(g, n) + [e]];
    AppendedOut(g, n, e);
    forall m, d | d in Out(g', m) ensures Accounted(links, keys + {key}, m, d, now, p) {
      if d in Out(g, m) {
        assert Accounted(links, keys, m, d, now, p);
        var k :| k in keys && EdgeOverLink(links, k, m, d, now, p);
        assert k in keys + {key};
      } else {
        assert key in keys + {key} && EdgeOverLink(links, key, m, d, now, p);
      }
    }
    forall m ensures NoParallelEdges(Out(g', m)) {
      assert NoParallelEdges(Out(g, m));
    }
  }

  /** Adding both directions of one more link. */
  lemma AddLinkEdges(g: Graph, links: map<LinkKey, Rec>, keys: set<LinkKey>, now: int, p: Pricing, key: LinkKey)
    requires GraphOver(g, links, keys, now, p) && CanonicalKeys(keys)
    requires key in links && IsCanonical(key) && key !in keys
    ensures var g1 := g[key.a := Out(g, key.a) + [EdgeOf(links[key], key.b, now, p)]];
            var g2 := g1[key.b := Out(g1, key.b) + [EdgeOf(links[key], key.a, now, p)]];
            GraphOver(g2, links, keys + {key}, now, p)
  {
    var ab, ba := EdgeOf(links[key], key.b, now, p), EdgeOf(links[key], key.a, now, p);
    EdgeTarget(links[key], key.b, now, p);
    EdgeTarget(links[key], key.a, now, p);
    hide EdgeOf, LexLeq, NoParallelEdges, Accounted;
    NoEdgeYet(g, links, keys, now, p, key, key.a, key.b);
    NoEdgeYet(g, links, keys, now, p, key, key.b, key.a);
    AddEdge(g, links, keys, now, p, key, key.a, ab);
    var g1 := g[key.a := Out(g, key.a) + [ab]];
    AddEdge(g1, links, keys + {key}, now, p, key, key.b, ba);
    assert keys + {key} + {key} == keys + {key};
    forall k | k in keys + {key} ensures BothWays(g1[key.b := Out(g1, key.b) + [ba]], links, k, now, p) {
      if k != key { assert BothWays(g, links, k, now, p); }
    }
  }

  lemma EdgeTarget(rec: Rec, to: PubKey, now: int, p: Pricing)
    ensures EdgeOf(rec, to, now, p).to == to
  {
  }

  lemma EdgeReversed(links: map<LinkKey, Rec>, k: LinkKey, n: PubKey, e: Edge, now: int, p: Pricing)
    requires k in links && EdgeOverLink(links, k, n, e, now, p)
    ensures Reverse(Step(n, e)).edge == EdgeOf(links[k], n, now, p) && e.cost > 0.0
  {
  }

  /** What the search relies on: every edge has its mirror image, at the same cost; costs are
      positive; no edge leads back to its own node. */
  lemma GraphOfLinks(g: Graph, links: map<LinkKey, Rec>, keys: set<LinkKey>, now: int, p: Pricing)
    requires GraphOver(g, links, keys, now, p) && CanonicalKeys(keys)
    ensures Mirrored(g) && PositiveCosts(g)
    ensures forall n, e :: e in Out(g, n) ==> e.to != n
  {
    hide EdgeOf, LexLeq, NoParallelEdges;
    forall n, e | e in Out(g, n) ensures HasMirror(g, n, e) && e.cost > 0.0 && e.to != n {
      assert Accounted(links, keys, n, e, now, p);
      var k :| k in keys && EdgeOverLink(links, k, n, e, now, p);
      assert IsCanonical(k);
      assert BothWays(g, links, k, now, p);
      EdgeReversed(links, k, n, e, now, p);
    }
  }

  // ---------------------------------------------------------------- the cache

  datatype Snapshot = Snapshot(builtAt: int, graph: Graph)

  predicate Reusable(cache: Option<Snapshot>, now: int) {
    cache.Some? && now - cache.value.builtAt < ROUTE_CACHE_TTL
  }

  /** The registry with the snapshot it keeps. */
  datatype Desk = Desk(st: State, cache: Option<Snapshot>)

  /** A request for the graph: the snapshot is served while it is young enough, otherwise it
      is replaced by the graph of the links now stored. */
  ghost predicate Asked(before: Desk, now: int, after: Desk, p: Pricing) {
    && after.st == before.st
    && if Reusable(before.cache, now) then after.cache == before.cache
       else
         && after.cache.Some? && after.cache.value.builtAt == now
         && GraphOver(after.cache.value.graph, before.st.links, before.st.links.Keys, now, p)
  }

  /** What happens over time: a request, the end of a restore, or a locked section. */
  datatype DeskEvent = Ask(now: int) | RestoreDone | Work(op: Op)

  ghost predicate DeskStep(before: Desk, e: DeskEvent, after: Desk, cfg: Config, p: Pricing) {
    match e
    case Ask(now) => Asked(before, now, after, p)
    case RestoreDone => after == before.(cache := None)
    case Work(op) => after == before.(st := Apply(before.st, op, cfg))
  }

  ghost predicate StepAt(desks: seq<Desk>, events: seq<DeskEvent>, i: nat, cfg: Config, p: Pricing)
    requires |desks| == |events| + 1 && i < |events|
  {
    DeskStep(desks[i], events[i], desks[i + 1], cfg, p)
  }

  /** A history that starts without a snapshot. */
  ghost predicate IsHistory(desks: seq<Desk>, events: seq<DeskEvent>, cfg: Config, p: Pricing) {
    && |desks| == |events| + 1 && desks[0].cache == None
    && forall i {:trigger StepAt(desks, events, i, cfg, p)} :: 0 <= i < |events| ==> StepAt(desks, events, i, cfg, p)
  }

  /** The snapshot held after `n` events shows the links of the request at `m`; no restore has
      finished since, and every later request came less than 15 seconds after it. */
  ghost predicate BuiltAt(desks: seq<Desk>, events: seq<DeskEvent>, m: nat, n: nat, p: Pricing)
    requires m < n <= |events| && |desks| == |events| + 1
  {
    && events[m].Ask? && desks[n].cache.Some?
    && var s := desks[n].cache.value;
    && s.builtAt == events[m].now
    && GraphOver(s.graph, desks[m].st.links, desks[m].st.links.Keys, events[m].now, p)
    && forall j :: m < j < n ==>
         events[j] != RestoreDone && (events[j].Ask? ==> events[j].now - s.builtAt < 15)
  }

  lemma {:induction false} SnapshotIsFresh(desks: seq<Desk>, events: seq<DeskEvent>, n: nat, cfg: Config, p: Pricing)
    requires IsHistory(desks, events, cfg, p) && n <= |events| && desks[n].cache.Some?
    ensures exists m: nat :: m < n && BuiltAt(desks, events, m, n, p)
  {
    hide GraphOver;
    if n > 0 {
      assert StepAt(desks, events, n - 1, cfg, p);
      if desks[n].cache == desks[n - 1].cache {
        SnapshotIsFresh(desks, events, n - 1, cfg, p);
        var m: nat :| m < n - 1 && BuiltAt(desks, events, m, n - 1, p);
        assert BuiltAt(desks, events, m, n, p);
      } else {
        assert BuiltAt(desks, events, n - 1, n, p);
      }
    }
  }

  /** The graph a request is served shows exactly the links stored at some request less than
      15 seconds before it, or at this one, and no restore has finished in between. */
  lemma ServedGraphIsFresh(desks: seq<Desk>, events: seq<DeskEvent>, cfg: Config, p: Pricing)
    requires IsHistory(desks, events, cfg, p) && events != [] && events[|events| - 1].Ask?
    ensures exists m: nat :: m < |events| && BuiltAt(desks, events, m, |events|, p)
                             && (m < |events| - 1 ==> events[|events| - 1].now - events[m].now < 15)
  {
    var n := |events| - 1;
    assert StepAt(desks, events, n, cfg, p);
    SnapshotIsFresh(desks, events, |events|, cfg, p);
  }
}
