/** The route search of route.go: Dijkstra with lazily deleted frontier entries. */
module RouteSearch {
  import opened Keys
  import opened Collections
  import opened MinHeaps
  import opened Routing

  /** What the search has learned: tentative distances, the edge each node was last
      improved by, the settled nodes with the order they were settled in, and the
      frontier. */
  datatype Progress = Progress(dist: map<PubKey, real>, prev: map<PubKey, PubKey>, prevEdge: map<PubKey, Edge>,
                               done: set<PubKey>, rank: map<PubKey, nat>, queue: multiset<PqItem>)

  /** Every node but the source was reached by a passing edge out of a settled node. */
  ghost predicate Explained(g: Graph, f: Filter, from: PubKey, st: Progress) {
    && from in st.dist && st.dist[from] == 0.0
    && st.done <= st.dist.Keys && st.rank.Keys == st.done
    && forall v {:trigger ReachedBy(g, f, st, v)} :: v in st.dist && v != from ==> ReachedBy(g, f, st, v)
  }

  ghost predicate ReachedBy(g: Graph, f: Filter, st: Progress, v: PubKey)
    requires v in st.dist && st.done <= st.dist.Keys && st.rank.Keys == st.done
  {
    && v in st.prev && v in st.prevEdge && st.prev[v] in st.done
    && st.prevEdge[v] in Out(g, st.prev[v]) && EdgePasses(st.prevEdge[v], f) && st.prevEdge[v].to == v
    && st.dist[v] == st.dist[st.prev[v]] + st.prevEdge[v].cost
    && (v in st.done ==> st.rank[st.prev[v]] < st.rank[v])
  }

  /** The frontier holds the current distance of every unsettled node; entries that went
      stale never undercut it; settled nodes are no farther than anything queued. */
  ghost predicate FrontierOk(st: Progress)
    requires st.done <= st.dist.Keys
  {
    AllQueued(st) && NoneUndercuts(st) && SettledIsNear(st)
  }

  ghost predicate AllQueued(st: Progress) {
    forall v :: v in st.dist && v !in st.done ==> PqItem(v, st.dist[v]) in st.queue
  }

  ghost predicate NoneUndercuts(st: Progress) {
    forall it :: it in st.queue ==> it.node in st.dist && st.dist[it.node] <= it.cost
  }

  ghost predicate SettledIsNear(st: Progress)
    requires st.done <= st.dist.Keys
  {
    forall u, it :: u in st.done && it in st.queue ==> st.dist[u] <= it.cost
  }

  ghost predicate EdgeRelaxed(f: Filter, st: Progress, u: PubKey, e: Edge)
    requires u in st.dist
  {
    EdgePasses(e, f) ==> e.to in st.dist && st.dist[e.to] <= st.dist[u] + e.cost
  }

  /** Every edge out of a settled node other than `open` has been followed. */
  ghost predicate Relaxed(g: Graph, f: Filter, st: Progress, open: set<PubKey>)
    requires st.done <= st.dist.Keys
  {
    forall u, e {:trigger EdgeRelaxed(f, st, u, e)} ::
      u in st.done && u !in open && e in Out(g, u) ==> EdgeRelaxed(f, st, u, e)
  }

  ghost predicate Inv(g: Graph, f: Filter, from: PubKey, st: Progress, open: set<PubKey>) {
    && Explained(g, f, from, st)
    && FrontierOk(st)
    && Relaxed(g, f, st, open)
  }

  /** Any walk from the source either ends in a settled node that it does not undercut,
      or costs at least as much as something still queued. */
  lemma {:induction false} WalkBound(g: Graph, f: Filter, from: PubKey, st: Progress, w: seq<Step>, v: PubKey)
    requires PositiveCosts(g) && Inv(g, f, from, st, {}) && IsWalk(g, f, from, w, v)
    ensures (v in st.done && st.dist[v] <= Cost(w)) || exists it :: it in st.queue && it.cost <= Cost(w)
  {
    if w == [] {
      if from !in st.done { assert PqItem(from, 0.0) in st.queue; }
    } else {
      var init, last := w[..|w| - 1], w[|w| - 1];
      DropLastHop(g, f, from, w, v);
      WalkBound(g, f, from, st, init, last.src);
      if it :| it in st.queue && it.cost <= Cost(init) {
        assert it.cost <= Cost(w);
      } else {
        assert EdgeRelaxed(f, st, last.src, last.edge);
        if v !in st.done { assert PqItem(v, st.dist[v]) in st.queue; }
      }
    }
  }

  /** A popped entry for a node already settled is stale: dropping it loses nothing. */
  lemma DropStale(g: Graph, f: Filter, from: PubKey, st: Progress, cur: PqItem)
    requires Inv(g, f, from, st, {}) && cur in st.queue && cur.node in st.done
    ensures Inv(g, f, from, st.(queue := st.queue - multiset{cur}), {})
  {
    var st' := st.(queue := st.queue - multiset{cur});
    forall v | v in st'.dist && v != from ensures ReachedBy(g, f, st', v) {
      assert ReachedBy(g, f, st, v);
    }
    forall u, e | u in st'.done && e in Out(g, u) ensures EdgeRelaxed(f, st', u, e) {
      assert EdgeRelaxed(f, st, u, e);
    }
  }

  function Settle(st: Progress, cur: PqItem): Progress {
    st.(done := st.done + {cur.node}, rank := st.rank[cur.node := |st.done|], queue := st.queue - multiset{cur})
  }

  ghost predicate RanksBelow(st: Progress) {
    forall u :: u in st.rank ==> st.rank[u] < |st.done|
  }

  ghost predicate NoCheaperWalk(g: Graph, f: Filter, from: PubKey, to: PubKey, cost: real) {
    forall w :: IsWalk(g, f, from, w, to) ==> cost <= Cost(w)
  }

  /** A cheapest entry of an unsettled node carries that node's distance, and no walk to
      the node is cheaper. */
  lemma CheapestIsTrue(g: Graph, f: Filter, from: PubKey, st: Progress, cur: PqItem)
    requires PositiveCosts(g) && Inv(g, f, from, st, {})
    requires cur in st.queue && cur.node !in st.done
    requires forall it :: it in st.queue ==> cur.cost <= it.cost
    ensures st.dist[cur.node] == cur.cost
    ensures NoCheaperWalk(g, f, from, cur.node, cur.cost)
  {
    assert PqItem(cur.node, st.dist[cur.node]) in st.queue;
    forall w | IsWalk(g, f, from, w, cur.node) ensures cur.cost <= Cost(w) {
      WalkBound(g, f, from, st, w, cur.node);
    }
  }

  lemma SettledStaysReached(g: Graph, f: Filter, st: Progress, cur: PqItem, v: PubKey)
    requires v in st.dist && st.done <= st.dist.Keys && st.rank.Keys == st.done && RanksBelow(st)
    requires cur.node in st.dist && cur.node !in st.done && ReachedBy(g, f, st, v)
    ensures var st' := Settle(st, cur); st'.rank.Keys == st'.done && ReachedBy(g, f, st', v)
  {
    assert st.rank[st.prev[v]] < |st.done|;
  }

  lemma SettleKeepsRanks(st: Progress, cur: PqItem)
    requires st.rank.Keys == st.done && RanksBelow(st) && cur.node !in st.done
    ensures Settle(st, cur).rank.Keys == Settle(st, cur).done && RanksBelow(Settle(st, cur))
  {
    assert |Settle(st, cur).done| == |st.done| + 1;
  }

  lemma SettleKeepsExplained(g: Graph, f: Filter, from: PubKey, st: Progress, cur: PqItem)
    requires Explained(g, f, from, st) && RanksBelow(st)
    requires cur.node in st.dist && cur.node !in st.done
    ensures Explained(g, f, from, Settle(st, cur)) && RanksBelow(Settle(st, cur))
  {
    hide ReachedBy, RanksBelow;
    var st' := Settle(st, cur);
    SettleKeepsRanks(st, cur);
    forall v | v in st'.dist && v != from ensures ReachedBy(g, f, st', v) {
      assert ReachedBy(g, f, st, v);
      SettledStaysReached(g, f, st, cur, v);
    }
  }

  lemma SettleKeepsFrontier(st: Progress, cur: PqItem)
    requires st.done <= st.dist.Keys && FrontierOk(st)
    requires cur in st.queue && st.dist[cur.node] == cur.cost
    requires forall it :: it in st.queue ==> cur.cost <= it.cost
    ensures FrontierOk(Settle(st, cur))
    ensures Expanding(Settle(st, cur), cur)
  {
    SettleKeepsQueued(st, cur);
    SettleKeepsNear(st, cur);
    hide AllQueued, SettledIsNear;
    QueueShrinks(st.queue, cur);
  }

  lemma SettleKeepsQueued(st: Progress, cur: PqItem)
    requires AllQueued(st) && cur in st.queue
    ensures AllQueued(Settle(st, cur))
  {
    var st' := Settle(st, cur);
    QueueShrinks(st.queue, cur);
    forall v | v in st'.dist && v !in st'.done ensures PqItem(v, st'.dist[v]) in st'.queue {
      assert PqItem(v, st.dist[v]) in st.queue && PqItem(v, st.dist[v]) != cur;
    }
  }

  lemma SettleKeepsNear(st: Progress, cur: PqItem)
    requires st.done <= st.dist.Keys && SettledIsNear(st)
    requires cur in st.queue && cur.node in st.dist && st.dist[cur.node] == cur.cost
    requires forall it :: it in st.queue ==> cur.cost <= it.cost
    ensures SettledIsNear(Settle(st, cur)) && Expanding(Settle(st, cur), cur)
  {
    QueueShrinks(st.queue, cur);
  }

  lemma QueueShrinks(queue: multiset<PqItem>, cur: PqItem)
    requires cur in queue
    ensures forall it :: it in queue - multiset{cur} ==> it in queue
    ensures forall it :: it in queue && it != cur ==> it in queue - multiset{cur}
  {
  }

  /** Settling a cheapest entry keeps everything except the node's own edges. */
  lemma SettleCheapest(g: Graph, f: Filter, from: PubKey, st: Progress, cur: PqItem)
    requires PositiveCosts(g) && Inv(g, f, from, st, {}) && RanksBelow(st)
    requires cur in st.queue && cur.node !in st.done
    requires forall it :: it in st.queue ==> cur.cost <= it.cost
    ensures Inv(g, f, from, Settle(st, cur), {cur.node}) && RanksBelow(Settle(st, cur))
    ensures Expanding(Settle(st, cur), cur)
  {
    CheapestIsTrue(g, f, from, st, cur);
    SettleKeepsExplained(g, f, from, st, cur);
    SettleKeepsFrontier(st, cur);
    var st' := Settle(st, cur);
    forall u, e | u in st'.done && u !in {cur.node} && e in Out(g, u) ensures EdgeRelaxed(f, st', u, e) {
      assert EdgeRelaxed(f, st, u, e);
    }
  }

  /** The settled node `u` being expanded: the farthest settled so far. */
  ghost predicate Expanding(st: Progress, u: PqItem) {
    && st.done <= st.dist.Keys
    && u.node in st.done && st.dist[u.node] == u.cost
    && forall v :: v in st.done ==> st.dist[v] <= u.cost
  }

  /** One turn of the inner loop on edge `e` out of the node `u` just settled. */
  function RelaxEdge(f: Filter, st: Progress, u: PqItem, e: Edge): Progress {
    if e.to in st.done || !EdgePasses(e, f) then st
    else
      var nd := u.cost + e.cost;
      if e.to !in st.dist || nd < st.dist[e.to] then
        st.(dist := st.dist[e.to := nd], prev := st.prev[e.to := u.node], prevEdge := st.prevEdge[e.to := e],
            queue := st.queue + multiset{PqItem(e.to, nd)})
      else st
  }

  /** The edge `e` out of `u` that improves the distance of its target. */
  ghost predicate Improves(g: Graph, f: Filter, st: Progress, u: PqItem, e: Edge) {
    && e in Out(g, u.node) && EdgePasses(e, f) && e.to !in st.done
    && (e.to in st.dist ==> u.cost + e.cost < st.dist[e.to])
  }

  lemma RelaxKeepsExplained(g: Graph, f: Filter, from: PubKey, st: Progress, u: PqItem, e: Edge)
    requires PositiveCosts(g) && Explained(g, f, from, st) && Expanding(st, u) && Improves(g, f, st, u, e)
    requires from in st.done
    ensures Explained(g, f, from, RelaxEdge(f, st, u, e))
  {
    var st' := RelaxEdge(f, st, u, e);
    forall v | v in st'.dist && v != from ensures ReachedBy(g, f, st', v) {
      if v != e.to { assert ReachedBy(g, f, st, v); }
    }
  }

  lemma RelaxKeepsFrontier(g: Graph, f: Filter, st: Progress, u: PqItem, e: Edge)
    requires PositiveCosts(g) && Expanding(st, u) && FrontierOk(st) && Improves(g, f, st, u, e)
    ensures FrontierOk(RelaxEdge(f, st, u, e))
  {
    hide AllQueued, NoneUndercuts, SettledIsNear, EdgePasses;
    var nd := u.cost + e.cost;
    assert e in Out(g, u.node) && e.cost > 0.0;
    QueueOneMore(st, e.to, nd);
    QueuedIsFar(st, u, e.to, nd);
    assert RelaxEdge(f, st, u, e).dist == st.dist[e.to := nd];
    var relaxed := st.(dist := st.dist[e.to := nd], queue := st.queue + multiset{PqItem(e.to, nd)});
    SameFrontier(relaxed, RelaxEdge(f, st, u, e));
  }

  /** A shorter distance that is queued leaves no node without its entry, and makes no
      entry undercut. */
  lemma QueueOneMore(st: Progress, v: PubKey, nd: real)
    requires AllQueued(st) && NoneUndercuts(st) && (v in st.dist ==> nd < st.dist[v])
    ensures var st' := st.(dist := st.dist[v := nd], queue := st.queue + multiset{PqItem(v, nd)});
            AllQueued(st') && NoneUndercuts(st')
  {
    var st' := st.(dist := st.dist[v := nd], queue := st.queue + multiset{PqItem(v, nd)});
    forall x | x in st'.dist && x !in st'.done ensures PqItem(x, st'.dist[x]) in st'.queue {
      if x != v { assert PqItem(x, st.dist[x]) in st.queue; }
    }
  }

  lemma QueuedIsFar(st: Progress, u: PqItem, v: PubKey, nd: real)
    requires Expanding(st, u) && SettledIsNear(st) && v !in st.done && u.cost <= nd
    ensures var st' := st.(dist := st.dist[v := nd], queue := st.queue + multiset{PqItem(v, nd)});
            st'.done <= st'.dist.Keys && SettledIsNear(st')
  {
  }

  lemma SameFrontier(x: Progress, y: Progress)
    requires x.dist == y.dist && x.done == y.done && x.queue == y.queue && x.done <= x.dist.Keys
    requires AllQueued(x) && NoneUndercuts(x) && SettledIsNear(x)
    ensures AllQueued(y) && NoneUndercuts(y) && SettledIsNear(y)
  {
  }


  lemma RelaxKeepsRelaxed(g: Graph, f: Filter, st: Progress, u: PqItem, e: Edge)
    requires PositiveCosts(g) && Expanding(st, u) && Relaxed(g, f, st, {u.node}) && e in Out(g, u.node)
    ensures var st' := RelaxEdge(f, st, u, e);
            && Relaxed(g, f, st', {u.node}) && Expanding(st', u)
            && EdgeRelaxed(f, st', u.node, e)
            && forall x :: EdgeRelaxed(f, st, u.node, x) ==> EdgeRelaxed(f, st', u.node, x)
  {
    var st' := RelaxEdge(f, st, u, e);
    forall x, d | x in st'.done && x !in {u.node} && d in Out(g, x) ensures EdgeRelaxed(f, st', x, d) {
      assert EdgeRelaxed(f, st, x, d);
    }
  }

  /** The inner loop over the edges of `u`. */
  function RelaxAll(f: Filter, st: Progress, u: PqItem, edges: seq<Edge>): Progress {
    if edges == [] then st
    else RelaxEdge(f, RelaxAll(f, st, u, edges[..|edges| - 1]), u, edges[|edges| - 1])
  }

  lemma {:induction false} RelaxAllKeepsInv(g: Graph, f: Filter, from: PubKey, st: Progress, u: PqItem,
                                            edges: seq<Edge>)
    requires PositiveCosts(g) && Inv(g, f, from, st, {u.node}) && Expanding(st, u)
    requires from in st.done
    requires forall e :: e in edges ==> e in Out(g, u.node)
    ensures var st' := RelaxAll(f, st, u, edges);
            && Inv(g, f, from, st', {u.node}) && Expanding(st', u) && st'.done == st.done && st'.rank == st.rank
            && forall e :: e in edges ==> EdgeRelaxed(f, st', u.node, e)
  {
    if edges != [] {
      var init, last := edges[..|edges| - 1], edges[|edges| - 1];
      assert edges == init + [last];
      RelaxAllKeepsInv(g, f, from, st, u, init);
      RelaxKeepsInv(g, f, from, RelaxAll(f, st, u, init), u, last);
    }
  }

  /** Once every edge of `u` has been followed, nothing is left open. */
  lemma CloseNode(g: Graph, f: Filter, from: PubKey, st: Progress, u: PqItem)
    requires PositiveCosts(g) && Inv(g, f, from, st, {u.node}) && Expanding(st, u) && RanksBelow(st)
    requires from in st.done
    ensures var st' := RelaxAll(f, st, u, Out(g, u.node));
            Inv(g, f, from, st', {}) && RanksBelow(st') && st'.done == st.done
  {
    RelaxAllKeepsInv(g, f, from, st, u, Out(g, u.node));
    var st' := RelaxAll(f, st, u, Out(g, u.node));
    forall v, e | v in st'.done && e in Out(g, v) ensures EdgeRelaxed(f, st', v, e) {
    }
  }

  lemma RelaxKeepsInv(g: Graph, f: Filter, from: PubKey, st: Progress, u: PqItem, e: Edge)
    requires PositiveCosts(g) && Inv(g, f, from, st, {u.node}) && Expanding(st, u) && e in Out(g, u.node)
    requires from in st.done
    ensures var st' := RelaxEdge(f, st, u, e);
            && Inv(g, f, from, st', {u.node}) && Expanding(st', u)
            && EdgeRelaxed(f, st', u.node, e)
            && forall x :: EdgeRelaxed(f, st, u.node, x) ==> EdgeRelaxed(f, st', u.node, x)
  {
    if Improves(g, f, st, u, e) {
      RelaxKeepsExplained(g, f, from, st, u, e);
      RelaxKeepsFrontier(g, f, st, u, e);
    }
    RelaxKeepsRelaxed(g, f, st, u, e);
  }

  // ---------------------------------------------------------------- the main loop

  /** Every node the search can touch. */
  ghost function Universe(g: Graph, from: PubKey): set<PubKey> {
    {from} + set n, e | n in g && e in g[n] :: e.to
  }

  /** An empty frontier means that no walk leads to an unsettled node. */
  lemma ExhaustedMeansUnreachable(g: Graph, f: Filter, from: PubKey, st: Progress, to: PubKey)
    requires PositiveCosts(g) && Inv(g, f, from, st, {}) && st.queue == multiset{} && to !in st.done
    ensures !Reachable(g, f, from, to)
  {
    forall w | IsWalk(g, f, from, w, to) ensures false {
      WalkBound(g, f, from, st, w, to);
    }
  }

  /** The inner loop: follows every edge out of the settled node `cur`. */
  method Expand(f: Filter, cur: PqItem, edges: seq<Edge>, dist0: map<PubKey, real>, prev0: map<PubKey, PubKey>,
                prevEdge0: map<PubKey, Edge>, done: set<PubKey>, pq: MinHeap, ghost st0: Progress)
    returns (dist: map<PubKey, real>, prev: map<PubKey, PubKey>, prevEdge: map<PubKey, Edge>, ghost st: Progress)
    requires HeapOrdered(pq.items)
    requires st0 == Progress(dist0, prev0, prevEdge0, done, st0.rank, multiset(pq.items))
    modifies pq
    ensures HeapOrdered(pq.items)
    ensures st == RelaxAll(f, st0, cur, edges)
    ensures st == Progress(dist, prev, prevEdge, done, st0.rank, multiset(pq.items))
  {
    dist, prev, prevEdge, st := dist0, prev0, prevEdge0, st0;
    hide RelaxEdge, EdgePasses, HeapOrdered;
    for k := 0 to |edges|
      invariant HeapOrdered(pq.items)
      invariant st == Progress(dist, prev, prevEdge, done, st0.rank, multiset(pq.items))
      invariant st == RelaxAll(f, st0, cur, edges[..k])
    {
      assert edges[..k + 1][..k] == edges[..k];
      dist, prev, prevEdge, st := Follow(f, cur, edges[k], dist, prev, prevEdge, done, pq, st);
    }
    assert edges[..|edges|] == edges;
  }

  /** Follows one edge out of the settled node. */
  method Follow(f: Filter, cur: PqItem, e: Edge, dist0: map<PubKey, real>, prev0: map<PubKey, PubKey>,
                prevEdge0: map<PubKey, Edge>, done: set<PubKey>, pq: MinHeap, ghost st0: Progress)
    returns (dist: map<PubKey, real>, prev: map<PubKey, PubKey>, prevEdge: map<PubKey, Edge>, ghost st: Progress)
    requires HeapOrdered(pq.items)
    requires st0 == Progress(dist0, prev0, prevEdge0, done, st0.rank, multiset(pq.items))
    modifies pq
    ensures HeapOrdered(pq.items)
    ensures st == RelaxEdge(f, st0, cur, e)
    ensures st == Progress(dist, prev, prevEdge, done, st0.rank, multiset(pq.items))
  {
    hide EdgePasses, HeapOrdered;
    dist, prev, prevEdge, st := dist0, prev0, prevEdge0, RelaxEdge(f, st0, cur, e);
    if e.to in done || !EdgePasses(e, f) {
      return;
    }
    var nd := cur.cost + e.cost;
    if e.to !in dist || nd < dist[e.to] {
      dist := dist[e.to := nd];
      prev := prev[e.to := cur.node];
      prevEdge := prevEdge[e.to := e];
      pq.Push(PqItem(e.to, nd));
    }
  }

  /** Following edges only ever reaches nodes of the graph. */
  lemma {:induction false} RelaxAllStaysInside(g: Graph, f: Filter, from: PubKey, st: Progress, u: PqItem,
                                               edges: seq<Edge>)
    requires st.dist.Keys <= Universe(g, from)
    requires forall e :: e in edges ==> e in Out(g, u.node)
    ensures RelaxAll(f, st, u, edges).dist.Keys <= Universe(g, from)
  {
    if edges != [] {
      var init, last := edges[..|edges| - 1], edges[|edges| - 1];
      assert edges == init + [last];
      RelaxAllStaysInside(g, f, from, st, u, init);
      assert last in Out(g, u.node) && last.to in Universe(g, from);
    }
  }

  /** What holds whenever the main loop looks at the frontier. */
  ghost predicate Searching(g: Graph, f: Filter, from: PubKey, to: PubKey, st: Progress) {
    && Inv(g, f, from, st, {}) && RanksBelow(st)
    && st.dist.Keys <= Universe(g, from)
    && to !in st.done
    && (from in st.done || st.queue == multiset{PqItem(from, 0.0)})
  }

  /** What holds when the main loop has ended. */
  ghost predicate Searched(g: Graph, f: Filter, from: PubKey, to: PubKey, st: Progress) {
    && Explained(g, f, from, st)
    && (to in st.done ==> NoCheaperWalk(g, f, from, to, st.dist[to]))
    && (to !in st.done ==> !Reachable(g, f, from, to))
  }

  ghost predicate IsCheapest(st: Progress, cur: PqItem) {
    cur in st.queue && forall it :: it in st.queue ==> cur.cost <= it.cost
  }

  lemma StaleStep(g: Graph, f: Filter, from: PubKey, to: PubKey, st: Progress, cur: PqItem)
    requires Searching(g, f, from, to, st) && cur in st.queue && cur.node in st.done
    ensures Searching(g, f, from, to, st.(queue := st.queue - multiset{cur}))
  {
    DropStale(g, f, from, st, cur);
  }

  lemma ArrivalStep(g: Graph, f: Filter, from: PubKey, to: PubKey, st: Progress, cur: PqItem)
    requires PositiveCosts(g) && Searching(g, f, from, to, st) && IsCheapest(st, cur) && cur.node == to
    ensures Searched(g, f, from, to, Settle(st, cur))
  {
    CheapestIsTrue(g, f, from, st, cur);
    SettleCheapest(g, f, from, st, cur);
  }

  lemma ExpandStep(g: Graph, f: Filter, from: PubKey, to: PubKey, st: Progress, cur: PqItem)
    requires PositiveCosts(g) && Searching(g, f, from, to, st) && IsCheapest(st, cur)
    requires cur.node !in st.done && cur.node != to
    ensures var st' := RelaxAll(f, Settle(st, cur), cur, Out(g, cur.node));
            && Searching(g, f, from, to, st')
            && st'.done == st.done + {cur.node}
            && Universe(g, from) - st'.done < Universe(g, from) - st.done
  {
    SettleCheapest(g, f, from, st, cur);
    var mid := Settle(st, cur);
    CloseNode(g, f, from, mid, cur);
    RelaxAllStaysInside(g, f, from, mid, cur, Out(g, cur.node));
    assert cur.node in Universe(g, from);
  }

  /** An empty frontier means that no walk leads to an unsettled node. */
  lemma ExhaustedStep(g: Graph, f: Filter, from: PubKey, to: PubKey, st: Progress)
    requires PositiveCosts(g) && Searching(g, f, from, to, st) && st.queue == multiset{}
    ensures Searched(g, f, from, to, st)
  {
    if to !in st.done { ExhaustedMeansUnreachable(g, f, from, st, to); }
  }

  lemma StartStep(g: Graph, f: Filter, from: PubKey, to: PubKey)
    requires from != to
    ensures Searching(g, f, from, to, Progress(map[from := 0.0], map[], map[], {}, map[], multiset{PqItem(from, 0.0)}))
  {
  }

  lemma PopIsCheapest(items: seq<PqItem>, rest: seq<PqItem>, cur: PqItem)
    requires multiset(items) == multiset(rest) + multiset{cur}
    requires forall x :: x in items ==> cur.cost <= x.cost
    ensures cur in multiset(items) && multiset(rest) == multiset(items) - multiset{cur}
    ensures forall it: PqItem :: it in multiset(items) ==> cur.cost <= it.cost
  {
    assert forall it: PqItem :: it in multiset(items) ==> it in items;
  }

  /** The main loop: when it ends, either `to` was settled at a distance no walk undercuts,
      or no walk leads to it. */
  method Explore(g: Graph, from: PubKey, to: PubKey, f: Filter)
    returns (prev: map<PubKey, PubKey>, prevEdge: map<PubKey, Edge>, done: set<PubKey>, ghost st: Progress)
    requires PositiveCosts(g) && from != to
    ensures prev == st.prev && prevEdge == st.prevEdge && done == st.done
    ensures Searched(g, f, from, to, st)
  {
    var dist := map[from := 0.0];
    prev, prevEdge, done := map[], map[], {};
    var pq := new MinHeap(PqItem(from, 0.0));
    st := Progress(dist, prev, prevEdge, done, map[], multiset(pq.items));
    StartStep(g, f, from, to);
    while pq.items != []
      invariant HeapOrdered(pq.items)
      invariant st == Progress(dist, prev, prevEdge, done, st.rank, multiset(pq.items))
      invariant Searching(g, f, from, to, st)
      decreases Universe(g, from) - st.done, |pq.items|
    {
      ghost var items := pq.items;
      var cur := pq.Pop();
      PopIsCheapest(items, pq.items, cur);
      if cur.node in done {
        StaleStep(g, f, from, to, st, cur);
        st := st.(queue := multiset(pq.items));
        continue;
      }
      ghost var before := st;
      done := done + {cur.node};
      st := Settle(st, cur);
      if cur.node == to {
        ArrivalStep(g, f, from, to, before, cur);
        break;
      }
      ExpandStep(g, f, from, to, before, cur);
      dist, prev, prevEdge, st := Expand(f, cur, Out(g, cur.node), dist, prev, prevEdge, done, pq, st);
    }
    if to !in done {
      ExhaustedStep(g, f, from, to, st);
    }
  }

  // ---------------------------------------------------------------- the predecessor walk

  /** The way the search found to a settled node. */
  ghost function Trace(g: Graph, f: Filter, from: PubKey, st: Progress, n: PubKey): seq<Step>
    requires Explained(g, f, from, st) && n in st.done
    decreases st.rank[n]
  {
    if n == from then []
    else
      assert ReachedBy(g, f, st, n);
      Trace(g, f, from, st, st.prev[n]) + [Step(st.prev[n], st.prevEdge[n])]
  }

  lemma {:induction false} TraceIsWalk(g: Graph, f: Filter, from: PubKey, st: Progress, n: PubKey)
    requires Explained(g, f, from, st) && n in st.done
    ensures IsWalk(g, f, from, Trace(g, f, from, st, n), n)
    ensures Cost(Trace(g, f, from, st, n)) == st.dist[n]
    decreases st.rank[n]
  {
    if n != from {
      assert ReachedBy(g, f, st, n);
      var last := Step(st.prev[n], st.prevEdge[n]);
      TraceIsWalk(g, f, from, st, last.src);
      AddHop(g, f, from, Trace(g, f, from, st, last.src), last);
    }
  }

  /** Every node on the way was settled, and settled before `n` unless it is `n`. */
  lemma {:induction false} TraceSettledEarlier(g: Graph, f: Filter, from: PubKey, st: Progress, n: PubKey, i: nat)
    requires Explained(g, f, from, st) && n in st.done
    requires i < |Trace(g, f, from, st, n)|
    ensures var v := Visit(from, Trace(g, f, from, st, n), i);
            v in st.done && st.rank[v] < st.rank[n]
    decreases st.rank[n]
  {
    assert ReachedBy(g, f, st, n);
    var p := st.prev[n];
    var init, w := Trace(g, f, from, st, p), Trace(g, f, from, st, n);
    assert Visit(from, w, i) == Visit(from, init, i);
    if i < |init| {
      TraceSettledEarlier(g, f, from, st, p, i);
    } else {
      TraceIsWalk(g, f, from, st, p);
    }
  }

  lemma {:induction false} TraceIsSimple(g: Graph, f: Filter, from: PubKey, st: Progress, n: PubKey)
    requires Explained(g, f, from, st) && n in st.done
    ensures AllDistinct(Visits(from, Trace(g, f, from, st, n)))
    decreases st.rank[n]
  {
    if n != from {
      assert ReachedBy(g, f, st, n);
      var p := st.prev[n];
      var init, w := Trace(g, f, from, st, p), Trace(g, f, from, st, n);
      TraceIsSimple(g, f, from, st, p);
      assert Visits(from, w) == Visits(from, init) + [n];
      forall i | 0 <= i <= |init| ensures Visits(from, init)[i] != n {
        assert Visits(from, init)[i] == Visit(from, w, i);
        TraceSettledEarlier(g, f, from, st, n, i);
      }
    }
  }

  // ---------------------------------------------------------------- the result

  datatype RouteHop = RouteHop(from: string, to: string, packetCount: nat, recentActivity: real, firstSeen: int,
                               lastSeen: int, networks: seq<string>)

  datatype RouteResult = RouteResult(found: bool, nodes: seq<string>, hops: seq<RouteHop>)

  const NOT_FOUND := RouteResult(false, [], [])

  function Render(h: Step): RouteHop {
    RouteHop(HexOf(h.src), HexOf(h.edge.to), h.edge.packetCount, h.edge.recentActivity, h.edge.firstSeen,
             h.edge.lastSeen, h.edge.networks)
  }

  function RenderAll(w: seq<Step>): (r: seq<RouteHop>)
    ensures |r| == |w|
  {
    seq(|w|, i requires 0 <= i < |w| => Render(w[i]))
  }

  function Targets(w: seq<Step>): (r: seq<string>)
    ensures |r| == |w|
  {
    seq(|w|, i requires 0 <= i < |w| => HexOf(w[i].edge.to))
  }

  /** The result that reports the walk `w` from `s`. */
  function Report(s: PubKey, w: seq<Step>): RouteResult {
    RouteResult(true, [HexOf(s)] + Targets(w), RenderAll(w))
  }

  /** A reported walk that repeats no node reports no node twice, has one node more than
      hops, and names the two nodes each hop joins. */
  lemma ReportShape(g: Graph, f: Filter, s: PubKey, w: seq<Step>, t: PubKey)
    requires IsWalk(g, f, s, w, t) && AllDistinct(Visits(s, w))
    ensures var r := Report(s, w);
            && r.found && |r.nodes| == |r.hops| + 1
            && r.nodes[0] == HexOf(s) && r.nodes[|r.hops|] == HexOf(t)
            && AllDistinct(r.nodes)
            && forall i :: 0 <= i < |r.hops| ==> r.hops[i].from == r.nodes[i] && r.hops[i].to == r.nodes[i + 1]
  {
    var r := Report(s, w);
    assert forall i :: 0 <= i < |r.nodes| ==> r.nodes[i] == HexOf(Visit(s, w, i));
    forall i, j | 0 <= i < j < |r.nodes| ensures r.nodes[i] != r.nodes[j] {
      assert Visits(s, w)[i] != Visits(s, w)[j];
      if r.nodes[i] == r.nodes[j] {
        HexOfInjective(Visit(s, w, i), Visit(s, w, j));
      }
    }
    forall i | 0 <= i < |r.hops| ensures r.hops[i].from == r.nodes[i] && r.hops[i].to == r.nodes[i + 1] {
      assert HopAt(g, f, s, w, i);
    }
  }

  /** Reverses a list by filling a new one back to front. */
  method ReverseInto<T(0)>(s: seq<T>) returns (r: seq<T>)
    ensures r == Reversed(s)
  {
    var a := new T[|s|];
    for i := 0 to |s|
      invariant forall k :: 0 <= k < i ==> a[|s| - 1 - k] == s[k]
    {
      a[|s| - 1 - i] := s[i];
    }
    r := a[..];
  }

  /** Putting a hop in front of a walk appends to the reversed lists. */
  lemma PrependHop(h: Step, tail: seq<Step>)
    ensures Reversed(RenderAll([h] + tail)) == Reversed(RenderAll(tail)) + [Render(h)]
    ensures Reversed(Targets([h] + tail)) == Reversed(Targets(tail)) + [HexOf(h.edge.to)]
  {
    assert RenderAll([h] + tail) == [Render(h)] + RenderAll(tail);
    assert Targets([h] + tail) == [HexOf(h.edge.to)] + Targets(tail);
    ReversedPrepend(Render(h), RenderAll(tail));
    ReversedPrepend(HexOf(h.edge.to), Targets(tail));
  }

  /** Collects the route from its end, along the edges each node was last improved by, and turns
      the lists around. */
  method Reconstruct(from: PubKey, to: PubKey, prev: map<PubKey, PubKey>, prevEdge: map<PubKey, Edge>,
                     ghost g: Graph, ghost f: Filter, ghost st: Progress)
    returns (r: RouteResult)
    requires Explained(g, f, from, st) && to in st.done
    requires prev == st.prev && prevEdge == st.prevEdge
    ensures r == Report(from, Trace(g, f, from, st, to))
  {
    ghost var w := Trace(g, f, from, st, to);
    ghost var tail: seq<Step> := [];
    var revNodes: seq<string>, revHops: seq<RouteHop> := [], [];
    var n := to;
    while true
      invariant n in st.done
      invariant w == Trace(g, f, from, st, n) + tail
      invariant revNodes == Reversed(Targets(tail))
      invariant revHops == Reversed(RenderAll(tail))
      decreases st.rank[n]
    {
      revNodes := revNodes + [HexOf(n)];
      if n == from {
        break;
      }
      assert ReachedBy(g, f, st, n);
      var e, p := prevEdge[n], prev[n];
      PrependHop(Step(p, e), tail);
      assert w == Trace(g, f, from, st, p) + ([Step(p, e)] + tail);
      tail := [Step(p, e)] + tail;
      revHops := revHops + [RouteHop(HexOf(p), HexOf(n), e.packetCount, e.recentActivity, e.firstSeen,
                                     e.lastSeen, e.networks)];
      n := p;
    }
    assert tail == w;
    ReversedPrepend(HexOf(from), Targets(w));
    ReversedTwice([HexOf(from)] + Targets(w));
    ReversedTwice(RenderAll(w));
    var nodes := ReverseInto(revNodes);
    var hops := ReverseInto(revHops);
    r := RouteResult(true, nodes, hops);
  }

  /** The search proper, on a fixed graph, for two different nodes. */
  method RouteInGraph(g: Graph, from: PubKey, to: PubKey, f: Filter) returns (r: RouteResult, ghost w: seq<Step>)
    requires PositiveCosts(g) && Mirrored(g) && from != to
    ensures r.found <==> Reachable(g, f, from, to)
    ensures !r.found ==> r == NOT_FOUND
    ensures r.found ==> IsOptimal(g, f, from, w, to) && AllDistinct(Visits(from, w)) && r == Report(from, w)
  {
    w := [];
    if |Out(g, from)| == 0 || |Out(g, to)| == 0 {
      forall v | IsWalk(g, f, from, v, to) ensures false {
        LonelyEndIsUnreachable(g, f, from, v, to);
      }
      return NOT_FOUND, w;
    }
    var prev, prevEdge, done, st := Explore(g, from, to, f);
    if to !in done {
      return NOT_FOUND, w;
    }
    r := Reconstruct(from, to, prev, prevEdge, g, f, st);
    w := Trace(g, f, from, st, to);
    TraceIsWalk(g, f, from, st, to);
    TraceIsSimple(g, f, from, st, to);
  }

  /** A walk between two different nodes leaves an edge at either end. */
  lemma LonelyEndIsUnreachable(g: Graph, f: Filter, from: PubKey, w: seq<Step>, to: PubKey)
    requires Mirrored(g) && from != to && IsWalk(g, f, from, w, to)
    ensures Out(g, from) != [] && Out(g, to) != []
  {
    assert HopAt(g, f, from, w, 0) && HopAt(g, f, from, w, |w| - 1);
    var last := w[|w| - 1];
    assert HasMirror(g, last.src, last.edge);
  }
}
