/** What the counters of a link add up to, over every run. */
module LinkCounts {
  import opened Keys
  import opened LinkModel
  import opened LinkRuns
  import opened Sums
  import opened Ledgers

  // ---------------------------------------------------------------- conservation

  predicate NetOk(n: Net) {
    n.dirAB + n.dirBA == n.packetCount && n.lowConf <= n.packetCount
  }

  ghost predicate NetsBalance(nets: seq<Net>) {
    && (forall i :: 0 <= i < |nets| ==> NetOk(nets[i]))
    && (forall i, j :: 0 <= i < j < |nets| ==> nets[i].id != nets[j].id)
  }

  /** The directions, and the route types, each add up to the packet count; the
      low-confidence count stays within it; the same for every network, each of which
      appears once; at most five SNRs are kept per direction. */
  ghost predicate Balanced(rec: Rec) {
    && rec.dirAB + rec.dirBA == rec.packetCount == Total(rec.sources)
    && rec.lowConf <= rec.packetCount
    && NetsBalance(rec.networks)
    && |rec.snrsAB| <= 5 && |rec.snrsBA| <= 5
  }

  function NetTotal(nets: seq<Net>): nat {
    if nets == [] then 0 else nets[0].packetCount + NetTotal(nets[1..])
  }

  ghost predicate HasNet(nets: seq<Net>, id: string) {
    exists i :: 0 <= i < |nets| && nets[i].id == id
  }

  lemma NetsBalanceTail(nets: seq<Net>)
    requires NetsBalance(nets) && nets != []
    ensures NetsBalance(nets[1..]) && NetOk(nets[0]) && !HasNet(nets[1..], nets[0].id)
  {
    var t := nets[1..];
    assert forall i :: 0 <= i < |t| ==> t[i] == nets[i + 1];
  }

  lemma NetsBalanceCons(n: Net, nets: seq<Net>)
    requires NetsBalance(nets) && NetOk(n) && !HasNet(nets, n.id)
    ensures NetsBalance([n] + nets)
  {
    var all := [n] + nets;
    assert forall i :: 1 <= i < |all| ==> all[i] == nets[i - 1];
  }

  lemma HasNetCons(n: Net, nets: seq<Net>, id: string)
    ensures HasNet([n] + nets, id) <==> n.id == id || HasNet(nets, id)
  {
    var all := [n] + nets;
    if HasNet(nets, id) {
      var i :| 0 <= i < |nets| && nets[i].id == id;
      assert all[i + 1].id == id;
    }
    if n.id == id { assert all[0].id == id; }
  }

  lemma {:induction false} AddNetworkKeepsNets(nets: seq<Net>, id: string, now: int)
    requires NetsBalance(nets)
    ensures var r := AddNetwork(nets, id, now);
            && NetsBalance(r) && NetTotal(r) == NetTotal(nets)
            && forall x :: HasNet(r, x) <==> HasNet(nets, x) || x == id
  {
    var r := AddNetwork(nets, id, now);
    if nets == [] {
      assert r[0].id == id;
      assert r[1..] == [];
    } else {
      NetsBalanceTail(nets);
      assert nets == [nets[0]] + nets[1..];
      if nets[0].id != id { AddNetworkKeepsNets(nets[1..], id, now); }
      NetsBalanceCons(r[0], r[1..]);
      assert r == [r[0]] + r[1..];
      forall x ensures HasNet(r, x) <==> HasNet(nets, x) || x == id {
        HasNetCons(nets[0], nets[1..], x);
        HasNetCons(r[0], r[1..], x);
      }
    }
  }

  lemma {:induction false} CountNetworkKeepsNets(nets: seq<Net>, o: Obs)
    requires NetsBalance(nets)
    ensures var r := CountNetwork(nets, o);
            && NetsBalance(r) && (forall x :: HasNet(r, x) <==> HasNet(nets, x))
            && NetTotal(r) == NetTotal(nets) + (if HasNet(nets, o.networkId) then 1 else 0)
  {
    var r := CountNetwork(nets, o);
    if nets != [] {
      NetsBalanceTail(nets);
      assert nets == [nets[0]] + nets[1..];
      if nets[0].id != o.networkId { CountNetworkKeepsNets(nets[1..], o); }
      HasNetCons(nets[0], nets[1..], o.networkId);
      NetsBalanceCons(r[0], r[1..]);
      assert r == [r[0]] + r[1..];
      forall x ensures HasNet(r, x) <==> HasNet(nets, x) {
        HasNetCons(nets[0], nets[1..], x);
        HasNetCons(r[0], r[1..], x);
      }
    }
  }

  lemma {:induction false} MergeNetworkKeepsNets(nets: seq<Net>, n: Net)
    requires NetsBalance(nets) && NetOk(n)
    ensures var r := MergeNetwork(nets, n);
            && NetsBalance(r) && (forall x :: HasNet(r, x) <==> HasNet(nets, x) || x == n.id)
            && NetTotal(r) == NetTotal(nets) + n.packetCount
  {
    var r := MergeNetwork(nets, n);
    if nets == [] {
      assert r[0].id == n.id;
      assert r[1..] == [];
    } else {
      NetsBalanceTail(nets);
      assert nets == [nets[0]] + nets[1..];
      if nets[0].id != n.id { MergeNetworkKeepsNets(nets[1..], n); }
      NetsBalanceCons(r[0], r[1..]);
      assert r == [r[0]] + r[1..];
      forall x ensures HasNet(r, x) <==> HasNet(nets, x) || x == n.id {
        HasNetCons(nets[0], nets[1..], x);
        HasNetCons(r[0], r[1..], x);
      }
    }
  }

  lemma {:induction false} NetTotalSnoc(nets: seq<Net>, n: Net)
    ensures NetTotal(nets + [n]) == NetTotal(nets) + n.packetCount
  {
    if nets == [] {
      assert nets + [n] == [n] && [n][1..] == [];
    } else {
      assert (nets + [n])[1..] == nets[1..] + [n];
      NetTotalSnoc(nets[1..], n);
    }
  }

  lemma {:induction false} MergeNetworksKeepsNets(nets: seq<Net>, add: seq<Net>)
    requires NetsBalance(nets) && forall i :: 0 <= i < |add| ==> NetOk(add[i])
    ensures NetsBalance(MergeNetworks(nets, add))
    ensures NetTotal(MergeNetworks(nets, add)) == NetTotal(nets) + NetTotal(add)
  {
    if add != [] {
      var init, last := add[..|add| - 1], add[|add| - 1];
      MergeNetworksKeepsNets(nets, init);
      MergeNetworkKeepsNets(MergeNetworks(nets, init), last);
      NetTotalSnoc(init, last);
      assert add == init + [last];
    }
  }

  lemma TouchKeepsBalance(rec: Rec, o: Obs, isNew: bool)
    requires Balanced(rec)
    ensures var r := TouchNetwork(rec, o, isNew);
            && Balanced(r)
            && NetTotal(r.networks) == NetTotal(rec.networks) + (if o.networkId != "" && isNew then 1 else 0)
  {
    if o.networkId != "" {
      AddNetworkKeepsNets(rec.networks, o.networkId, o.now);
      CountNetworkKeepsNets(AddNetwork(rec.networks, o.networkId, o.now), o);
    }
  }

  /** The scalar part of Balanced, for a record that has been placed and scored. */
  lemma DirectionCounts(rec: Rec, o: Obs)
    ensures var r := CountDirection(rec, o);
            && r.dirAB + r.dirBA == rec.dirAB + rec.dirBA + 1
            && r == rec.(dirAB := r.dirAB, dirBA := r.dirBA, lastHashAB := r.lastHashAB, lastHashBA := r.lastHashBA,
                         snrsAB := r.snrsAB, snrsBA := r.snrsBA)
            && (|rec.snrsAB| <= SNR_HISTORY_LIMIT ==> |r.snrsAB| <= SNR_HISTORY_LIMIT)
            && (|rec.snrsBA| <= SNR_HISTORY_LIMIT ==> |r.snrsBA| <= SNR_HISTORY_LIMIT)
  {
  }

  lemma ScoredCounts(rec: Rec, o: Obs, cfg: Config)
    ensures var r := ScoreEvent(PlaceEvent(rec, o, cfg.far), o, cfg.retain);
            && r.packetCount == rec.packetCount + 1 && r.sources == rec.sources && r.networks == rec.networks
            && r.dirAB == rec.dirAB && r.dirBA == rec.dirBA && r.snrsAB == rec.snrsAB && r.snrsBA == rec.snrsBA
            && rec.lowConf <= r.lowConf <= rec.lowConf + 1
  {
  }

  lemma CountKeepsBalance(rec: Rec, o: Obs, cfg: Config)
    requires Balanced(rec)
    ensures Balanced(CountEvent(rec, o, cfg))
    ensures CountEvent(rec, o, cfg).networks == rec.networks
    ensures CountEvent(rec, o, cfg).packetCount == rec.packetCount + 1
  {
    ScoredCounts(rec, o, cfg);
    DirectionCounts(ScoreEvent(PlaceEvent(rec, o, cfg.far), o, cfg.retain), o);
    var src := SourceOf(o);
    TotalSet(rec.sources, src, (if src in rec.sources then rec.sources[src] else 0) + 1);
  }

  lemma {:induction false} AppendCappedAllBounded(vals: seq<real>, add: seq<real>)
    requires |vals| <= SNR_HISTORY_LIMIT
    ensures |AppendCappedAll(vals, add)| <= SNR_HISTORY_LIMIT
    decreases add
  {
    if add != [] {
      AppendCappedAllBounded(AppendCapped(vals, add[0]), add[1..]);
    }
  }

  lemma MergeKeepsBalance(e: Rec, r: Rec, cfg: Config)
    requires Balanced(e) && Balanced(r)
    ensures Balanced(MergeRestored(e, r, cfg))
    ensures NetTotal(MergeRestored(e, r, cfg).networks) == NetTotal(e.networks) + NetTotal(r.networks)
  {
    TotalMerge(e.sources, r.sources);
    MergeNetworksKeepsNets(e.networks, r.networks);
    AppendCappedAllBounded(e.snrsAB, r.snrsAB);
    AppendCappedAllBounded(e.snrsBA, r.snrsBA);
  }

  ghost predicate AllBalanced(st: State) {
    forall k {:trigger st.links[k]} :: k in st.links ==> Balanced(st.links[k])
  }

  ghost predicate RestoresBalanced(ops: seq<Op>) {
    forall i :: 0 <= i < |ops| && ops[i].Restore? ==> Balanced(ops[i].rec)
  }

  lemma NewRecBalanced(o: Obs)
    ensures Balanced(NewRec(o)) && NetTotal(NewRec(o).networks) == 0
  {
  }

  lemma ObservedRecBalanced(rec: Rec, o: Obs, countsNet: bool, counts: bool, cfg: Config)
    requires Balanced(rec)
    ensures var r := ObservedRec(rec, o, countsNet, counts, cfg);
            && Balanced(r)
            && r.packetCount == rec.packetCount + (if counts then 1 else 0)
            && NetTotal(r.networks) == NetTotal(rec.networks) + (if o.networkId != "" && countsNet then 1 else 0)
  {
    TouchKeepsBalance(rec, o, countsNet);
    CountKeepsBalance(TouchNetwork(rec, o, countsNet), o, cfg);
  }

  lemma StoreBalanced(st: State, st': State, k: LinkKey, r: Rec)
    requires AllBalanced(st) && Balanced(r) && st'.links == st.links[k := r]
    ensures AllBalanced(st')
  {
  }

  /** What the restore of one loaded record stores under its key. */
  function RestoredRec(st: State, rec: Rec, key: LinkKey, cfg: Config): Rec {
    if key in st.links then MergeRestored(st.links[key], Canonical(rec, key), cfg) else Canonical(rec, key)
  }

  lemma ObserveKeepsBalance(st: State, o: Obs, cfg: Config)
    requires AllBalanced(st)
    ensures AllBalanced(ObserveLink(st, o, cfg))
  {
    NewRecBalanced(o);
    ObservedRecBalanced(RecordOf(st, o), o, CountsForNetwork(st, o), CountsGlobally(st, o), cfg);
    var st' := ObserveLink(st, o, cfg);
    StoreBalanced(st, st', o.key, st'.links[o.key]);
  }

  lemma RestoredRecBalanced(st: State, rec: Rec, cfg: Config)
    requires AllBalanced(st) && Balanced(rec)
    ensures var key := KeyFromPair(rec.nodeA, rec.nodeB);
            key.Some? ==>
              var r := RestoredRec(st, rec, key.value, cfg);
              && Balanced(r)
              && RestoreLink(st, rec, cfg).links == st.links[key.value := r]
              && r.packetCount == rec.packetCount + Packets(st, key.value)
              && NetTotal(r.networks) == NetTotal(rec.networks) + NetPackets(st, key.value)
  {
    var key := KeyFromPair(rec.nodeA, rec.nodeB);
    if key.Some? {
      assert Balanced(Canonical(rec, key.value));
      if key.value in st.links {
        assert Balanced(st.links[key.value]);
        hide Balanced, KeyFromPair;
        MergeKeepsBalance(st.links[key.value], Canonical(rec, key.value), cfg);
      }
    }
  }

  lemma RestoreKeepsBalance(st: State, rec: Rec, cfg: Config)
    requires AllBalanced(st) && Balanced(rec)
    ensures AllBalanced(RestoreLink(st, rec, cfg))
  {
    hide MergeRestored, Balanced, IsCanonical;
    RestoredRecBalanced(st, rec, cfg);
    var key := KeyFromPair(rec.nodeA, rec.nodeB);
    if key.Some? {
      var r := RestoredRec(st, rec, key.value, cfg);
      StoreBalanced(st, RestoreLink(st, rec, cfg), key.value, r);
    }
  }

  lemma StepKeepsBalance(st: State, op: Op, cfg: Config)
    requires AllBalanced(st) && (op.Restore? ==> Balanced(op.rec))
    ensures AllBalanced(Apply(st, op, cfg))
  {
    match op
    case Observe(o) => ObserveKeepsBalance(st, o, cfg);
    case Restore(rec) => RestoreKeepsBalance(st, rec, cfg);
    case Sweep(_, _, _) =>
    case Take(_) =>
    case Requeue(_) =>
  }

  /** Every record of every reachable state balances, restores included. */
  lemma {:induction false} RecordsStayBalanced(st: State, ops: seq<Op>, cfg: Config)
    requires AllBalanced(st) && RestoresBalanced(ops)
    ensures AllBalanced(Run(st, ops, cfg))
  {
    if ops != [] {
      RecordsStayBalanced(st, ops[..|ops| - 1], cfg);
      StepKeepsBalance(Run(st, ops[..|ops| - 1], cfg), ops[|ops| - 1], cfg);
    }
  }

  // ---------------------------------------------------------------- networks cover the count

  /** The networks of a link together counted at least what the link counted. */
  predicate Covered(rec: Rec) {
    rec.packetCount <= NetTotal(rec.networks)
  }

  ghost predicate AllCovered(st: State) {
    forall k {:trigger st.links[k]} :: k in st.links ==> Covered(st.links[k])
  }

  /** Every observation names its network, and restored records balance and are covered. */
  ghost predicate Attributed(ops: seq<Op>) {
    forall i :: 0 <= i < |ops| ==>
      && (ops[i].Observe? ==> ops[i].o.networkId != "")
      && (ops[i].Restore? ==> Balanced(ops[i].rec) && Covered(ops[i].rec))
  }

  // ---------------------------------------------------------------- networks cover the count

  function EventsOf(st: State, k: LinkKey): map<DedupKey, int> {
    map d | d in st.dedup && d.key == k :: st.dedup[d]
  }

  function NetEventsOf(st: State, k: LinkKey): map<NetDedupKey, int> {
    map n | n in st.netDedup && n.event.key == k :: st.netDedup[n]
  }

  const BELONGS := (n: NetDedupKey, d: DedupKey) => n.event == d

  function Packets(st: State, k: LinkKey): nat {
    if k in st.links then st.links[k].packetCount else 0
  }

  function NetPackets(st: State, k: LinkKey): nat {
    if k in st.links then NetTotal(st.links[k].networks) else 0
  }

  /** Each event of link `k` that is remembered dates from the network that saw it last, where
      it is remembered too; and what was counted but is forgotten is no more globally than for
      the networks together. */
  ghost predicate Grounded(st: State, k: LinkKey) {
    && Anchored(EventsOf(st, k), NetEventsOf(st, k), BELONGS)
    && Packets(st, k) + |NetEventsOf(st, k)| <= NetPackets(st, k) + |EventsOf(st, k)|
    && (k !in st.links ==> EventsOf(st, k) == map[] && NetEventsOf(st, k) == map[])
  }

  lemma OneEventEach(st: State, k: LinkKey)
    ensures Single(EventsOf(st, k), NetEventsOf(st, k), BELONGS)
  {
  }

  lemma GroundedIsCovered(st: State, k: LinkKey)
    requires Grounded(st, k) && k in st.links
    ensures Covered(st.links[k])
  {
    OneEventEach(st, k);
    AnchoredCount(EventsOf(st, k), NetEventsOf(st, k), BELONGS);
  }

  lemma EventsObserved(st: State, o: Obs, cfg: Config)
    requires o.networkId != ""
    ensures var st' := ObserveLink(st, o, cfg);
            && EventsOf(st', o.key) == EventsOf(st, o.key)[EventOf(o) := o.now]
            && NetEventsOf(st', o.key) == NetEventsOf(st, o.key)[NetEventOf(o) := o.now]
            && (EventOf(o) in EventsOf(st, o.key) <==> !CountsGlobally(st, o))
            && (NetEventOf(o) in NetEventsOf(st, o.key) <==> !CountsForNetwork(st, o))
  {
    hide ObservedRec;
  }

  lemma ObservedCounts(st: State, o: Obs, cfg: Config)
    requires AllBalanced(st) && o.networkId != ""
    ensures var st' := ObserveLink(st, o, cfg);
            && o.key in st'.links
            && Packets(st', o.key) == Packets(st, o.key) + (if CountsGlobally(st, o) then 1 else 0)
            && NetPackets(st', o.key) == NetPackets(st, o.key) + (if CountsForNetwork(st, o) then 1 else 0)
  {
    var rec := RecordOf(st, o);
    NewRecBalanced(o);
    assert Balanced(rec);
    hide ObservedRec, Balanced, NetTotal, CountsGlobally, CountsForNetwork, NewRec;
    ObservedRecBalanced(rec, o, CountsForNetwork(st, o), CountsGlobally(st, o), cfg);
  }

  lemma ObserveKeepsOwn(st: State, o: Obs, cfg: Config)
    requires AllBalanced(st) && Grounded(st, o.key) && o.networkId != ""
    ensures Grounded(ObserveLink(st, o, cfg), o.key)
  {
    hide AllBalanced, ObserveLink, Anchored, EventsOf, NetEventsOf, Packets, NetPackets;
    hide CountsGlobally, CountsForNetwork;
    ObservedCounts(st, o, cfg);
    EventsObserved(st, o, cfg);
    NoteAnchored(EventsOf(st, o.key), NetEventsOf(st, o.key), BELONGS, EventOf(o), NetEventOf(o), o.now);
  }

  /** Link `k` has the same counts and entries before and after. */
  predicate SameLedger(st: State, st': State, k: LinkKey) {
    && (k in st.links <==> k in st'.links)
    && Packets(st, k) == Packets(st', k) && NetPackets(st, k) == NetPackets(st', k)
    && EventsOf(st, k) == EventsOf(st', k) && NetEventsOf(st, k) == NetEventsOf(st', k)
  }

  lemma SameLedgerGrounded(st: State, st': State, k: LinkKey)
    requires Grounded(st, k) && SameLedger(st, st', k)
    ensures Grounded(st', k)
  {
    hide EventsOf, NetEventsOf, Anchored;
  }

  lemma ObserveLeavesOthers(st: State, o: Obs, cfg: Config, k: LinkKey)
    requires k != o.key
    ensures SameLedger(st, ObserveLink(st, o, cfg), k)
  {
    hide ObservedRec, NetTotal;
  }

  lemma SweepKeepsGrounded(st: State, shard: nat, now: int, window: int, k: LinkKey)
    requires Grounded(st, k)
    ensures Grounded(SweepShard(st, shard, now, window), k)
  {
    var st' := SweepShard(st, shard, now, window);
    SweptEvents(st, shard, now, window, k);
    hide EventsOf, NetEventsOf, Anchored, SweepShard;
    if ShardOf(k) == shard {
      OneEventEach(st, k);
      SweepAnchored(EventsOf(st, k), NetEventsOf(st, k), BELONGS, now, window);
      NothingKept<DedupKey>(now, window);
      NothingKept<NetDedupKey>(now, window);
    }
  }

  lemma NothingKept<K>(now: int, window: int)
    ensures Kept<K>(map[], now, window) == map[]
  {
  }

  lemma SweptEvents(st: State, shard: nat, now: int, window: int, k: LinkKey)
    ensures var st' := SweepShard(st, shard, now, window);
            && st'.links == st.links
            && EventsOf(st', k) == (if ShardOf(k) == shard then Kept(EventsOf(st, k), now, window) else EventsOf(st, k))
            && NetEventsOf(st', k)
               == (if ShardOf(k) == shard then Kept(NetEventsOf(st, k), now, window) else NetEventsOf(st, k))
  {
    hide ShardOf;
  }

  lemma RestoreKeepsGrounded(st: State, rec: Rec, cfg: Config, k: LinkKey)
    requires AllBalanced(st) && Grounded(st, k) && Balanced(rec) && Covered(rec)
    ensures Grounded(RestoreLink(st, rec, cfg), k)
  {
    var st' := RestoreLink(st, rec, cfg);
    RestoreKeepsTables(st, rec, cfg);
    RestoredRecBalanced(st, rec, cfg);
    hide RestoreLink, Anchored, Balanced, KeyFromPair, RestoredRec;
    SameEvents(st, st', k);
    if KeyFromPair(rec.nodeA, rec.nodeB).None? { NothingRestored(st, rec, cfg); }
  }

  lemma NothingRestored(st: State, rec: Rec, cfg: Config)
    requires KeyFromPair(rec.nodeA, rec.nodeB).None?
    ensures RestoreLink(st, rec, cfg) == st
  {
  }

  lemma SameEvents(st: State, st': State, k: LinkKey)
    requires st.dedup == st'.dedup && st.netDedup == st'.netDedup
    ensures EventsOf(st, k) == EventsOf(st', k) && NetEventsOf(st, k) == NetEventsOf(st', k)
  {
  }

  lemma FlagsLeaveLedger(st: State, keys: set<LinkKey>, dirty: bool, k: LinkKey)
    ensures SameLedger(st, st.(links := SetDirty(st.links, keys, dirty)), k)
  {
    hide NetTotal;
  }

  lemma StepKeepsGrounded(st: State, op: Op, cfg: Config, k: LinkKey)
    requires AllBalanced(st) && Grounded(st, k)
    requires op.Observe? ==> op.o.networkId != ""
    requires op.Restore? ==> Balanced(op.rec) && Covered(op.rec)
    ensures Grounded(Apply(st, op, cfg), k)
  {
    hide Grounded, SameLedger, ObserveLink, SweepShard, RestoreLink, SetDirty;
    match op
    case Observe(o) =>
      if o.key == k {
        ObserveKeepsOwn(st, o, cfg);
      } else {
        ObserveLeavesOthers(st, o, cfg, k);
        SameLedgerGrounded(st, ObserveLink(st, o, cfg), k);
      }
    case Sweep(shard, now, window) => SweepKeepsGrounded(st, shard, now, window, k);
    case Restore(rec) => RestoreKeepsGrounded(st, rec, cfg, k);
    case Take(shard) =>
      FlagsLeaveLedger(st, DirtyIn(st, shard), false, k);
      SameLedgerGrounded(st, TakeShard(st, shard), k);
    case Requeue(key) =>
      FlagsLeaveLedger(st, {key}, true, k);
      SameLedgerGrounded(st, RequeueLink(st, key), k);
  }

  lemma {:induction false} RunKeepsGrounded(st: State, ops: seq<Op>, cfg: Config, k: LinkKey)
    requires AllBalanced(st) && Grounded(st, k) && Attributed(ops)
    ensures Grounded(Run(st, ops, cfg), k)
  {
    if ops != [] {
      var init, last := ops[..|ops| - 1], ops[|ops| - 1];
      assert Attributed(init) && RestoresBalanced(init);
      RunKeepsGrounded(st, init, cfg, k);
      RecordsStayBalanced(st, init, cfg);
      hide Grounded, Apply;
      StepKeepsGrounded(Run(st, init, cfg), last, cfg, k);
    }
  }

  /** When every event carries a network id, no link ever reports more packets than its
      networks report together, in any run from an empty registry, whatever the clock does. */
  lemma NetworksCoverTheCount(ops: seq<Op>, cfg: Config)
    requires Attributed(ops)
    ensures AllCovered(Run(EMPTY, ops, cfg))
  {
    var now := Run(EMPTY, ops, cfg);
    forall k | k in now.links ensures Covered(now.links[k]) {
      assert EventsOf(EMPTY, k) == map[] && NetEventsOf(EMPTY, k) == map[];
      assert Grounded(EMPTY, k);
      RunKeepsGrounded(EMPTY, ops, cfg, k);
      GroundedIsCovered(now, k);
    }
  }
}
