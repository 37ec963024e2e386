/** Which observations count, told from the log by what they carry themselves: the packet
    hash, the link and the direction, and for a network's own count the network too. */
module LinkLogs {
  import opened Keys
  import opened LinkModel
  import opened LinkRuns
  import opened LinkShares

  /** The packets of link `k`, and those that network `id` counts for it. */
  function PacketsOf(st: State, k: LinkKey): nat {
    if k in st.links then st.links[k].packetCount else 0
  }

  function NetPacketsOf(st: State, k: LinkKey, id: string): nat {
    if k in st.links then NetShare(st.links[k].networks, id).packets else 0
  }

  lemma OneMore(ops: seq<Op>, o: Obs, cfg: Config)
    ensures Run(EMPTY, ops + [Observe(o)], cfg) == ObserveLink(Run(EMPTY, ops, cfg), o, cfg)
  {
    hide ObserveLink;
    assert (ops + [Observe(o)])[..|ops|] == ops;
  }

  lemma SharesGiveCounts(st: State, k: LinkKey, id: string)
    ensures var shares := StoredShares(st, k, "", id);
            shares.link.packets == PacketsOf(st, k) && shares.byNetwork.packets == NetPacketsOf(st, k, id)
  {
    hide NetShare;
  }

  lemma ObserveCounts(st: State, o: Obs, cfg: Config)
    ensures var st' := ObserveLink(st, o, cfg);
            && PacketsOf(st', o.key) == PacketsOf(st, o.key) + (if EventOf(o) in st.dedup then 0 else 1)
            && (o.networkId != "" ==>
                  NetPacketsOf(st', o.key, o.networkId)
                  == NetPacketsOf(st, o.key, o.networkId) + if NetEventOf(o) in st.netDedup then 0 else 1)
  {
    hide ObserveLink, PacketsOf, NetPacketsOf, StoredShares;
    ObserveBrings(st, o, cfg, o.key, "", o.networkId);
    SharesGiveCounts(st, o.key, o.networkId);
    SharesGiveCounts(ObserveLink(st, o, cfg), o.key, o.networkId);
  }

  /** An observation makes its link count one packet more, unless some earlier observation
      agrees with it in hash, link and direction, none after that one does, and no sweep of
      the link's shard since then was more than its window later. */
  lemma CountsUnlessRemembered(ops: seq<Op>, o: Obs, cfg: Config)
    ensures var before, after := Run(EMPTY, ops, cfg), Run(EMPTY, ops + [Observe(o)], cfg);
            PacketsOf(after, o.key)
            == PacketsOf(before, o.key) +
               if exists p ::
                    && 0 <= p < |ops| && ops[p].Observe?
                    && ops[p].o.hash == o.hash && ops[p].o.key == o.key && ops[p].o.fromIsA == o.fromIsA
                    && (forall j :: p < j < |ops| ==>
                          && !(ops[j].Observe? && ops[j].o.hash == o.hash && ops[j].o.key == o.key
                               && ops[j].o.fromIsA == o.fromIsA)
                          && !(ops[j].Sweep? && ops[j].shard == ShardOf(o.key)
                               && ops[j].now - ops[p].o.now > ops[j].window))
               then 0 else 1
  {
    hide Run, Apply, ObserveLink, PacketsOf, NetPacketsOf, ShardOf;
    var before, d := Run(EMPTY, ops, cfg), EventOf(o);
    OneMore(ops, o, cfg);
    ObserveCounts(before, o, cfg);
    TableIsLog(ops, cfg, d);
    if p: nat :| StandsAt(ops, d, p) {
      assert ops[p].o.hash == o.hash && ops[p].o.key == o.key && ops[p].o.fromIsA == o.fromIsA;
      forall j | p < j < |ops|
        ensures !(ops[j].Observe? && ops[j].o.hash == o.hash && ops[j].o.key == o.key
                  && ops[j].o.fromIsA == o.fromIsA)
      {
        assert !IsEvent(ops[j], d);
      }
    }
  }

  // ---------------------------------------------------------------- one network's count

  predicate IsNetEvent(op: Op, n: NetDedupKey) {
    && op.Observe? && op.o.networkId == n.networkId != "" && op.o.hash == n.event.hash && op.o.key == n.event.key
    && op.o.fromIsA == n.event.fromIsA
  }

  /** As StandsAt, for the observations through one network. */
  ghost predicate NetStandsAt(ops: seq<Op>, n: NetDedupKey, p: nat) {
    && p < |ops| && IsNetEvent(ops[p], n)
    && (forall j :: p < j < |ops| ==> !IsNetEvent(ops[j], n) && !Forgets(ops[j], n.event, ops[p].o.now))
  }

  lemma NetStandsAfterStep(ops: seq<Op>, n: NetDedupKey, p: nat)
    requires ops != []
    ensures var init, last := ops[..|ops| - 1], ops[|ops| - 1];
            NetStandsAt(ops, n, p) <==>
              if IsNetEvent(last, n) then p == |ops| - 1
              else NetStandsAt(init, n, p) && !Forgets(last, n.event, ops[p].o.now)
  {
    var init, last := ops[..|ops| - 1], ops[|ops| - 1];
    if NetStandsAt(ops, n, p) && p < |init| {
      assert forall j :: p < j < |init| ==> init[j] == ops[j];
    }
    if !IsNetEvent(last, n) && NetStandsAt(init, n, p) && !Forgets(last, n.event, ops[p].o.now) {
      forall j | p < j < |ops| ensures !IsNetEvent(ops[j], n) && !Forgets(ops[j], n.event, ops[p].o.now) {
        if j < |init| { assert ops[j] == init[j]; }
      }
    }
  }

  lemma {:induction false} NetTableIsLog(ops: seq<Op>, cfg: Config, n: NetDedupKey)
    ensures n in Run(EMPTY, ops, cfg).netDedup <==> exists p: nat :: NetStandsAt(ops, n, p)
    ensures forall p: nat :: NetStandsAt(ops, n, p) ==>
              n in Run(EMPTY, ops, cfg).netDedup && Run(EMPTY, ops, cfg).netDedup[n] == ops[p].o.now
  {
    if ops != [] {
      var init, last := ops[..|ops| - 1], ops[|ops| - 1];
      NetTableIsLog(init, cfg, n);
      NetEntryAfterStep(Run(EMPTY, init, cfg), last, cfg, n);
      hide Apply;
      var after := Run(EMPTY, ops, cfg);
      forall p: nat | NetStandsAt(ops, n, p) ensures n in after.netDedup && after.netDedup[n] == ops[p].o.now {
        NetStandsAfterStep(ops, n, p);
      }
      if n in after.netDedup {
        if IsNetEvent(last, n) {
          NetStandsAfterStep(ops, n, |ops| - 1);
        } else {
          var p: nat :| NetStandsAt(init, n, p);
          NetStandsAfterStep(ops, n, p);
        }
      }
    }
  }

  lemma NetEntryAfterStep(st: State, op: Op, cfg: Config, n: NetDedupKey)
    ensures var after := Apply(st, op, cfg).netDedup;
            if IsNetEvent(op, n) then n in after && after[n] == op.o.now
            else
              && (n in after <==> n in st.netDedup && !Forgets(op, n.event, st.netDedup[n]))
              && (n in after ==> after[n] == st.netDedup[n])
  {
    hide ObservedRec, ShardOf;
    if op.Restore? { RestoreKeepsTables(st, op.rec, cfg); }
  }

  /** The same for the network it came through: the network's count grows unless some
      earlier observation agrees in hash, link, direction and network, none after that one
      does, and no sweep of the shard since then was more than its window later. */
  lemma NetCountsUnlessRemembered(ops: seq<Op>, o: Obs, cfg: Config)
    requires o.networkId != ""
    ensures var before, after := Run(EMPTY, ops, cfg), Run(EMPTY, ops + [Observe(o)], cfg);
            NetPacketsOf(after, o.key, o.networkId)
            == NetPacketsOf(before, o.key, o.networkId) +
               if exists p ::
                    && 0 <= p < |ops| && ops[p].Observe? && ops[p].o.networkId == o.networkId
                    && ops[p].o.hash == o.hash && ops[p].o.key == o.key && ops[p].o.fromIsA == o.fromIsA
                    && (forall j :: p < j < |ops| ==>
                          && !(ops[j].Observe? && ops[j].o.networkId == o.networkId && ops[j].o.hash == o.hash
                               && ops[j].o.key == o.key && ops[j].o.fromIsA == o.fromIsA)
                          && !(ops[j].Sweep? && ops[j].shard == ShardOf(o.key)
                               && ops[j].now - ops[p].o.now > ops[j].window))
               then 0 else 1
  {
    hide Run, Apply, ObserveLink, PacketsOf, NetPacketsOf, ShardOf;
    var before, n := Run(EMPTY, ops, cfg), NetEventOf(o);
    OneMore(ops, o, cfg);
    ObserveCounts(before, o, cfg);
    NetTableIsLog(ops, cfg, n);
    if p: nat :| NetStandsAt(ops, n, p) {
      assert ops[p].o.networkId == o.networkId;
      assert ops[p].o.hash == o.hash && ops[p].o.key == o.key && ops[p].o.fromIsA == o.fromIsA;
      forall j | p < j < |ops|
        ensures !(ops[j].Observe? && ops[j].o.networkId == o.networkId && ops[j].o.hash == o.hash
                  && ops[j].o.key == o.key && ops[j].o.fromIsA == o.fromIsA)
      {
        assert !IsNetEvent(ops[j], n);
      }
    }
  }

  // ---------------------------------------------------------------- two observations

  /** Of two observations with no sweep between, the second counts unless it agrees with the
      first in hash, link and direction; for its network, in the network too. */
  lemma SecondCountsUnlessSame(x: Obs, y: Obs, cfg: Config)
    ensures var same := x.hash == y.hash && x.key == y.key && x.fromIsA == y.fromIsA;
            var st := Run(EMPTY, [Observe(x), Observe(y)], cfg);
            && PacketsOf(st, y.key) == (if x.key == y.key && !same then 2 else 1)
            && (y.networkId != "" ==>
                  NetPacketsOf(st, y.key, y.networkId)
                  == if x.key == y.key && x.networkId == y.networkId && !same then 2 else 1)
  {
    hide PacketsOf, NetPacketsOf, ObserveLink;
    var s1 := ObserveLink(EMPTY, x, cfg);
    var ops := [Observe(x), Observe(y)];
    assert ops[..1] == [Observe(x)] && [Observe(x)][..0] == [] && Run(EMPTY, [], cfg) == EMPTY;
    assert Run(EMPTY, [Observe(x)], cfg) == s1;
    assert Run(EMPTY, ops, cfg) == ObserveLink(s1, y, cfg);
    ObserveCounts(s1, y, cfg);
    FirstObservation(x, y, cfg);
  }

  /** What one observation of an empty registry leaves, as seen by another. */
  lemma FirstObservation(x: Obs, y: Obs, cfg: Config)
    ensures var st := ObserveLink(EMPTY, x, cfg);
            && PacketsOf(st, y.key) == (if x.key == y.key then 1 else 0)
            && NetPacketsOf(st, y.key, y.networkId)
               == (if x.key == y.key && x.networkId == y.networkId && x.networkId != "" then 1 else 0)
            && st.dedup == map[EventOf(x) := x.now]
            && st.netDedup == if x.networkId == "" then map[] else map[NetEventOf(x) := x.now]
  {
    hide ObservedRec, ObserveLink, StoredShares, PacketsOf, NetPacketsOf, PlusAll, SharesOfEvent, CountsGlobally,
         CountsForNetwork;
    FirstEntries(x, cfg);
    var st := ObserveLink(EMPTY, x, cfg);
    ObserveBrings(EMPTY, x, cfg, y.key, "", y.networkId);
    SharesGiveCounts(st, y.key, y.networkId);
    NothingStored(x, y);
    EventPackets(x, true, x.networkId != "", "", y.networkId);
    PlusAllNone(SharesOfEvent(x, true, x.networkId != "", "", y.networkId));
  }

  lemma NothingStored(x: Obs, y: Obs)
    ensures StoredShares(EMPTY, y.key, "", y.networkId) == NO_SHARES
    ensures CountsGlobally(EMPTY, x) && (CountsForNetwork(EMPTY, x) <==> x.networkId != "")
  {
  }

  lemma EventPackets(x: Obs, counts: bool, countsNet: bool, source: string, id: string)
    ensures var shares := SharesOfEvent(x, counts, countsNet, source, id);
            && shares.link.packets == (if counts then 1 else 0)
            && shares.byNetwork.packets == if countsNet && x.networkId == id then 1 else 0
  {
  }

  lemma FirstEntries(x: Obs, cfg: Config)
    ensures var st := ObserveLink(EMPTY, x, cfg);
            && st.dedup == map[EventOf(x) := x.now]
            && st.netDedup == if x.networkId == "" then map[] else map[NetEventOf(x) := x.now]
  {
    hide ObservedRec;
  }
}
