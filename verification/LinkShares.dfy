/** The counters of a link after a whole run, each the sum of what the counted events and the
    restored records brought: by direction, by confidence, by route type and by network. */
module LinkShares {
  import opened Keys
  import opened LinkModel
  import opened LinkRuns
  import opened LinkTraces

  /** Counts of one link, or of one network of it. */
  datatype Share = Share(packets: nat, dirAB: nat, dirBA: nat, lowConf: nat)

  /** The counts of a link, those of one route type and those of one network. */
  datatype Shares = Shares(link: Share, bySource: nat, byNetwork: Share)

  const NO_SHARE := Share(0, 0, 0, 0)
  const NO_SHARES := Shares(NO_SHARE, 0, NO_SHARE)

  function Plus(x: Share, y: Share): Share {
    Share(x.packets + y.packets, x.dirAB + y.dirAB, x.dirBA + y.dirBA, x.lowConf + y.lowConf)
  }

  function PlusAll(x: Shares, y: Shares): Shares {
    Shares(Plus(x.link, y.link), x.bySource + y.bySource, Plus(x.byNetwork, y.byNetwork))
  }

  function ShareOf(n: Net): Share {
    Share(n.packetCount, n.dirAB, n.dirBA, n.lowConf)
  }

  /** What the entries of network `id` count together. */
  function NetShare(nets: seq<Net>, id: string): Share {
    if nets == [] then NO_SHARE
    else
      var n, rest := nets[0], NetShare(nets[1..], id);
      if n.id == id then Plus(ShareOf(n), rest) else rest
  }

  function SharesOf(rec: Rec, source: string, id: string): Shares {
    Shares(Share(rec.packetCount, rec.dirAB, rec.dirBA, rec.lowConf),
           if source in rec.sources then rec.sources[source] else 0,
           NetShare(rec.networks, id))
  }

  /** One event is one packet, in its own direction. */
  function EventShare(o: Obs): Share {
    Share(1, if o.fromIsA then 1 else 0, if o.fromIsA then 0 else 1, if o.lowConf then 1 else 0)
  }

  /** What an event brings: for the link if it counts there, for its network if it counts
      there. An event without a route type came in by the type "unknown". */
  function SharesOfEvent(o: Obs, counts: bool, countsNet: bool, source: string, id: string): Shares {
    Shares(if counts then EventShare(o) else NO_SHARE,
           if counts && source == (if o.routeType == "" then "unknown" else o.routeType) then 1 else 0,
           if countsNet && o.networkId == id then EventShare(o) else NO_SHARE)
  }

  /** What the counted events and the restored records of a run brought to link `k`. */
  function Brought(ops: seq<Op>, k: LinkKey, source: string, id: string, cfg: Config): Shares {
    if ops == [] then NO_SHARES
    else
      var init, last := ops[..|ops| - 1], ops[|ops| - 1];
      var before, st := Brought(init, k, source, id, cfg), Run(EMPTY, init, cfg);
      match last
      case Observe(o) =>
        if o.key == k then
          PlusAll(before, SharesOfEvent(o, CountsGlobally(st, o), CountsForNetwork(st, o), source, id))
        else before
      case Restore(rec) =>
        if KeyFromPair(rec.nodeA, rec.nodeB) == Some(k) then PlusAll(before, SharesOf(rec, source, id)) else before
      case _ => before
  }

  lemma PlusNone(x: Share)
    ensures Plus(x, NO_SHARE) == x && Plus(NO_SHARE, x) == x
  {
  }

  lemma PlusAssociates(x: Share, y: Share, z: Share)
    ensures Plus(Plus(x, y), z) == Plus(x, Plus(y, z))
  {
  }

  // ---------------------------------------------------------------- the networks

  lemma NetShareCons(n: Net, nets: seq<Net>, id: string)
    ensures NetShare([n] + nets, id)
            == if n.id == id then Plus(ShareOf(n), NetShare(nets, id))
               else NetShare(nets, id)
  {
    assert ([n] + nets)[1..] == nets;
  }

  lemma {:induction false} AddNetworkShare(nets: seq<Net>, via: string, now: int, id: string)
    ensures NetShare(AddNetwork(nets, via, now), id) == NetShare(nets, id)
  {
    hide Plus;
    if nets == [] {
      var added := Net(via, now, now, 0, 0, 0, "", "", 0);
      assert AddNetwork(nets, via, now) == [added] + [];
      NetShareCons(added, [], id);
      PlusNone(NO_SHARE);
    } else if nets[0].id == via {
      NetShareCons(nets[0].(lastSeen := now), nets[1..], id);
    } else {
      AddNetworkShare(nets[1..], via, now, id);
      NetShareCons(nets[0], AddNetwork(nets[1..], via, now), id);
    }
  }

  /** The entry that an observation leaves for its network, counted or not. */
  lemma {:induction false} CountNetworkShare(nets: seq<Net>, o: Obs, id: string)
    ensures NetShare(CountNetwork(AddNetwork(nets, o.networkId, o.now), o), id)
            == if o.networkId == id then Plus(NetShare(nets, id), EventShare(o)) else NetShare(nets, id)
  {
    var added := AddNetwork(nets, o.networkId, o.now);
    if nets == [] {
      NetShareCons(CountNet(added[0], o), [], id);
    } else if nets[0].id == o.networkId {
      assert added[1..] == nets[1..];
      NetShareCons(CountNet(added[0], o), nets[1..], id);
    } else {
      CountNetworkShare(nets[1..], o, id);
      assert added[1..] == AddNetwork(nets[1..], o.networkId, o.now);
      NetShareCons(nets[0], CountNetwork(added[1..], o), id);
    }
  }

  lemma {:induction false} MergeNetworkShare(nets: seq<Net>, n: Net, id: string)
    ensures NetShare(MergeNetwork(nets, n), id)
            == if n.id == id then Plus(NetShare(nets, id), ShareOf(n))
               else NetShare(nets, id)
  {
    if nets == [] {
      NetShareCons(n, [], id);
    } else if nets[0].id == n.id {
      NetShareCons(MergeNet(nets[0], n), nets[1..], id);
    } else {
      MergeNetworkShare(nets[1..], n, id);
      NetShareCons(nets[0], MergeNetwork(nets[1..], n), id);
    }
  }

  lemma {:induction false} NetShareSnoc(nets: seq<Net>, n: Net, id: string)
    ensures NetShare(nets + [n], id)
            == if n.id == id then Plus(NetShare(nets, id), ShareOf(n))
               else NetShare(nets, id)
  {
    if nets == [] {
      NetShareCons(n, [], id);
      assert nets + [n] == [n] + [];
    } else {
      NetShareSnoc(nets[1..], n, id);
      assert (nets + [n])[1..] == nets[1..] + [n];
    }
  }

  lemma {:induction false} MergeNetworksShare(nets: seq<Net>, add: seq<Net>, id: string)
    ensures NetShare(MergeNetworks(nets, add), id) == Plus(NetShare(nets, id), NetShare(add, id))
  {
    if add == [] {
      PlusNone(NetShare(nets, id));
    } else {
      var init, last := add[..|add| - 1], add[|add| - 1];
      MergeNetworksShare(nets, init, id);
      MergeNetworkShare(MergeNetworks(nets, init), last, id);
      NetShareSnoc(init, last, id);
      assert add == init + [last];
      PlusAssociates(NetShare(nets, id), NetShare(init, id), ShareOf(last));
      hide NetShare, MergeNetwork, ShareOf, Plus;
    }
  }

  // ---------------------------------------------------------------- one step

  lemma TouchShares(rec: Rec, o: Obs, countsNet: bool, source: string, id: string)
    requires countsNet ==> o.networkId != ""
    ensures SharesOf(TouchNetwork(rec, o, countsNet), source, id)
            == PlusAll(SharesOf(rec, source, id), SharesOfEvent(o, false, countsNet, source, id))
  {
    hide NetShare, AddNetwork, CountNetwork, EventShare, Plus;
    AddNetworkShare(rec.networks, o.networkId, o.now, id);
    CountNetworkShare(rec.networks, o, id);
    PlusNone(NetShare(rec.networks, id));
    PlusNone(Share(rec.packetCount, rec.dirAB, rec.dirBA, rec.lowConf));
  }

  lemma CountShares(rec: Rec, o: Obs, cfg: Config, source: string, id: string)
    ensures SharesOf(CountEvent(rec, o, cfg), source, id)
            == PlusAll(SharesOf(rec, source, id), SharesOfEvent(o, true, false, source, id))
  {
    hide CountEvent, PlaceEvent, DecayedScore, AppendCapped, NetShare;
    CountedFields(rec, o, cfg);
    PlusNone(NetShare(rec.networks, id));
    SourceCounted(rec.sources, o, source);
    hide Bump, SourceOf;
  }

  lemma SourceCounted(sources: map<string, nat>, o: Obs, source: string)
    ensures var now := Bump(sources, SourceOf(o), 1);
            (if source in now then now[source] else 0)
            == (if source in sources then sources[source] else 0)
               + if source == (if o.routeType == "" then "unknown" else o.routeType) then 1 else 0
  {
  }

  /** An observation brings a record what it counts for, and nothing else. */
  lemma ObservedShares(rec: Rec, o: Obs, countsNet: bool, counts: bool, cfg: Config, source: string, id: string)
    requires countsNet ==> o.networkId != ""
    ensures SharesOf(ObservedRec(rec, o, countsNet, counts, cfg), source, id)
            == PlusAll(SharesOf(rec, source, id), SharesOfEvent(o, counts, countsNet, source, id))
  {
    hide CountEvent, TouchNetwork, SharesOf;
    TouchShares(rec, o, countsNet, source, id);
    CountShares(TouchNetwork(rec, o, countsNet), o, cfg, source, id);
  }

  /** A merge adds up every count: packets, each direction, low confidence, each route type
      and, network by network, the same. */
  lemma MergedShares(e: Rec, r: Rec, cfg: Config, source: string, id: string)
    ensures SharesOf(MergeRestored(e, r, cfg), source, id) == PlusAll(SharesOf(e, source, id), SharesOf(r, source, id))
  {
    hide MergeRestored, MergeNetworks, MergeCounts, NetShare;
    MergedCounts(e, r, cfg);
    SourceMerged(e.sources, r.sources, source);
    MergeNetworksShare(e.networks, r.networks, id);
  }

  lemma MergedCounts(e: Rec, r: Rec, cfg: Config)
    ensures var m := MergeRestored(e, r, cfg);
            && m.packetCount == e.packetCount + r.packetCount && m.lowConf == e.lowConf + r.lowConf
            && m.dirAB == e.dirAB + r.dirAB && m.dirBA == e.dirBA + r.dirBA
            && m.sources == MergeCounts(e.sources, r.sources) && m.networks == MergeNetworks(e.networks, r.networks)
  {
    hide CombinedScore, MergeNetworks, MergeCounts, MergeSnrs, MergeHash;
  }

  lemma SourceMerged(a: map<string, nat>, b: map<string, nat>, source: string)
    ensures var m := MergeCounts(a, b);
            (if source in m then m[source] else 0)
            == (if source in a then a[source] else 0) + (if source in b then b[source] else 0)
  {
  }

  /** The counts of link `k`, if it is stored. */
  function StoredShares(st: State, k: LinkKey, source: string, id: string): Shares {
    if k in st.links then SharesOf(st.links[k], source, id) else NO_SHARES
  }

  lemma NewShares(o: Obs, source: string, id: string)
    ensures SharesOf(NewRec(o), source, id) == NO_SHARES
  {
  }

  lemma CanonicalShares(rec: Rec, k: LinkKey, source: string, id: string)
    ensures SharesOf(Canonical(rec, k), source, id) == SharesOf(rec, source, id)
  {
  }

  lemma PlusAllNone(x: Shares)
    ensures PlusAll(NO_SHARES, x) == x
  {
  }

  lemma ObserveBrings(st: State, o: Obs, cfg: Config, k: LinkKey, source: string, id: string)
    ensures StoredShares(ObserveLink(st, o, cfg), k, source, id)
            == if o.key == k then
                 PlusAll(StoredShares(st, k, source, id),
                         SharesOfEvent(o, CountsGlobally(st, o), CountsForNetwork(st, o), source, id))
               else StoredShares(st, k, source, id)
  {
    hide ObservedRec, SharesOf, NewRec, SharesOfEvent, PlusAll;
    if o.key == k {
      NewShares(o, source, id);
      ObservedShares(RecordOf(st, o), o, CountsForNetwork(st, o), CountsGlobally(st, o), cfg, source, id);
    }
  }

  lemma RestoreBrings(st: State, rec: Rec, cfg: Config, k: LinkKey, source: string, id: string)
    ensures StoredShares(RestoreLink(st, rec, cfg), k, source, id)
            == if KeyFromPair(rec.nodeA, rec.nodeB) == Some(k) then
                 PlusAll(StoredShares(st, k, source, id), SharesOf(rec, source, id))
               else StoredShares(st, k, source, id)
  {
    hide MergeRestored, SharesOf, KeyFromPair, Canonical, PlusAll;
    if KeyFromPair(rec.nodeA, rec.nodeB) == Some(k) {
      CanonicalShares(rec, k, source, id);
      PlusAllNone(SharesOf(rec, source, id));
      if k in st.links { MergedShares(st.links[k], Canonical(rec, k), cfg, source, id); }
    }
  }

  lemma QuietBrings(st: State, op: Op, cfg: Config, k: LinkKey, source: string, id: string)
    requires !op.Observe? && !op.Restore?
    ensures StoredShares(Apply(st, op, cfg), k, source, id) == StoredShares(st, k, source, id)
  {
    hide NetShare;
  }

  /** After any run from an empty registry, every count of every link is the sum of what the
      counted events and the restored records brought, whatever the clock does. */
  lemma {:induction false} CountsAreBrought(ops: seq<Op>, k: LinkKey, source: string, id: string, cfg: Config)
    ensures var links := Run(EMPTY, ops, cfg).links;
            Brought(ops, k, source, id, cfg)
            == if k in links then
                 Shares(Share(links[k].packetCount, links[k].dirAB, links[k].dirBA, links[k].lowConf),
                        if source in links[k].sources then links[k].sources[source] else 0,
                        NetShare(links[k].networks, id))
               else NO_SHARES
  {
    if ops != [] {
      var init, last := ops[..|ops| - 1], ops[|ops| - 1];
      var st := Run(EMPTY, init, cfg);
      CountsAreBrought(init, k, source, id, cfg);
      assert Brought(init, k, source, id, cfg) == StoredShares(st, k, source, id);
      hide ObserveLink, RestoreLink, NetShare;
      match last
      case Observe(o) => ObserveBrings(st, o, cfg, k, source, id);
      case Restore(rec) => RestoreBrings(st, rec, cfg, k, source, id);
      case Sweep(_, _, _) => QuietBrings(st, last, cfg, k, source, id);
      case Take(_) => QuietBrings(st, last, cfg, k, source, id);
      case Requeue(_) => QuietBrings(st, last, cfg, k, source, id);
    }
  }

  // ---------------------------------------------------------------- the last traces of a merge

  /** After a merge the last hash of each direction is that of the record seen last, unless
      the restored record was seen last and has none; the SNRs are the last five of both,
      those of the record seen last coming last. At equal times the restored one is last. */
  lemma MergeTakesLastTraces(e: Rec, r: Rec, cfg: Config)
    requires |e.snrsAB| <= SNR_HISTORY_LIMIT && |e.snrsBA| <= SNR_HISTORY_LIMIT
    ensures var m := MergeRestored(e, r, cfg);
            if r.lastSeen >= e.lastSeen then
              && m.lastSeen == r.lastSeen
              && m.lastHashAB == (if r.lastHashAB != "" then r.lastHashAB else e.lastHashAB)
              && m.lastHashBA == (if r.lastHashBA != "" then r.lastHashBA else e.lastHashBA)
              && m.snrsAB == LastFive(e.snrsAB + r.snrsAB) && m.snrsBA == LastFive(e.snrsBA + r.snrsBA)
            else
              && m.lastSeen == e.lastSeen && m.lastHashAB == e.lastHashAB && m.lastHashBA == e.lastHashBA
              && m.snrsAB == LastFive(r.snrsAB + e.snrsAB) && m.snrsBA == LastFive(r.snrsBA + e.snrsBA)
    ensures var first := MergeRestored(e, r, cfg).firstSeen;
            && (e.firstSeen > 0 && r.firstSeen > 0 ==> first <= e.firstSeen && first <= r.firstSeen)
            && (first == e.firstSeen || first == r.firstSeen)
            && (e.firstSeen == 0 ==> first == r.firstSeen)
            && (r.firstSeen <= 0 && e.firstSeen != 0 ==> first == e.firstSeen)
  {
    hide CombinedScore, MergeNetworks, MergeCounts, MergeSnrs, MergeGeometry, LastFive;
    var newer := r.lastSeen >= e.lastSeen;
    MergeTraceFields(e, r, cfg);
    MergedSnrsAreLastFive(e.snrsAB, r.snrsAB, newer);
    MergedSnrsAreLastFive(e.snrsBA, r.snrsBA, newer);
  }

  lemma MergeTraceFields(e: Rec, r: Rec, cfg: Config)
    ensures var m, newer := MergeRestored(e, r, cfg), r.lastSeen >= e.lastSeen;
            && m.lastSeen == Later(e.lastSeen, r.lastSeen)
            && m.firstSeen == MergeFirst(e.firstSeen, r.firstSeen)
            && m.lastHashAB == MergeHash(e.lastHashAB, r.lastHashAB, newer)
            && m.lastHashBA == MergeHash(e.lastHashBA, r.lastHashBA, newer)
            && m.snrsAB == MergeSnrs(e.snrsAB, r.snrsAB, newer) && m.snrsBA == MergeSnrs(e.snrsBA, r.snrsBA, newer)
  {
    hide CombinedScore, MergeNetworks, MergeCounts, MergeSnrs, MergeHash;
  }

  // ---------------------------------------------------------------- one network's entry

  /** The entry of network `id`. */
  function EntryOf(nets: seq<Net>, id: string): Option<Net> {
    if nets == [] then None else if nets[0].id == id then Some(nets[0]) else EntryOf(nets[1..], id)
  }

  lemma EntryOfCons(n: Net, nets: seq<Net>, id: string)
    ensures EntryOf([n] + nets, id) == if n.id == id then Some(n) else EntryOf(nets, id)
  {
    assert ([n] + nets)[1..] == nets;
  }

  lemma {:induction false} AddNetworkEntry(nets: seq<Net>, via: string, now: int, id: string)
    ensures var was, r := EntryOf(nets, id), EntryOf(AddNetwork(nets, via, now), id);
            r == if id != via then was
                  else if was.None? then Some(Net(via, now, now, 0, 0, 0, "", "", 0))
                  else Some(was.value.(lastSeen := now))
  {
    if nets == [] {
      EntryOfCons(Net(via, now, now, 0, 0, 0, "", "", 0), [], id);
    } else if nets[0].id == via {
      EntryOfCons(nets[0].(lastSeen := now), nets[1..], id);
    } else {
      AddNetworkEntry(nets[1..], via, now, id);
      EntryOfCons(nets[0], AddNetwork(nets[1..], via, now), id);
    }
  }

  lemma {:induction false} CountNetworkEntry(nets: seq<Net>, o: Obs, id: string)
    ensures var was, now := EntryOf(nets, id), EntryOf(CountNetwork(nets, o), id);
            now == if id != o.networkId || was.None? then was else Some(CountNet(was.value, o))
  {
    if nets != [] {
      if nets[0].id == o.networkId {
        EntryOfCons(CountNet(nets[0], o), nets[1..], id);
      } else {
        CountNetworkEntry(nets[1..], o, id);
        EntryOfCons(nets[0], CountNetwork(nets[1..], o), id);
      }
    }
  }

  /** An observation leaves its network's entry seen last now, first seen when it was first
      observed through, and with the hash as the last one of its direction if it counted for
      the network. The entries of other networks stay as they are. */
  lemma ObservedEntry(rec: Rec, o: Obs, countsNet: bool, counts: bool, cfg: Config, id: string)
    requires o.networkId != ""
    ensures var was := EntryOf(rec.networks, id);
            var now := EntryOf(ObservedRec(rec, o, countsNet, counts, cfg).networks, id);
            if id != o.networkId then now == was
            else
              && now.Some? && now.value.lastSeen == o.now
              && now.value.firstSeen == (if was.Some? then was.value.firstSeen else o.now)
              && now.value.lastHashAB == (if countsNet && o.fromIsA then o.hash
                                         else if was.Some? then was.value.lastHashAB else "")
              && now.value.lastHashBA == (if countsNet && !o.fromIsA then o.hash
                                         else if was.Some? then was.value.lastHashBA else "")
  {
    hide CountEvent, AddNetwork, CountNetwork, EntryOf;
    var touched := TouchNetwork(rec, o, countsNet);
    CountedFields(touched, o, cfg);
    AddNetworkEntry(rec.networks, o.networkId, o.now, id);
    CountNetworkEntry(AddNetwork(rec.networks, o.networkId, o.now), o, id);
  }

  lemma {:induction false} MergeNetworkEntry(nets: seq<Net>, n: Net, id: string)
    ensures var was, now := EntryOf(nets, id), EntryOf(MergeNetwork(nets, n), id);
            now == if id != n.id then was else if was.None? then Some(n) else Some(MergeNet(was.value, n))
  {
    hide MergeNet;
    if nets == [] {
      EntryOfCons(n, [], id);
    } else if nets[0].id == n.id {
      assert MergeNet(nets[0], n).id == nets[0].id by { MergeNetFields(nets[0], n); }
      EntryOfCons(MergeNet(nets[0], n), nets[1..], id);
    } else {
      MergeNetworkEntry(nets[1..], n, id);
      EntryOfCons(nets[0], MergeNetwork(nets[1..], n), id);
    }
  }

  /** Two entries of one network merge by adding up; the last hashes are those of the entry
      seen last, unless the restored one was and has none. */
  lemma MergeNetFields(e: Net, n: Net)
    ensures var m := MergeNet(e, n);
            && m.id == e.id && m.packetCount == e.packetCount + n.packetCount && m.dirAB == e.dirAB + n.dirAB
            && m.dirBA == e.dirBA + n.dirBA && m.lowConf == e.lowConf + n.lowConf
            && (e.firstSeen > 0 && n.firstSeen > 0 ==> m.firstSeen <= e.firstSeen && m.firstSeen <= n.firstSeen)
            && (m.firstSeen == e.firstSeen || m.firstSeen == n.firstSeen)
            && m.lastSeen >= e.lastSeen && m.lastSeen >= n.lastSeen
            && (m.lastSeen == e.lastSeen || m.lastSeen == n.lastSeen)
            && m.lastHashAB == (if n.lastSeen >= e.lastSeen && n.lastHashAB != "" then n.lastHashAB else e.lastHashAB)
            && m.lastHashBA == (if n.lastSeen >= e.lastSeen && n.lastHashBA != "" then n.lastHashBA else e.lastHashBA)
  {
  }

  lemma {:induction false} EntryOfSnoc(nets: seq<Net>, n: Net, id: string)
    ensures EntryOf(nets + [n], id)
            == if EntryOf(nets, id).Some? then EntryOf(nets, id) else if n.id == id then Some(n) else None
  {
    if nets == [] {
      assert nets + [n] == [n] + [];
      EntryOfCons(n, [], id);
    } else {
      EntryOfSnoc(nets[1..], n, id);
      assert (nets + [n])[1..] == nets[1..] + [n];
    }
  }

  predicate Distinct(nets: seq<Net>) {
    forall i, j :: 0 <= i < j < |nets| ==> nets[i].id != nets[j].id
  }

  lemma {:induction false} EntryIsOne(nets: seq<Net>, id: string)
    ensures EntryOf(nets, id).Some? ==> EntryOf(nets, id).value in nets && EntryOf(nets, id).value.id == id
  {
    if nets != [] && nets[0].id != id { EntryIsOne(nets[1..], id); }
  }

  /** Merging the networks of a restored record changes exactly the entries it has: those
      known before are merged with theirs, the others are taken over. */
  lemma {:induction false} MergeNetworksEntry(nets: seq<Net>, add: seq<Net>, id: string)
    requires Distinct(add)
    ensures var was, more, now := EntryOf(nets, id), EntryOf(add, id), EntryOf(MergeNetworks(nets, add), id);
            now == if more.None? then was else if was.None? then more else Some(MergeNet(was.value, more.value))
  {
    if add != [] {
      var init, last := add[..|add| - 1], add[|add| - 1];
      MergeNetworksEntry(nets, init, id);
      MergeNetworkEntry(MergeNetworks(nets, init), last, id);
      EntryOfSnoc(init, last, id);
      EntryIsOne(init, id);
      assert add == init + [last];
    }
  }
}
