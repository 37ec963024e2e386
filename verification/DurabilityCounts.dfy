/** Every count of every link, over the life of a process: what was persisted before it
    started and what it counted itself, however restore, ingest and flush interleave. */
module DurabilityCounts {
  import opened Keys
  import opened LinkModel
  import opened LinkStores
  import opened LinkHistories
  import opened LinkShares
  import opened Durability
  import opened RestoreSteps
  import opened DurabilityLaws
  import LinkRuns

  /** The counts a link had on disk, as its rows tell them. */
  function Persisted(base: Rows, k: LinkKey, source: string, id: string): Shares {
    if k !in base then NO_SHARES
    else
      var link, nets := base[k].link, base[k].nets;
      Shares(Share(link.packetCount, link.dirAB, link.dirBA, link.lowConf),
             if source in link.sources then link.sources[source] else 0,
             if id in nets then Share(nets[id].packetCount, nets[id].dirAB, nets[id].dirBA, nets[id].lowConf)
             else NO_SHARE)
  }

  /** The counts of the observations since the start. */
  ghost function Live(p: Process, events: seq<Event>, k: LinkKey, source: string, id: string, cfg: Config): Shares {
    if events == [] then NO_SHARES
    else
      var init, e := events[..|events| - 1], events[|events| - 1];
      var before, q := Live(p, init, k, source, id, cfg), Run(p, init, cfg);
      if e.Observe? && Enabled(q, e) && e.o.key == k then
        PlusAll(before, SharesOfEvent(e.o, CountsGlobally(q.reg, e.o), CountsForNetwork(q.reg, e.o), source, id))
      else before
  }

  lemma {:induction false} EntryShare(nets: seq<Net>, id: string)
    requires DistinctIds(nets)
    ensures NetShare(nets, id) == if id in ById(nets) then ShareOf(ById(nets)[id]) else NO_SHARE
  {
    if nets != [] {
      DistinctTail(nets);
      EntryShare(nets[1..], id);
      PlusNone(ShareOf(nets[0]));
      hide Plus, ShareOf;
      if id in ById(nets[1..]) { var j := ByIdFrom(nets[1..], id); }
    }
  }

  /** A loaded record brings what its row tells. */
  lemma LoadedShares(base: Rows, k: LinkKey, rec: Rec, source: string, id: string)
    requires k in base && LoadOf(k, base[k], rec)
    ensures SharesOf(rec, source, id) == Persisted(base, k, source, id)
  {
    hide ById, DistinctIds, KeyFromPair, HexOf, NetShare;
    EntryShare(rec.networks, id);
  }

  ghost predicate Accounts(p: Process, base: Rows, live: Shares, k: LinkKey, source: string, id: string) {
    StoredShares(p.reg, k, source, id)
    == PlusAll(if Merged(p, k) then Persisted(base, k, source, id) else NO_SHARES, live)
  }

  lemma PlusAllMoves(x: Shares, y: Shares, z: Shares)
    ensures PlusAll(PlusAll(x, y), z) == PlusAll(x, PlusAll(y, z))
    ensures PlusAll(x, y) == PlusAll(y, x)
  {
  }

  /** An event other than a restore and an observation leaves counts and history alone. */
  lemma QuietEvent(p: Process, base: Rows, e: Event, cfg: Config, k: LinkKey, source: string, id: string)
    requires Inv(p, base) && Enabled(p, e) && !e.Observe? && !e.RestoreOne?
    ensures StoredShares(Next(p, e, cfg).reg, k, source, id) == StoredShares(p.reg, k, source, id)
    ensures Merged(Next(p, e, cfg), k) && !Merged(p, k) ==> k !in base
    ensures Merged(p, k) ==> Merged(Next(p, e, cfg), k)
  {
    hide StoredShares, Saved, LinkInv, CopyInv, RowOk, LoadOf, SweepShard, TakeShard, RequeueLink;
    match e {
      case Sweep(shard, now, window) => QuietBrings(p.reg, LinkRuns.Sweep(shard, now, window), cfg, k, source, id);
      case Take => QuietBrings(p.reg, LinkRuns.Take(p.flushing.next), cfg, k, source, id);
      case RequeueOne(x) => QuietBrings(p.reg, LinkRuns.Requeue(x), cfg, k, source, id);
      case Load(recs) =>
      case RestoreDone =>
      case FlushStart =>
      case TakeDone =>
      case Commit =>
      case Fail =>
      case RequeueDone =>
    }
  }

  lemma QuietAccounts(p: Process, base: Rows, e: Event, cfg: Config, live: Shares, k: LinkKey, source: string,
                      id: string)
    requires Inv(p, base) && Enabled(p, e) && !e.Observe? && !e.RestoreOne? && Accounts(p, base, live, k, source, id)
    ensures Accounts(Next(p, e, cfg), base, live, k, source, id)
  {
    hide Inv, Enabled, Next, StoredShares, PlusAll;
    QuietEvent(p, base, e, cfg, k, source, id);
    hide Merged;
  }

  lemma RestoreAccounts(p: Process, base: Rows, x: LinkKey, cfg: Config, live: Shares, k: LinkKey, source: string,
                        id: string)
    requires Inv(p, base) && Enabled(p, RestoreOne(x)) && Accounts(p, base, live, k, source, id)
    ensures Accounts(Restored(p, x, cfg), base, live, k, source, id)
  {
    hide Inv, StoredShares, PlusAll, LoadOf, RestoreLink, Persisted, RowOk, CopyInv, LinkInv, KeyFromPair;
    var rec := p.restoring.todo[x];
    InvAt(p, base, x);
    LoadedKey(p, base, x);
    RestoreBrings(p.reg, rec, cfg, k, source, id);
    if x == k {
      LoadedShares(base, k, rec, source, id);
      PlusAllNone(live);
      PlusAllMoves(live, Persisted(base, k, source, id), NO_SHARES);
    }
  }

  lemma ObserveAccounts(p: Process, base: Rows, o: Obs, cfg: Config, live: Shares, k: LinkKey, source: string,
                        id: string)
    requires Accounts(p, base, live, k, source, id)
    ensures var more := SharesOfEvent(o, CountsGlobally(p.reg, o), CountsForNetwork(p.reg, o), source, id);
            Accounts(Observed(p, o, cfg), base, if o.key == k then PlusAll(live, more) else live, k, source, id)
  {
    hide StoredShares, PlusAll, ObserveLink, Persisted, SharesOfEvent, CountsGlobally, CountsForNetwork;
    ObserveBrings(p.reg, o, cfg, k, source, id);
    var more := SharesOfEvent(o, CountsGlobally(p.reg, o), CountsForNetwork(p.reg, o), source, id);
    PlusAllMoves(if Merged(p, k) then Persisted(base, k, source, id) else NO_SHARES, live, more);
  }

  lemma StartAccounts(rows: Rows, t0: int, k: LinkKey, source: string, id: string)
    ensures Accounts(Start(rows, t0), rows, NO_SHARES, k, source, id)
  {
    hide PlusAll, SharesOf;
    PlusAllNone(NO_SHARES);
    assert Start(rows, t0).reg == LinkRuns.EMPTY;
  }

  lemma AccountsAfter(p: Process, base: Rows, e: Event, cfg: Config, live: Shares, k: LinkKey, source: string,
                      id: string)
    requires Inv(p, base) && Accounts(p, base, live, k, source, id)
    ensures var more := if e.Observe? && Enabled(p, e) && e.o.key == k then
                          PlusAll(live, SharesOfEvent(e.o, CountsGlobally(p.reg, e.o), CountsForNetwork(p.reg, e.o),
                                                      source, id))
                        else live;
            Accounts(Step(p, e, cfg), base, more, k, source, id)
  {
    hide Inv, Accounts, Observed, Restored, PlusAll, SharesOfEvent, CountsGlobally, CountsForNetwork;
    if Enabled(p, e) {
      if e.Observe? {
        ObserveAccounts(p, base, e.o, cfg, live, k, source, id);
      } else if e.RestoreOne? {
        RestoreAccounts(p, base, e.key, cfg, live, k, source, id);
      } else {
        QuietAccounts(p, base, e, cfg, live, k, source, id);
      }
    }
  }

  lemma {:induction false} RunAccounts(rows: Rows, t0: int, events: seq<Event>, cfg: Config, k: LinkKey, source: string,
                                       id: string)
    requires 0 < t0 && RowsOk(rows, t0)
    ensures var p := Run(Start(rows, t0), events, cfg);
            Accounts(p, rows, Live(Start(rows, t0), events, k, source, id, cfg), k, source, id)
  {
    hide Inv, RowsOk, Enabled, Accounts, Step, PlusAll, SharesOfEvent, CountsGlobally, CountsForNetwork, Start;
    var p0 := Start(rows, t0);
    StartInv(rows, t0);
    if events == [] {
      StartAccounts(rows, t0, k, source, id);
    } else {
      var init, e := events[..|events| - 1], events[|events| - 1];
      RunAccounts(rows, t0, init, cfg, k, source, id);
      RunKeepsInv(p0, rows, init, cfg);
      AccountsAfter(Run(p0, init, cfg), rows, e, cfg, Live(p0, init, k, source, id, cfg), k, source, id);
    }
  }

  /** Once the restore is finished, each link's counts are those it had on disk at the start
      plus those of the observations since, whatever was flushed, failed or retried between:
      packets, each direction, low confidence, each route type, and each network the same. */
  lemma PersistedPlusLive(rows: Rows, t0: int, events: seq<Event>, cfg: Config, k: LinkKey, source: string, id: string)
    requires 0 < t0 && RowsOk(rows, t0)
    ensures var p := Run(Start(rows, t0), events, cfg);
            p.restoring == Done && k in p.reg.links ==>
              var rec := p.reg.links[k];
              Shares(Share(rec.packetCount, rec.dirAB, rec.dirBA, rec.lowConf),
                     if source in rec.sources then rec.sources[source] else 0, NetShare(rec.networks, id))
              == PlusAll(Persisted(rows, k, source, id), Live(Start(rows, t0), events, k, source, id, cfg))
  {
    hide Run, Live, PlusAll, Persisted, NetShare, RowsOk;
    RunAccounts(rows, t0, events, cfg, k, source, id);
  }
}
