/** What the durability machine is for, over every run. */
module DurabilityLaws {
  import opened Keys
  import opened LinkModel
  import opened LinkStores
  import opened LinkHistories
  import opened Durability
  import LinkRuns
  import opened LiveSteps
  import opened RestoreSteps
  import opened FlushSteps

  lemma StepKeepsInv(p: Process, base: Rows, e: Event, cfg: Config)
    requires Inv(p, base)
    ensures Inv(Step(p, e, cfg), base)
  {
    hide Inv;
    if Enabled(p, e) {
      match e
      case Observe(o) => ObserveKeepsInv(p, base, o, cfg);
      case Sweep(shard, now, window) => SweepKeepsInv(p, base, shard, now, window, cfg);
      case Load(recs) => LoadKeepsInv(p, base, recs, cfg);
      case RestoreOne(k) => RestoreKeepsInv(p, base, k, cfg);
      case RestoreDone => RestoreDoneKeepsInv(p, base, cfg);
      case FlushStart => FlushStartKeepsInv(p, base, cfg);
      case Take => TakeKeepsInv(p, base, cfg);
      case TakeDone => TakeDoneKeepsInv(p, base, cfg);
      case Commit => CommitKeepsInv(p, base, cfg);
      case Fail => FailKeepsInv(p, base, cfg);
      case RequeueOne(k) => RequeueKeepsInv(p, base, k, cfg);
      case RequeueDone => RequeueDoneKeepsInv(p, base, cfg);
    }
  }

  lemma {:induction false} RunKeepsInv(p: Process, base: Rows, events: seq<Event>, cfg: Config)
    requires Inv(p, base)
    ensures Inv(Run(p, events, cfg), base)
  {
    hide Inv, Step;
    if events != [] {
      RunKeepsInv(p, base, events[..|events| - 1], cfg);
      StepKeepsInv(Run(p, events[..|events| - 1], cfg), base, events[|events| - 1], cfg);
    }
  }

  // ---------------------------------------------------------------- what it is for

  /** One whole flush: the dirty records of every shard are taken, and saved. */
  function FlushEvents(n: nat): seq<Event> {
    if n == 0 then [FlushStart] else FlushEvents(n - 1) + [Take]
  }

  lemma RunOne(p: Process, events: seq<Event>, e: Event, cfg: Config)
    ensures Run(p, events + [e], cfg) == Step(Run(p, events, cfg), e, cfg)
  {
    assert (events + [e])[..|events|] == events;
  }

  /** The flush started at `p` has taken `n` shards, and none of their links is dirty. */
  ghost predicate TakenFrom(p: Process, n: nat, q: Process) {
    && q.flushing.Taking? && q.flushing.next == n
    && q.restoring == p.restoring && q.counted == p.counted && q.reg.links.Keys == p.reg.links.Keys
    && (forall k {:trigger q.reg.links[k]} :: k in q.reg.links && ShardOf(k) < n ==> !q.reg.links[k].dirty)
  }

  lemma TakeCleans(p: Process, n: nat, q: Process)
    requires TakenFrom(p, n, q)
    ensures TakenFrom(p, n + 1, Taken(q))
  {
    hide ShardOf;
  }

  lemma {:induction false} TakenClean(p: Process, n: nat, cfg: Config)
    requires Enabled(p, FlushStart) && n <= LINK_SHARDS
    ensures TakenFrom(p, n, Run(p, FlushEvents(n), cfg))
  {
    hide TakenFrom, Enabled, Run, FlushEvents;
    if n == 0 {
      FlushBegins(p, cfg);
    } else {
      TakenClean(p, n - 1, cfg);
      OneMoreTaken(p, n - 1, cfg);
    }
  }

  lemma FlushBegins(p: Process, cfg: Config)
    requires Enabled(p, FlushStart)
    ensures TakenFrom(p, 0, Run(p, FlushEvents(0), cfg))
  {
    hide Enabled;
    RunOne(p, [], FlushStart, cfg);
    assert [] + [FlushStart] == FlushEvents(0) && Run(p, [], cfg) == p;
    assert Run(p, FlushEvents(0), cfg) == p.(flushing := Taking(0, map[]));
    hide Run, FlushEvents;
  }

  lemma OneMoreTaken(p: Process, n: nat, cfg: Config)
    requires n < LINK_SHARDS && TakenFrom(p, n, Run(p, FlushEvents(n), cfg))
    ensures TakenFrom(p, n + 1, Run(p, FlushEvents(n + 1), cfg))
  {
    hide Run, Taken, Enabled;
    assert FlushEvents(n + 1) == FlushEvents(n) + [Take];
    hide FlushEvents;
    var q := Run(p, FlushEvents(n), cfg);
    RunOne(p, FlushEvents(n), Take, cfg);
    TakeCleans(p, n, q);
    TakeHappens(q, cfg);
    hide TakenFrom;
  }

  lemma TakeHappens(q: Process, cfg: Config)
    requires q.flushing.Taking? && q.flushing.next < LINK_SHARDS
    ensures Step(q, Take, cfg) == Taken(q)
  {
    hide Taken;
  }

  ghost predicate Settled(q: Process) {
    && q.restoring == Done && q.flushing == Idle
    && (forall k {:trigger q.reg.links[k]} :: k in q.reg.links ==> !q.reg.links[k].dirty)
  }

  function WholeFlush(): seq<Event> {
    FlushEvents(LINK_SHARDS) + [TakeDone] + [Commit]
  }

  lemma FlushSettles(p: Process, cfg: Config)
    requires Enabled(p, FlushStart)
    ensures var q := Run(p, WholeFlush(), cfg);
            Settled(q) && q.counted == p.counted && q.reg.links.Keys == p.reg.links.Keys
  {
    hide Run, FlushEvents, Upsert;
    TakenClean(p, LINK_SHARDS, cfg);
    var taking := FlushEvents(LINK_SHARDS);
    RunOne(p, taking, TakeDone, cfg);
    RunOne(p, taking + [TakeDone], Commit, cfg);
  }

  lemma SettledIsShown(q: Process, base: Rows, k: LinkKey)
    requires Inv(q, base) && Settled(q)
    ensures (k in q.rows <==> k in q.reg.links)
    ensures k in q.reg.links ==>
              Shown(q, k) && RecOk(k, q.reg.links[k], q.clock)
              && q.reg.links[k].packetCount == Base(base, k) + Counted(q, k)
  {
    hide RecOk, RowOf, Extends, Shows, RowOk, LoadOf, CopyInv, Inv;
    InvAt(q, base, k);
  }

  /** The row holds the record, field by field and network by network. Only last sightings may
      be later in the row, if observations came out of order. */
  ghost predicate Holds(row: Row, rec: Rec, ordered: bool) {
    && row.link.(networks := rec.networks, dirty := rec.dirty, lastSeen := rec.lastSeen) == rec
    && rec.lastSeen <= row.link.lastSeen && (ordered ==> row.link.lastSeen == rec.lastSeen)
    && NetsHeld(row.nets, rec.networks, ordered)
  }

  lemma ShownHolds(p: Process, k: LinkKey, clock: int)
    requires k in p.reg.links && Shown(p, k) && RecOk(k, p.reg.links[k], clock)
    ensures k in p.rows && Holds(p.rows[k], p.reg.links[k], p.ordered)
    ensures p.rows[k].link.packetCount == p.reg.links[k].packetCount
  {
    hide RowOf, Shows, IsCanonical, HexOf, NetsOk, DistinctIds, NetsHeld;
    ShownIsHeld(p.rows[k], p.reg.links[k], p.ordered);
  }

  /** A flush that succeeds with nothing observed meanwhile leaves every link on disk as it
      is in memory: its count there is all that was ever counted. Only a last sighting may be
      later on disk, if observations came out of order. */
  lemma QuietFlushIsComplete(rows: Rows, t0: int, events: seq<Event>, cfg: Config)
    requires 0 < t0 && RowsOk(rows, t0)
    requires Enabled(Run(Start(rows, t0), events, cfg), FlushStart)
    ensures var p := Run(Start(rows, t0), events, cfg);
            var q := Run(p, WholeFlush(), cfg);
            && q.rows.Keys == q.reg.links.Keys == p.reg.links.Keys
            && forall k :: k in q.rows ==>
                 var row, rec := q.rows[k], q.reg.links[k];
                 && row.link.(networks := rec.networks, dirty := rec.dirty, lastSeen := rec.lastSeen) == rec
                 && rec.lastSeen <= row.link.lastSeen && (q.ordered ==> row.link.lastSeen == rec.lastSeen)
                 && NetsHeld(row.nets, rec.networks, q.ordered)
                 && row.link.packetCount == Base(rows, k) + Counted(p, k)
  {
    hide Inv, RowOf, Shows, Shown, RecOk, NetsHeld, RowsOk, Enabled, WholeFlush;
    var p := Run(Start(rows, t0), events, cfg);
    StartInv(rows, t0);
    RunKeepsInv(Start(rows, t0), rows, events, cfg);
    FlushSettles(p, cfg);
    RunKeepsInv(p, rows, WholeFlush(), cfg);
    hide Run;
    var q := Run(p, WholeFlush(), cfg);
    forall k ensures k in q.rows <==> k in q.reg.links
      ensures k in q.rows ==> Holds(q.rows[k], q.reg.links[k], q.ordered)
                              && q.rows[k].link.packetCount == Base(rows, k) + Counted(p, k)
    {
      SettledIsShown(q, rows, k);
      if k in q.reg.links { ShownHolds(q, k, q.clock); }
    }
  }

  /** A crash at any point leaves tables that the next start can work from. */
  lemma CrashIsRecoverable(rows: Rows, t0: int, events: seq<Event>, cfg: Config)
    requires 0 < t0 && RowsOk(rows, t0)
    ensures var p := Run(Start(rows, t0), events, cfg); 0 < p.clock && RowsOk(p.rows, p.clock)
  {
    StartInv(rows, t0);
    RunKeepsInv(Start(rows, t0), rows, events, cfg);
  }

  /** No row is written before the restore is finished. */
  lemma NothingWrittenBeforeRestore(rows: Rows, t0: int, events: seq<Event>, cfg: Config)
    requires 0 < t0 && RowsOk(rows, t0)
    ensures var p := Run(Start(rows, t0), events, cfg); p.restoring != Done ==> p.rows == rows
  {
    StartInv(rows, t0);
    RunKeepsInv(Start(rows, t0), rows, events, cfg);
  }

  /** Once the restore is finished, every link of memory and every row of disk is accounted
      for: each link is dirty, on its way to disk, or held by its row field by field, and each
      row has its link. A link's count is what was persisted before the start and what was counted since,
      and so is its row's once it is flushed. */
  lemma NothingIsLost(rows: Rows, t0: int, events: seq<Event>, cfg: Config, k: LinkKey)
    requires 0 < t0 && RowsOk(rows, t0)
    ensures var p := Run(Start(rows, t0), events, cfg);
            p.restoring == Done ==>
              && p.rows.Keys <= p.reg.links.Keys
              && (k in p.reg.links ==>
                    && p.reg.links[k].packetCount == Base(rows, k) + Counted(p, k)
                    && (p.reg.links[k].dirty || k in Batch(p) ||
                        (k in p.rows &&
                         var row, rec := p.rows[k], p.reg.links[k];
                         && row.link.(networks := rec.networks, dirty := rec.dirty, lastSeen := rec.lastSeen) == rec
                         && rec.lastSeen <= row.link.lastSeen && (p.ordered ==> row.link.lastSeen == rec.lastSeen)
                         && NetsHeld(row.nets, rec.networks, p.ordered)
                         && row.link.packetCount == Base(rows, k) + Counted(p, k))))
              && (k !in p.reg.links ==> Base(rows, k) + Counted(p, k) == 0)
  {
    StartInv(rows, t0);
    RunKeepsInv(Start(rows, t0), rows, events, cfg);
    var p := Run(Start(rows, t0), events, cfg);
    hide Inv, RecOk, RowOf, Extends, Shows, RowOk, LoadOf, CopyInv, NetsHeld;
    InvAt(p, rows, k);
    if k in p.reg.links && Shown(p, k) { ShownHolds(p, k, p.clock); }
    if p.restoring == Done {
      forall x | x in p.rows ensures x in p.reg.links {
        InvAt(p, rows, x);
      }
    }
  }

  /** Observations that come in order keep the rows exact. */
  lemma {:induction false} OrderedRuns(p: Process, events: seq<Event>, cfg: Config)
    ensures Run(p, events, cfg).ordered <==> p.ordered && InOrder(p, events, cfg)
  {
    if events != [] {
      OrderedRuns(p, events[..|events| - 1], cfg);
      StepOrder(Run(p, events[..|events| - 1], cfg), events[|events| - 1], cfg);
    }
  }

  /** No observation of the run has an earlier time than the clock shows. */
  ghost predicate InOrder(p: Process, events: seq<Event>, cfg: Config) {
    events != [] ==>
      var before, e := Run(p, events[..|events| - 1], cfg), events[|events| - 1];
      InOrder(p, events[..|events| - 1], cfg) && (e.Observe? && Enabled(before, e) ==> before.clock <= e.o.now)
  }

  lemma StepOrder(p: Process, e: Event, cfg: Config)
    ensures Step(p, e, cfg).ordered
            <==> p.ordered && (e.Observe? && Enabled(p, e) ==> p.clock <= e.o.now)
  {
  }
}
