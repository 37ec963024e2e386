/** The life of the links between memory and disk: the background restore, live ingest, the
    gated flush with its failures and retries. One event is one locked section or one
    transaction, so a run of events is any interleaving of the goroutines. */
module Durability {
  import opened Keys
  import opened LinkModel
  import opened LinkStores
  import opened LinkHistories
  import LinkRuns

  /** The restore goroutine: what is still to be merged, once the tables are read. */
  datatype Restoring = NotStarted | Pending(todo: map<LinkKey, Rec>) | Done

  /** The flush loop: taking the dirty records shard by shard, saving them, or marking
      them dirty again after a failed save. */
  datatype Flushing =
    | Idle
    | Taking(next: nat, batch: map<LinkKey, Rec>)
    | Saving(batch: map<LinkKey, Rec>)
    | Requeueing(batch: map<LinkKey, Rec>)

  /** `clock` is the latest time of an observation so far, `ordered` tells whether none has
      come with an earlier one, and `counted` is the number of events counted live on each
      link since the start. */
  datatype Process = Process(reg: State, rows: Rows, restoring: Restoring, flushing: Flushing, clock: int,
                             ordered: bool, counted: map<LinkKey, nat>)

  datatype Event =
    | Observe(o: Obs)
    | Sweep(shard: nat, now: int, window: int)
    | Load(recs: map<LinkKey, Rec>)
    | RestoreOne(key: LinkKey)
    | RestoreDone
    | FlushStart
    | Take
    | TakeDone
    | Commit
    | Fail
    | RequeueOne(key: LinkKey)
    | RequeueDone

  function Start(rows: Rows, clock: int): Process {
    Process(LinkRuns.EMPTY, rows, NotStarted, Idle, clock, true, map[])
  }

  ghost predicate LoadOfAll(rows: Rows, recs: map<LinkKey, Rec>) {
    recs.Keys <= rows.Keys && forall k {:trigger recs[k]} :: k in recs ==> LoadOf(k, rows[k], recs[k])
  }

  /** When an event can happen. A flush starts only once the restore is done. */
  ghost predicate Enabled(p: Process, e: Event) {
    match e
    case Observe(o) => IsCanonical(o.key) && 0 < o.now
    case Sweep(_, _, _) => true
    case Load(recs) => p.restoring == NotStarted && recs.Keys == p.rows.Keys && LoadOfAll(p.rows, recs)
    case RestoreOne(k) => p.restoring.Pending? && k in p.restoring.todo
    case RestoreDone => p.restoring.Pending? && p.restoring.todo == map[]
    case FlushStart => p.restoring == Done && p.flushing == Idle
    case Take => p.flushing.Taking? && p.flushing.next < LINK_SHARDS
    case TakeDone => p.flushing.Taking? && p.flushing.next == LINK_SHARDS
    case Commit => p.flushing.Saving?
    case Fail => p.flushing.Saving?
    case RequeueOne(k) => p.flushing.Requeueing? && k in p.flushing.batch
    case RequeueDone => p.flushing.Requeueing? && p.flushing.batch == map[]
  }

  function Counted(p: Process, k: LinkKey): nat {
    if k in p.counted then p.counted[k] else 0
  }

  function Observed(p: Process, o: Obs, cfg: Config): Process {
    p.(reg := ObserveLink(p.reg, o, cfg), clock := Later(p.clock, o.now), ordered := p.ordered && p.clock <= o.now,
       counted := if CountsGlobally(p.reg, o) then p.counted[o.key := Counted(p, o.key) + 1] else p.counted)
  }

  function Restored(p: Process, k: LinkKey, cfg: Config): Process
    requires p.restoring.Pending? && k in p.restoring.todo
  {
    p.(reg := RestoreLink(p.reg, p.restoring.todo[k], cfg), restoring := Pending(p.restoring.todo - {k}))
  }

  function Taken(p: Process): Process
    requires p.flushing.Taking?
  {
    var copies := map k | k in DirtyIn(p.reg, p.flushing.next) :: p.reg.links[k];
    p.(reg := TakeShard(p.reg, p.flushing.next), flushing := Taking(p.flushing.next + 1, p.flushing.batch + copies))
  }

  function Requeued(p: Process, k: LinkKey): Process
    requires p.flushing.Requeueing?
  {
    p.(reg := RequeueLink(p.reg, k), flushing := Requeueing(p.flushing.batch - {k}))
  }

  function Next(p: Process, e: Event, cfg: Config): Process
    requires Enabled(p, e)
  {
    match e
    case Observe(o) => Observed(p, o, cfg)
    case Sweep(shard, now, window) => p.(reg := SweepShard(p.reg, shard, now, window))
    case Load(recs) => p.(restoring := Pending(recs))
    case RestoreOne(k) => Restored(p, k, cfg)
    case RestoreDone => p.(restoring := Done)
    case FlushStart => p.(flushing := Taking(0, map[]))
    case Take => Taken(p)
    case TakeDone => p.(flushing := if p.flushing.batch == map[] then Idle else Saving(p.flushing.batch))
    case Commit => p.(rows := Saved(p.rows, p.flushing.batch), flushing := Idle)
    case Fail => p.(flushing := Requeueing(p.flushing.batch))
    case RequeueOne(k) => Requeued(p, k)
    case RequeueDone => p.(flushing := Idle)
  }

  /** An event that cannot happen leaves everything as it is. */
  ghost function Step(p: Process, e: Event, cfg: Config): Process {
    if Enabled(p, e) then Next(p, e, cfg) else p
  }

  ghost function Run(p: Process, events: seq<Event>, cfg: Config): Process {
    if events == [] then p else Step(Run(p, events[..|events| - 1], cfg), events[|events| - 1], cfg)
  }

  // ---------------------------------------------------------------- the invariant

  /** The link's persisted history, if any, is already in memory. */
  predicate Merged(p: Process, k: LinkKey) {
    p.restoring.Done? || (p.restoring.Pending? && k !in p.restoring.todo)
  }

  function Batch(p: Process): map<LinkKey, Rec> {
    if p.flushing.Idle? then map[] else p.flushing.batch
  }

  /** The packets the link had when the process started. */
  function Base(base: Rows, k: LinkKey): nat {
    if k in base then base[k].link.packetCount else 0
  }

  /** The link's durable row shows its record. */
  ghost predicate Shown(p: Process, k: LinkKey)
    requires k in p.reg.links
  {
    k in p.rows && Shows(p.rows[k], RowOf(p.reg.links[k]), p.ordered)
  }

  ghost predicate LinkInv(p: Process, base: Rows, k: LinkKey) {
    if k in p.reg.links then
      var rec := p.reg.links[k];
      && RecOk(k, rec, p.clock)
      && rec.packetCount == Counted(p, k) + (if Merged(p, k) then Base(base, k) else 0)
      && (rec.dirty || k in Batch(p) || (Merged(p, k) && Shown(p, k)))
      && (Merged(p, k) && k in p.rows ==> Extends(RowOf(rec), p.rows[k], p.ordered))
      && (!Merged(p, k) ==> rec.dirty)
    else
      Counted(p, k) == 0 && k !in Batch(p) && (Merged(p, k) ==> k !in p.rows)
  }

  /** A copy that is on its way to disk: newer than the row, no newer than the record, and
      equal to the record unless that has changed since. */
  ghost predicate CopyInv(p: Process, k: LinkKey, copy: Rec) {
    && k in p.reg.links && RecOk(k, copy, p.clock)
    && Extends(RowOf(p.reg.links[k]), RowOf(copy), p.ordered)
    && (k in p.rows ==> Extends(RowOf(copy), p.rows[k], p.ordered))
    && (p.reg.links[k].dirty || p.reg.links[k] == copy.(dirty := false))
  }

  ghost predicate PhaseInv(p: Process, base: Rows) {
    && (p.restoring != Done ==> p.rows == base && p.flushing == Idle)
    && (p.restoring.Pending? ==> LoadOfAll(p.rows, p.restoring.todo))
    && base.Keys <= p.rows.Keys
  }

  ghost predicate Inv(p: Process, base: Rows) {
    && 0 < p.clock && LinkRuns.EventsHaveLinks(p.reg) && RowsOk(p.rows, p.clock)
    && PhaseInv(p, base)
    && (forall k {:trigger LinkInv(p, base, k)} :: LinkInv(p, base, k))
    && (forall k {:trigger Batch(p)[k]} :: k in Batch(p) ==> CopyInv(p, k, Batch(p)[k]))
  }

  lemma InvAt(p: Process, base: Rows, k: LinkKey)
    requires Inv(p, base)
    ensures LinkInv(p, base, k)
    ensures k in Batch(p) ==> CopyInv(p, k, Batch(p)[k])
    ensures (k in p.rows ==> RowOk(k, p.rows[k], p.clock)) && (k in base ==> k in p.rows)
    ensures p.restoring.Pending? && k in p.restoring.todo ==>
              && k in p.rows && LoadOf(k, p.rows[k], p.restoring.todo[k]) && k in base && base[k] == p.rows[k]
              && Batch(p) == map[]
    ensures 0 < p.clock && (k !in p.reg.links ==> forall o: Obs :: o.key == k ==> CountsGlobally(p.reg, o))
    ensures !p.flushing.Idle? ==> p.restoring == Done
  {
    hide LinkInv, CopyInv, RowOk, LoadOf;
  }

  lemma StartInv(rows: Rows, clock: int)
    requires 0 < clock && RowsOk(rows, clock)
    ensures Inv(Start(rows, clock), rows)
  {
    var p := Start(rows, clock);
    forall k ensures LinkInv(p, rows, k) {
    }
  }

  lemma RecOkLater(k: LinkKey, rec: Rec, clock: int, clock': int)
    requires RecOk(k, rec, clock) && clock <= clock'
    ensures RecOk(k, rec, clock')
  {
    hide IsCanonical, ById, DistinctIds;
  }

  lemma RowsOkLater(rows: Rows, clock: int, clock': int)
    requires RowsOk(rows, clock) && clock <= clock'
    ensures RowsOk(rows, clock')
  {
    hide IsCanonical;
    forall k | k in rows ensures RowOk(k, rows[k], clock') {
      assert RowOk(k, rows[k], clock);
    }
  }

  /** Link `k` looks the same before and after an event. */
  predicate SameLink(p: Process, q: Process, k: LinkKey) {
    && (k in p.reg.links <==> k in q.reg.links)
    && (k in p.reg.links ==> p.reg.links[k] == q.reg.links[k])
    && (k in p.rows <==> k in q.rows)
    && (k in p.rows ==> p.rows[k] == q.rows[k])
    && Counted(p, k) == Counted(q, k) && (Merged(p, k) <==> Merged(q, k))
    && (k in Batch(p) <==> k in Batch(q))
    && (k in Batch(p) ==> Batch(p)[k] == Batch(q)[k])
  }

  lemma UntouchedLink(p: Process, q: Process, base: Rows, k: LinkKey)
    requires LinkInv(p, base, k) && p.clock <= q.clock && (q.ordered ==> p.ordered) && SameLink(p, q, k)
    ensures LinkInv(q, base, k)
  {
    hide RecOk, RowOf, Extends, Shows;
    if k in p.reg.links {
      var rec := p.reg.links[k];
      RecOkLater(k, rec, p.clock, q.clock);
      if Merged(p, k) && k in p.rows { ExtendsWeaker(RowOf(rec), p.rows[k], p.ordered, q.ordered); }
      if Shown(p, k) { ShowsWeaker(p.rows[k], RowOf(rec), p.ordered, q.ordered); }
    }
  }

  lemma UntouchedCopy(p: Process, q: Process, k: LinkKey, copy: Rec)
    requires CopyInv(p, k, copy) && p.clock <= q.clock && (q.ordered ==> p.ordered) && SameLink(p, q, k)
    ensures CopyInv(q, k, copy)
  {
    hide RecOk, RowOf, Extends;
    RecOkLater(k, copy, p.clock, q.clock);
    ExtendsWeaker(RowOf(p.reg.links[k]), RowOf(copy), p.ordered, q.ordered);
    if k in p.rows { ExtendsWeaker(RowOf(copy), p.rows[k], p.ordered, q.ordered); }
  }

  /** An event that touches only the links in `touched` has only those to answer for. */
  lemma Framed(p: Process, q: Process, base: Rows, touched: set<LinkKey>)
    requires Inv(p, base) && p.clock <= q.clock && (q.ordered ==> p.ordered)
    requires forall k {:trigger SameLink(p, q, k)} :: k !in touched ==> SameLink(p, q, k)
    requires forall k {:trigger LinkInv(q, base, k)} :: k in touched ==> LinkInv(q, base, k)
    requires forall k {:trigger Batch(q)[k]} :: k in touched && k in Batch(q) ==> CopyInv(q, k, Batch(q)[k])
    ensures forall k {:trigger LinkInv(q, base, k)} :: LinkInv(q, base, k)
    ensures forall k {:trigger Batch(q)[k]} :: k in Batch(q) ==> CopyInv(q, k, Batch(q)[k])
  {
    hide Inv, LinkInv, CopyInv, RowOk, LoadOf;
    forall k ensures LinkInv(q, base, k) {
      if k !in touched {
        InvAt(p, base, k);
        assert SameLink(p, q, k);
        UntouchedLink(p, q, base, k);
      }
    }
    forall k | k in Batch(q) ensures CopyInv(q, k, Batch(q)[k]) {
      if k !in touched {
        InvAt(p, base, k);
        assert SameLink(p, q, k);
        UntouchedCopy(p, q, k, Batch(p)[k]);
      }
    }
  }
}
