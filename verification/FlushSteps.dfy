/** The flush, its failures and its retries keep every link accounted for. */
module FlushSteps {
  import opened Keys
  import opened LinkModel
  import opened LinkStores
  import opened LinkHistories
  import opened Durability
  import LinkRuns

  lemma FlushStartKeepsInv(p: Process, base: Rows, cfg: Config)
    requires Inv(p, base) && Enabled(p, FlushStart)
    ensures Inv(Next(p, FlushStart, cfg), base)
  {
    hide LinkInv, CopyInv, LinkRuns.EventsHaveLinks, RowsOk;
    Framed(p, Next(p, FlushStart, cfg), base, {});
  }

  lemma TakenLink(p: Process, base: Rows, k: LinkKey)
    requires Inv(p, base) && Enabled(p, Take) && k in DirtyIn(p.reg, p.flushing.next)
    ensures LinkInv(Taken(p), base, k) && CopyInv(Taken(p), k, p.reg.links[k])
  {
    hide Inv, RecOk, RowOf, RowOk, LoadOf, Extends, Shows, TakeShard;
    var q, rec := Taken(p), p.reg.links[k];
    InvAt(p, base, k);
    TakenFlag(p.reg, p.flushing.next, k);
    FlagIsNotSaved(k, rec, p.clock, false);
    ShowsItself(RowOf(rec), p.ordered);
  }

  lemma TakenFlag(st: State, shard: nat, k: LinkKey)
    requires k in DirtyIn(st, shard)
    ensures k in TakeShard(st, shard).links && TakeShard(st, shard).links[k] == st.links[k].(dirty := false)
  {
    hide ShardOf;
  }

  /** The dirty flag is no part of a row. */
  lemma FlagIsNotSaved(k: LinkKey, rec: Rec, clock: int, dirty: bool)
    ensures RowOf(rec.(dirty := dirty)) == RowOf(rec)
    ensures RecOk(k, rec, clock) ==> RecOk(k, rec.(dirty := dirty), clock)
  {
    hide IsCanonical, HexOf, DistinctIds, ById;
  }

  lemma TakeKeepsInv(p: Process, base: Rows, cfg: Config)
    requires Inv(p, base) && Enabled(p, Take)
    ensures Inv(Taken(p), base)
  {
    hide LinkInv, CopyInv, LinkRuns.EventsHaveLinks, RowsOk;
    var q, dirty := Taken(p), DirtyIn(p.reg, p.flushing.next);
    LinkRuns.StepKeepsEventsHaveLinks(p.reg, LinkRuns.Take(p.flushing.next), cfg);
    forall k | k in dirty ensures LinkInv(q, base, k) && CopyInv(q, k, Batch(q)[k]) {
      TakenLink(p, base, k);
    }
    Framed(p, q, base, dirty);
  }

  lemma TakeDoneKeepsInv(p: Process, base: Rows, cfg: Config)
    requires Inv(p, base) && Enabled(p, TakeDone)
    ensures Inv(Next(p, TakeDone, cfg), base)
  {
    hide LinkInv, CopyInv, LinkRuns.EventsHaveLinks, RowsOk;
    Framed(p, Next(p, TakeDone, cfg), base, {});
  }

  /** Once saved, a copy is its row; its record is shown by that row or dirty again. */
  lemma CommittedLink(p: Process, base: Rows, k: LinkKey, cfg: Config)
    requires Inv(p, base) && Enabled(p, Commit) && k in Batch(p)
    ensures var q := Next(p, Commit, cfg);
            LinkInv(q, base, k) && Shows(q.rows[k], RowOf(Batch(p)[k]), q.ordered) && RowOk(k, q.rows[k], q.clock)
  {
    hide Inv, RecOk, RowOf, RowOk, LoadOf, Extends, Shows, Upsert;
    var q, copy := Next(p, Commit, cfg), Batch(p)[k];
    InvAt(p, base, k);
    CopySaved(p, k, copy);
    SavedRowOk(p.rows, k, copy, p.clock);
    FlagIsNotSaved(k, copy, p.clock, false);
    ExtendsShown(RowOf(p.reg.links[k]), RowOf(copy), q.rows[k], p.ordered);
  }

  lemma CopySaved(p: Process, k: LinkKey, copy: Rec)
    requires CopyInv(p, k, copy)
    ensures Shows(Upsert(p.rows, k, copy), RowOf(copy), p.ordered)
  {
    hide RowOf, Extends, IsCanonical, Shows;
    SavedIsRecord(p.rows, k, copy, p.ordered);
  }

  lemma CommitKeepsInv(p: Process, base: Rows, cfg: Config)
    requires Inv(p, base) && Enabled(p, Commit)
    ensures Inv(Next(p, Commit, cfg), base)
  {
    hide LinkInv, CopyInv, LinkRuns.EventsHaveLinks, RowOk, Upsert;
    var q := Next(p, Commit, cfg);
    forall k | k in Batch(p) ensures LinkInv(q, base, k) && RowOk(k, q.rows[k], q.clock) {
      CommittedLink(p, base, k, cfg);
    }
    Framed(p, q, base, Batch(p).Keys);
  }

  lemma FailKeepsInv(p: Process, base: Rows, cfg: Config)
    requires Inv(p, base) && Enabled(p, Fail)
    ensures Inv(Next(p, Fail, cfg), base)
  {
    hide LinkInv, CopyInv, LinkRuns.EventsHaveLinks, RowsOk;
    Framed(p, Next(p, Fail, cfg), base, {});
  }

  lemma RequeuedLink(p: Process, base: Rows, k: LinkKey)
    requires Inv(p, base) && Enabled(p, RequeueOne(k))
    ensures LinkInv(Requeued(p, k), base, k)
  {
    hide Inv, RecOk, RowOf, RowOk, LoadOf, Extends, Shows;
    var q := Requeued(p, k);
    InvAt(p, base, k);
    assert q.reg.links[k] == p.reg.links[k].(dirty := true);
    FlagIsNotSaved(k, p.reg.links[k], p.clock, true);
  }

  lemma RequeueKeepsInv(p: Process, base: Rows, k: LinkKey, cfg: Config)
    requires Inv(p, base) && Enabled(p, RequeueOne(k))
    ensures Inv(Requeued(p, k), base)
  {
    hide LinkInv, CopyInv, LinkRuns.EventsHaveLinks, RowsOk;
    var q := Requeued(p, k);
    LinkRuns.StepKeepsEventsHaveLinks(p.reg, LinkRuns.Requeue(k), cfg);
    RequeuedLink(p, base, k);
    Framed(p, q, base, {k});
  }

  lemma RequeueDoneKeepsInv(p: Process, base: Rows, cfg: Config)
    requires Inv(p, base) && Enabled(p, RequeueDone)
    ensures Inv(Next(p, RequeueDone, cfg), base)
  {
    hide LinkInv, CopyInv, LinkRuns.EventsHaveLinks, RowsOk;
    Framed(p, Next(p, RequeueDone, cfg), base, {});
  }
}
