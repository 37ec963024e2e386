/** The background restore keeps every link accounted for. */
module RestoreSteps {
  import opened Keys
  import opened LinkModel
  import opened LinkStores
  import opened LinkHistories
  import opened Durability
  import LinkRuns

  lemma LoadKeepsInv(p: Process, base: Rows, recs: map<LinkKey, Rec>, cfg: Config)
    requires Inv(p, base) && Enabled(p, Load(recs))
    ensures Inv(Next(p, Load(recs), cfg), base)
  {
    hide CopyInv, LinkRuns.EventsHaveLinks, RowsOk, RecOk, RowOf, Extends, LoadOf;
    var q := Next(p, Load(recs), cfg);
    forall k ensures LinkInv(q, base, k) {
      assert LinkInv(p, base, k);
    }
  }

  lemma RestoreEffect(st: State, rec: Rec, k: LinkKey, cfg: Config)
    requires KeyFromPair(rec.nodeA, rec.nodeB) == Some(k)
    ensures var r := Canonical(rec, k);
            RestoreLink(st, rec, cfg)
            == st.(links := st.links[k := if k in st.links then MergeRestored(st.links[k], r, cfg) else r])
  {
    hide MergeRestored, Canonical;
  }

  lemma RestoredRecord(p: Process, base: Rows, k: LinkKey, cfg: Config)
    requires Inv(p, base) && Enabled(p, RestoreOne(k))
    ensures k in p.rows && k in base && base[k] == p.rows[k]
    ensures var r := Canonical(p.restoring.todo[k], k);
            && RowOf(r) == p.rows[k] && RecOk(k, r, p.clock)
            && (k in p.reg.links ==>
                  var m := MergeRestored(p.reg.links[k], r, cfg);
                  && RecOk(k, m, p.clock) && Extends(RowOf(m), p.rows[k], true)
                  && m.packetCount == p.reg.links[k].packetCount + r.packetCount && m.dirty == p.reg.links[k].dirty)
  {
    hide Inv, CopyInv, RowOk, LoadOf, RecOk, RowOf, Extends, MergeRestored, Canonical;
    InvAt(p, base, k);
    LoadedIsRow(k, p.rows[k], p.restoring.todo[k], p.clock);
    if k in p.reg.links {
      MergedOk(k, p.reg.links[k], Canonical(p.restoring.todo[k], k), cfg, p.clock);
    }
  }

  lemma RowCount(rec: Rec)
    ensures RowOf(rec).link.packetCount == rec.packetCount
  {
  }

  /** Merging a persisted link into a live one relies on the live one being dirty already:
      the merge itself does not mark it. */
  lemma RestoredLink(p: Process, base: Rows, k: LinkKey, cfg: Config)
    requires Inv(p, base) && Enabled(p, RestoreOne(k))
    ensures LinkInv(Restored(p, k, cfg), base, k)
  {
    hide Inv, CopyInv, RowOk, LoadOf, RecOk, RowOf, Extends, Shows, MergeRestored, Canonical, RestoreLink;
    InvAt(p, base, k);
    RestoredRecord(p, base, k, cfg);
    LoadedKey(p, base, k);
    RestoreEffect(p.reg, p.restoring.todo[k], k, cfg);
    ShowsItself(p.rows[k], p.ordered);
    if k in p.reg.links {
      var m := MergeRestored(p.reg.links[k], Canonical(p.restoring.todo[k], k), cfg);
      ExtendsWeaker(RowOf(m), p.rows[k], true, p.ordered);
    }
    RowCount(Canonical(p.restoring.todo[k], k));
  }

  lemma LoadedKey(p: Process, base: Rows, k: LinkKey)
    requires Inv(p, base) && Enabled(p, RestoreOne(k))
    ensures KeyFromPair(p.restoring.todo[k].nodeA, p.restoring.todo[k].nodeB) == Some(k)
  {
    InvAt(p, base, k);
  }

  lemma RestoreKeepsInv(p: Process, base: Rows, k: LinkKey, cfg: Config)
    requires Inv(p, base) && Enabled(p, RestoreOne(k))
    ensures Inv(Restored(p, k, cfg), base)
  {
    hide LinkInv, CopyInv, LinkRuns.EventsHaveLinks, RowsOk, MergeRestored, Canonical, LoadOf, RestoreLink;
    var rec, q := p.restoring.todo[k], Restored(p, k, cfg);
    LinkRuns.StepKeepsEventsHaveLinks(p.reg, LinkRuns.Restore(rec), cfg);
    LoadedKey(p, base, k);
    RestoreEffect(p.reg, rec, k, cfg);
    RestoredLink(p, base, k, cfg);
    assert LoadOfAll(p.rows, q.restoring.todo);
    Framed(p, q, base, {k});
  }

  lemma RestoreDoneKeepsInv(p: Process, base: Rows, cfg: Config)
    requires Inv(p, base) && Enabled(p, RestoreDone)
    ensures Inv(Next(p, RestoreDone, cfg), base)
  {
    hide LinkInv, CopyInv, LinkRuns.EventsHaveLinks, RowsOk;
    Framed(p, Next(p, RestoreDone, cfg), base, {});
  }
}
