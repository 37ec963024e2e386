/** Observations and sweeps keep every link accounted for. */
module LiveSteps {
  import opened Keys
  import opened LinkModel
  import opened LinkStores
  import opened LinkHistories
  import opened Durability
  import LinkRuns

  lemma ObservedRecord(p: Process, base: Rows, o: Obs, cfg: Config)
    requires Inv(p, base) && Enabled(p, Observe(o))
    ensures var k, q := o.key, Observed(p, o, cfg);
            && k in q.reg.links && RecOk(k, q.reg.links[k], q.clock)
            && q.reg.links[k].packetCount
               == RecordOf(p.reg, o).packetCount + (if CountsGlobally(p.reg, o) then 1 else 0)
            && (k in p.reg.links ==>
                  && Extends(RowOf(q.reg.links[k]), RowOf(p.reg.links[k]), p.clock <= o.now)
                  && (q.reg.links[k] == p.reg.links[k] || q.reg.links[k].dirty)
                  && (p.reg.links[k].dirty ==> q.reg.links[k].dirty))
            && (k !in p.reg.links ==> q.reg.links[k].dirty && CountsGlobally(p.reg, o))
  {
    hide Inv, CopyInv, RowOk, LoadOf, RecOk, RowOf, Extends, ObservedRec, NewRec;
    var k, rec := o.key, RecordOf(p.reg, o);
    InvAt(p, base, k);
    NewRecOk(o, p.clock);
    ObservedOk(k, rec, o, CountsForNetwork(p.reg, o), CountsGlobally(p.reg, o), cfg, p.clock);
  }

  lemma ObservedLink(p: Process, base: Rows, o: Obs, cfg: Config)
    requires Inv(p, base) && Enabled(p, Observe(o))
    ensures LinkInv(Observed(p, o, cfg), base, o.key)
  {
    hide Inv, CopyInv, RowOk, LoadOf, RecOk, RowOf, Extends, Shows, ObserveLink, CountsGlobally, NewRec;
    var k, q := o.key, Observed(p, o, cfg);
    InvAt(p, base, k);
    ObservedRecord(p, base, o, cfg);
    NewRecUncounted(o);
    if k in p.reg.links {
      var rec := p.reg.links[k];
      if k in p.rows && Merged(p, k) {
        ExtendsWeaker(RowOf(q.reg.links[k]), RowOf(rec), p.clock <= o.now, q.ordered);
        ExtendsWeaker(RowOf(rec), p.rows[k], p.ordered, q.ordered);
        ExtendsTransitive(RowOf(q.reg.links[k]), RowOf(rec), p.rows[k], q.ordered);
      }
      if Shown(p, k) { ShowsWeaker(p.rows[k], RowOf(rec), p.ordered, q.ordered); }
    }
  }

  lemma NewRecUncounted(o: Obs)
    ensures NewRec(o).packetCount == 0
  {
  }

  lemma ObservedCopy(p: Process, base: Rows, o: Obs, cfg: Config)
    requires Inv(p, base) && Enabled(p, Observe(o)) && o.key in Batch(p)
    ensures CopyInv(Observed(p, o, cfg), o.key, Batch(p)[o.key])
  {
    hide Inv, LinkInv, RowOk, LoadOf, RecOk, RowOf, Extends, ObserveLink, CountsGlobally;
    var k, q := o.key, Observed(p, o, cfg);
    var copy := Batch(p)[k];
    InvAt(p, base, k);
    ObservedRecord(p, base, o, cfg);
    ExtendsWeaker(RowOf(q.reg.links[k]), RowOf(p.reg.links[k]), p.clock <= o.now, q.ordered);
    ExtendsWeaker(RowOf(p.reg.links[k]), RowOf(copy), p.ordered, q.ordered);
    ExtendsTransitive(RowOf(q.reg.links[k]), RowOf(p.reg.links[k]), RowOf(copy), q.ordered);
    if k in p.rows { ExtendsWeaker(RowOf(copy), p.rows[k], p.ordered, q.ordered); }
    RecOkLater(k, copy, p.clock, q.clock);
  }

  lemma OthersUnobserved(p: Process, o: Obs, cfg: Config)
    ensures forall k {:trigger SameLink(p, Observed(p, o, cfg), k)} :: k != o.key ==>
            SameLink(p, Observed(p, o, cfg), k)
  {
    hide ObservedRec, CountsGlobally;
  }

  lemma ObserveKeepsInv(p: Process, base: Rows, o: Obs, cfg: Config)
    requires Inv(p, base) && Enabled(p, Observe(o))
    ensures Inv(Observed(p, o, cfg), base)
  {
    hide LinkInv, CopyInv, LinkRuns.EventsHaveLinks, RowsOk, ObservedRec, CountsGlobally;
    var q := Observed(p, o, cfg);
    LinkRuns.StepKeepsEventsHaveLinks(p.reg, LinkRuns.Observe(o), cfg);
    RowsOkLater(p.rows, p.clock, q.clock);
    ObservedLink(p, base, o, cfg);
    if o.key in Batch(p) { ObservedCopy(p, base, o, cfg); }
    OthersUnobserved(p, o, cfg);
    Framed(p, q, base, {o.key});
  }

  lemma SweepKeepsInv(p: Process, base: Rows, shard: nat, now: int, window: int, cfg: Config)
    requires Inv(p, base) && Enabled(p, Sweep(shard, now, window))
    ensures Inv(Next(p, Sweep(shard, now, window), cfg), base)
  {
    hide LinkInv, CopyInv, LinkRuns.EventsHaveLinks, RowsOk;
    var q := Next(p, Sweep(shard, now, window), cfg);
    LinkRuns.StepKeepsEventsHaveLinks(p.reg, LinkRuns.Sweep(shard, now, window), cfg);
    Framed(p, q, base, {});
  }
}
