/** What a link's record says about its counted events, read off the events alone. */
module LinkTraces {
  import opened Keys
  import opened LinkModel
  import opened LinkRuns
  import opened LinkGeometry

  function LastFive(s: seq<real>): seq<real> {
    if |s| <= 5 then s else s[|s| - 5..]
  }

  /** The events that went from the canonical A end, or from the B end. */
  function Directed(events: seq<Obs>, fromA: bool): seq<Obs> {
    if events == [] then []
    else
      var last := events[|events| - 1];
      Directed(events[..|events| - 1], fromA) + if last.fromIsA == fromA then [last] else []
  }

  /** The SNRs they carried. */
  function Snrs(events: seq<Obs>): seq<real> {
    if events == [] then []
    else
      var last := events[|events| - 1];
      Snrs(events[..|events| - 1]) + if last.snr.Some? then [last.snr.value] else []
  }

  function LastHash(events: seq<Obs>): string {
    if events == [] then "" else events[|events| - 1].hash
  }

  /** How many events came in by a route type. */
  function FromSource(events: seq<Obs>, source: string): nat {
    if events == [] then 0
    else FromSource(events[..|events| - 1], source) + if SourceOf(events[|events| - 1]) == source then 1 else 0
  }

  function LowConfidence(events: seq<Obs>): nat {
    if events == [] then 0
    else LowConfidence(events[..|events| - 1]) + if events[|events| - 1].lowConf then 1 else 0
  }

  /** The record is the summary of these events. */
  ghost predicate Summarizes(rec: Rec, events: seq<Obs>)
    requires events != []
  {
    && rec.packetCount == |events| && rec.lowConf == LowConfidence(events)
    && rec.firstSeen == events[0].now && rec.lastSeen == events[|events| - 1].now
    && rec.dirAB == |Directed(events, true)| && rec.dirBA == |Directed(events, false)|
    && rec.lastHashAB == LastHash(Directed(events, true)) && rec.lastHashBA == LastHash(Directed(events, false))
    && rec.snrsAB == LastFive(Snrs(Directed(events, true))) && rec.snrsBA == LastFive(Snrs(Directed(events, false)))
    && SourcesMatch(rec.sources, events)
  }

  ghost predicate SourcesMatch(sources: map<string, nat>, events: seq<Obs>) {
    forall s {:trigger FromSource(events, s)} ::
      FromSource(events, s) == if s in sources then sources[s] else 0
  }

  lemma LastFiveSnoc(s: seq<real>, v: real)
    ensures AppendCapped(LastFive(s), v) == LastFive(s + [v])
  {
  }

  lemma DirectedSnoc(events: seq<Obs>, o: Obs, fromA: bool)
    ensures Directed(events + [o], fromA) == Directed(events, fromA) + if o.fromIsA == fromA then [o] else []
  {
    assert (events + [o])[..|events|] == events;
  }

  lemma SnrsSnoc(events: seq<Obs>, o: Obs)
    ensures Snrs(events + [o]) == Snrs(events) + if o.snr.Some? then [o.snr.value] else []
  {
    assert (events + [o])[..|events|] == events;
  }

  lemma SourcesSnoc(sources: map<string, nat>, events: seq<Obs>, o: Obs)
    requires SourcesMatch(sources, events)
    ensures SourcesMatch(Bump(sources, SourceOf(o), 1), events + [o])
  {
    assert (events + [o])[..|events|] == events;
    forall s ensures FromSource(events + [o], s) == var m := Bump(sources, SourceOf(o), 1); if s in m then m[s] else 0 {
      assert FromSource(events, s) == if s in sources then sources[s] else 0;
    }
  }

  /** The direction-dependent part of a record after one more event in direction `fromA`. */
  lemma TraceSnoc(events: seq<Obs>, o: Obs)
    ensures var d, d' := Directed(events, o.fromIsA), Directed(events + [o], o.fromIsA);
            && |d'| == |d| + 1 && LastHash(d') == o.hash
            && LastFive(Snrs(d'))
               == if o.snr.Some? then AppendCapped(LastFive(Snrs(d)), o.snr.value) else LastFive(Snrs(d))
    ensures Directed(events + [o], !o.fromIsA) == Directed(events, !o.fromIsA)
  {
    hide Directed, Snrs, LastFive, AppendCapped;
    DirectedSnoc(events, o, o.fromIsA);
    DirectedSnoc(events, o, !o.fromIsA);
    var d := Directed(events, o.fromIsA);
    SnrsSnoc(d, o);
    assert Snrs(d) + [] == Snrs(d);
    if o.snr.Some? { LastFiveSnoc(Snrs(d), o.snr.value); }
  }

  lemma LowConfidenceSnoc(events: seq<Obs>, o: Obs)
    ensures LowConfidence(events + [o]) == LowConfidence(events) + if o.lowConf then 1 else 0
  {
    assert (events + [o])[..|events|] == events;
  }

  lemma CountKeepsSummary(rec: Rec, events: seq<Obs>, o: Obs, cfg: Config)
    requires events != [] && Summarizes(rec, events)
    ensures Summarizes(CountEvent(rec, o, cfg), events + [o])
  {
    hide CountEvent, Directed, Snrs, FromSource, SourcesMatch, AppendCapped, LastFive, Bump, LowConfidence, LastHash;
    CountedFields(rec, o, cfg);
    TraceSnoc(events, o);
    SourcesSnoc(rec.sources, events, o);
    LowConfidenceSnoc(events, o);
  }

  lemma FirstEventSummary(o: Obs, cfg: Config)
    ensures Summarizes(CountEvent(NewRec(o), o, cfg), [o])
  {
    hide CountEvent, FromSource, SourcesMatch, AppendCapped, Bump;
    CountedFields(NewRec(o), o, cfg);
    TraceSnoc([], o);
    NothingSeen();
    SourcesSnoc(map[], [], o);
    LowConfidenceSnoc([], o);
    assert [] + [o] == [o];
  }

  lemma NothingSeen()
    ensures SourcesMatch(map[], [])
  {
  }

  lemma {:induction false} ReplaySummarizes(k: LinkKey, events: seq<Obs>, cfg: Config)
    requires events != []
    ensures Summarizes(Replay(k, events, cfg), events)
  {
    var init, o := events[..|events| - 1], events[|events| - 1];
    assert events == init + [o];
    hide CountEvent, Summarizes;
    if init == [] {
      FirstEventSummary(o, cfg);
    } else {
      ReplaySummarizes(k, init, cfg);
      CountKeepsSummary(Replay(k, init, cfg), init, o, cfg);
    }
  }

  lemma SameSummary(x: Rec, y: Rec, events: seq<Obs>)
    requires events != [] && SameStory(x, y) && Summarizes(y, events)
    ensures Summarizes(x, events)
  {
    hide Directed, Snrs, FromSource, SourcesMatch, LastFive, LowConfidence, LastHash;
  }

  /** Over any run, a record that was never restored is the exact summary of its counted
      events: how many, when, by which routes, and per direction the last hash and the last
      five SNRs. */
  lemma RecordSummarizesEvents(ops: seq<Op>, k: LinkKey, cfg: Config)
    requires NeverRestored(ops, k) && k in Run(EMPTY, ops, cfg).links
    ensures var events := CountedEvents(ops, k, cfg);
            events != [] && Summarizes(Run(EMPTY, ops, cfg).links[k], events)
  {
    hide Summarizes, SameStory;
    var events := CountedEvents(ops, k, cfg);
    RecordIsReplay(ops, k, cfg);
    ReplaySummarizes(k, events, cfg);
    SameSummary(Run(EMPTY, ops, cfg).links[k], Replay(k, events, cfg), events);
  }

  /** Read off the log alone: the observations of link `k` whose event the log before them
      does not remember. */
  ghost function NewEvents(ops: seq<Op>, k: LinkKey): nat {
    if ops == [] then 0
    else
      var init, last := ops[..|ops| - 1], ops[|ops| - 1];
      NewEvents(init, k) + if last.Observe? && last.o.key == k && !Remembered(init, EventOf(last.o)) then 1 else 0
  }

  lemma {:induction false} CountedEventsAreNew(ops: seq<Op>, k: LinkKey, cfg: Config)
    ensures |CountedEvents(ops, k, cfg)| == NewEvents(ops, k)
  {
    if ops != [] {
      var init, last := ops[..|ops| - 1], ops[|ops| - 1];
      CountedEventsAreNew(init, k, cfg);
      if last.Observe? { TableIsLog(init, cfg, EventOf(last.o)); }
      hide Run, Remembered;
    }
  }

  /** The packet count of a link that was never restored equals the count computed from the
      log, whatever the clock does; a link without such events is not stored. */
  lemma PacketCountIsLogCount(ops: seq<Op>, k: LinkKey, cfg: Config)
    requires NeverRestored(ops, k)
    ensures var links := Run(EMPTY, ops, cfg).links;
            NewEvents(ops, k) == if k in links then links[k].packetCount else 0
  {
    hide CountedEvents, NewEvents, SameStory, Directed, Snrs, LastFive, SourcesMatch;
    CountedEventsAreNew(ops, k, cfg);
    RecordIsReplay(ops, k, cfg);
    if k in Run(EMPTY, ops, cfg).links { RecordSummarizesEvents(ops, k, cfg); }
  }

  lemma {:induction false} CappedAllIsLastFive(s: seq<real>, add: seq<real>)
    ensures AppendCappedAll(LastFive(s), add) == LastFive(s + add)
    decreases add
  {
    if add == [] {
      assert s + add == s;
    } else {
      LastFiveSnoc(s, add[0]);
      CappedAllIsLastFive(s + [add[0]], add[1..]);
      assert s + [add[0]] + add[1..] == s + add;
    }
  }

  /** Two SNR histories merge into the last five of both, the newer record's after the older's. */
  lemma MergedSnrsAreLastFive(live: seq<real>, restored: seq<real>, restoredNewer: bool)
    requires |live| <= SNR_HISTORY_LIMIT
    ensures MergeSnrs(live, restored, restoredNewer)
            == LastFive(if restoredNewer then live + restored else restored + live)
  {
    if restoredNewer { CappedAllIsLastFive(live, restored); }
  }
}
