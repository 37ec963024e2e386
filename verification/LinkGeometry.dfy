/** The position history of a link that was never merged with a restored record. */
module LinkGeometry {
  import opened Keys
  import opened LinkModel
  import opened LinkRuns

  // ---------------------------------------------------------------- a record is its counted events

  /** The events of link `k` that a run from the empty registry counts, in order. */
  function CountedEvents(ops: seq<Op>, k: LinkKey, cfg: Config): seq<Obs> {
    if ops == [] then []
    else
      var init, last := ops[..|ops| - 1], ops[|ops| - 1];
      var rest := CountedEvents(init, k, cfg);
      var counts := last.Observe? && last.o.key == k && CountsGlobally(Run(EMPTY, init, cfg), last.o);
      if counts then rest + [last.o] else rest
  }

  /** What the counted events alone make of a record. */
  function Replay(k: LinkKey, events: seq<Obs>, cfg: Config): Rec
    requires events != []
  {
    var init, last := events[..|events| - 1], events[|events| - 1];
    CountEvent(if init == [] then NewRec(last) else Replay(k, init, cfg), last, cfg)
  }

  /** Two records tell the same story, networks and the persistence flag aside. */
  predicate SameStory(x: Rec, y: Rec) {
    y == x.(networks := y.networks, dirty := y.dirty)
  }

  ghost predicate NeverRestored(ops: seq<Op>, k: LinkKey) {
    forall i :: 0 <= i < |ops| && ops[i].Restore? ==> KeyFromPair(ops[i].rec.nodeA, ops[i].rec.nodeB) != Some(k)
  }

  lemma PlaceSameStory(x: Rec, y: Rec, o: Obs, far: (Pos, Pos) -> bool)
    requires SameStory(x, y)
    ensures SameStory(PlaceEvent(x, o, far), PlaceEvent(y, o, far))
  {
    assert Freeze(x) == Freeze(y);
  }

  lemma ScoreSameStory(x: Rec, y: Rec, o: Obs, retain: real)
    requires SameStory(x, y)
    ensures SameStory(ScoreEvent(x, o, retain), ScoreEvent(y, o, retain))
  {
    assert DecayedScore(x.score, x.scoreAt, o.now, retain) == DecayedScore(y.score, y.scoreAt, o.now, retain);
  }

  lemma DirectionSameStory(x: Rec, y: Rec, o: Obs)
    requires SameStory(x, y)
    ensures SameStory(CountDirection(x, o), CountDirection(y, o))
  {
  }

  lemma CountSameStory(x: Rec, y: Rec, o: Obs, cfg: Config)
    requires SameStory(x, y)
    ensures SameStory(CountEvent(x, o, cfg), CountEvent(y, o, cfg))
  {
    PlaceSameStory(x, y, o, cfg.far);
    var px, py := PlaceEvent(x, o, cfg.far), PlaceEvent(y, o, cfg.far);
    ScoreSameStory(px, py, o, cfg.retain);
    DirectionSameStory(ScoreEvent(px, o, cfg.retain), ScoreEvent(py, o, cfg.retain), o);
  }

  /** Observing link `k`: the story moves on by one counted event, or not at all. */
  lemma ObservedStory(st: State, o: Obs, base: Rec, cfg: Config)
    requires SameStory(RecordOf(st, o), base)
    ensures var r := ObserveLink(st, o, cfg).links[o.key];
            SameStory(r, if CountsGlobally(st, o) then CountEvent(base, o, cfg) else base)
  {
    var touched := TouchNetwork(RecordOf(st, o), o, CountsForNetwork(st, o));
    assert SameStory(touched, base);
    if CountsGlobally(st, o) { CountSameStory(touched, base, o, cfg); }
  }

  /** The story of a link is a replay of its counted events: uncounted repeats, sweeps and
      flushes leave no trace in it. */
  lemma {:induction false} RecordIsReplay(ops: seq<Op>, k: LinkKey, cfg: Config)
    requires NeverRestored(ops, k)
    ensures var now, events := Run(EMPTY, ops, cfg), CountedEvents(ops, k, cfg);
            && (k in now.links <==> events != [])
            && (k in now.links ==> SameStory(now.links[k], Replay(k, events, cfg)))
  {
    if ops != [] {
      var init, last := ops[..|ops| - 1], ops[|ops| - 1];
      assert NeverRestored(init, k);
      RecordIsReplay(init, k, cfg);
      NewLinksCount(EMPTY, init, cfg);
      var before, events := Run(EMPTY, init, cfg), CountedEvents(init, k, cfg);
      if last.Observe? && last.o.key == k {
        var o := last.o;
        assert (events + [o])[..|events|] == events;
        ObservedStory(before, o, if events == [] then NewRec(o) else Replay(k, events, cfg), cfg);
      } else {
        QuietForLink(before, last, k, cfg);
      }
    }
  }

  lemma QuietForLink(st: State, op: Op, k: LinkKey, cfg: Config)
    requires op.Observe? ==> op.o.key != k
    requires op.Restore? ==> KeyFromPair(op.rec.nodeA, op.rec.nodeB) != Some(k)
    ensures k in Apply(st, op, cfg).links <==> k in st.links
    ensures k in st.links ==> SameStory(Apply(st, op, cfg).links[k], st.links[k])
  {
  }

  lemma {:induction false} CountedEventsInOrder(ops: seq<Op>, k: LinkKey, cfg: Config, t0: int)
    requires Timely(ops, t0)
    ensures InOrder(CountedEvents(ops, k, cfg))
    ensures forall i :: 0 <= i < |CountedEvents(ops, k, cfg)| ==>
            t0 <= CountedEvents(ops, k, cfg)[i].now <= Clock(ops, t0)
    ensures t0 <= Clock(ops, t0)
  {
    if ops != [] { CountedEventsInOrder(ops[..|ops| - 1], k, cfg, t0); }
  }

  ghost predicate InOrder(events: seq<Obs>) {
    forall i, j :: 0 <= i <= j < |events| ==> events[i].now <= events[j].now
  }

  // ---------------------------------------------------------------- segments as stretches

  /** A stretch of consecutive events during which neither endpoint went far from where it
      was in the first of them. */
  datatype Stretch = Stretch(anchor: Ends, events: seq<Obs>)

  /** Groups an event list by distance: a stretch begins with the first event whose
      positions are known, and with every one that is far from where the current stretch
      began; everything else belongs to the current stretch. */
  function Stretches(events: seq<Obs>, far: (Pos, Pos) -> bool): seq<Stretch> {
    if events == [] then []
    else Group(Stretches(events[..|events| - 1], far), events[|events| - 1], far)
  }

  predicate Opens(before: seq<Stretch>, o: Obs, far: (Pos, Pos) -> bool) {
    o.ends.Some? && (before == [] || Moved(before[|before| - 1].anchor, o.ends.value, far))
  }

  function Group(before: seq<Stretch>, o: Obs, far: (Pos, Pos) -> bool): seq<Stretch> {
    if Opens(before, o, far) then before + [Stretch(o.ends.value, [o])]
    else if before == [] then []
    else before[..|before| - 1] + [Extend(before[|before| - 1], o)]
  }

  function Extend(s: Stretch, o: Obs): Stretch {
    s.(events := s.events + [o])
  }

  function LocatedEvents(events: seq<Obs>): nat {
    if events == [] then 0
    else LocatedEvents(events[..|events| - 1]) + (if events[|events| - 1].ends.Some? then 1 else 0)
  }

  /** A stretch begins with a located event at its anchor, and no located event of it is
      far from the anchor at either end. */
  ghost predicate StaysNear(s: Stretch, far: (Pos, Pos) -> bool) {
    && s.events != [] && s.events[0].ends == Some(s.anchor)
    && forall j :: 1 <= j < |s.events| && s.events[j].ends.Some? ==>
         !far(s.anchor.a, s.events[j].ends.value.a) && !far(s.anchor.b, s.events[j].ends.value.b)
  }

  function Flatten(stretches: seq<Stretch>): seq<Obs> {
    if stretches == [] then []
    else Flatten(stretches[..|stretches| - 1]) + stretches[|stretches| - 1].events
  }

  /** The segment that describes a stretch. */
  function SegmentOf(s: Stretch): Segment {
    if s.events == [] then Segment(s.anchor, 0, 0, 0)
    else Segment(s.anchor, s.events[0].now, s.events[|s.events| - 1].now, LocatedEvents(s.events))
  }

  function SegmentsOf(stretches: seq<Stretch>): (r: seq<Segment>)
    ensures |r| == |stretches|
    ensures forall i :: 0 <= i < |r| ==> r[i] == SegmentOf(stretches[i])
  {
    if stretches == [] then []
    else SegmentsOf(stretches[..|stretches| - 1]) + [SegmentOf(stretches[|stretches| - 1])]
  }

  /** The frozen segments of a record, followed by the live one. */
  function AllSegments(rec: Rec): seq<Segment> {
    if rec.hasPos then rec.segments + [Freeze(rec)] else rec.segments
  }

  lemma SegmentOfExtended(s: Stretch, o: Obs)
    requires s.events != []
    ensures SegmentOf(Extend(s, o)) == Grown(SegmentOf(s), o)
  {
    assert (s.events + [o])[..|s.events|] == s.events;
  }

  lemma SingletonSegment(o: Obs)
    requires o.ends.Some?
    ensures SegmentOf(Stretch(o.ends.value, [o])) == Fresh(o)
  {
    assert [o][..0] == [];
    assert LocatedEvents([o]) == LocatedEvents([o][..0]) + 1;
  }

  lemma SegmentsOfSnoc(s: seq<Stretch>, x: Stretch)
    ensures SegmentsOf(s + [x]) == SegmentsOf(s) + [SegmentOf(x)]
    ensures Flatten(s + [x]) == Flatten(s) + x.events
  {
    assert (s + [x])[..|s|] == s;
  }

  /** What one more event does to the last segment. */
  function Grown(live: Segment, o: Obs): Segment {
    live.(lastSeen := o.now, packetCount := live.packetCount + if o.ends.Some? then 1 else 0)
  }

  function Fresh(o: Obs): Segment
    requires o.ends.Some?
  {
    Segment(o.ends.value, o.now, o.now, 1)
  }

  lemma OpenedSegments(before: seq<Stretch>, o: Obs, far: (Pos, Pos) -> bool)
    requires Opens(before, o, far)
    ensures SegmentsOf(Group(before, o, far)) == SegmentsOf(before) + [Fresh(o)]
  {
    SingletonSegment(o);
    SegmentsOfSnoc(before, Stretch(o.ends.value, [o]));
  }

  lemma ExtendedSegments(before: seq<Stretch>, o: Obs, far: (Pos, Pos) -> bool)
    requires !Opens(before, o, far) && before != [] && before[|before| - 1].events != []
    ensures var was := SegmentsOf(before);
            SegmentsOf(Group(before, o, far)) == was[..|was| - 1] + [Grown(was[|was| - 1], o)]
  {
    var m := |before| - 1;
    SegmentOfExtended(before[m], o);
    SegmentsOfSnoc(before[..m], Extend(before[m], o));
    SegmentsOfSnoc(before[..m], before[m]);
    assert before == before[..m] + [before[m]];
  }

  /** Stretches stay near their anchors, and consecutive ones begin far apart. */
  ghost predicate WellGrouped(s: seq<Stretch>, far: (Pos, Pos) -> bool) {
    && (forall i :: 0 <= i < |s| ==> StaysNear(s[i], far))
    && (forall i, j :: 0 <= i < j < |s| && j == i + 1 ==>
          far(s[i].anchor.a, s[j].anchor.a) || far(s[i].anchor.b, s[j].anchor.b))
  }

  lemma GroupKeepsGrouping(before: seq<Stretch>, o: Obs, far: (Pos, Pos) -> bool)
    requires WellGrouped(before, far)
    ensures WellGrouped(Group(before, o, far), far)
  {
    if !Opens(before, o, far) && before != [] {
      var m := |before| - 1;
      var x, y := before[m], Extend(before[m], o);
      assert StaysNear(x, far);
      forall j | 1 <= j < |y.events| && y.events[j].ends.Some?
        ensures !Moved(y.anchor, y.events[j].ends.value, far)
      {
        if j < |x.events| { assert y.events[j] == x.events[j]; }
      }
    }
  }

  lemma GroupFlatten(before: seq<Stretch>, o: Obs, far: (Pos, Pos) -> bool)
    ensures Flatten(Group(before, o, far))
            == if before == [] && !Opens(before, o, far) then [] else Flatten(before) + [o]
  {
    if Opens(before, o, far) {
      SegmentsOfSnoc(before, Stretch(o.ends.value, [o]));
    } else if before != [] {
      var m := |before| - 1;
      SegmentsOfSnoc(before[..m], Extend(before[m], o));
      SegmentsOfSnoc(before[..m], before[m]);
      assert before == before[..m] + [before[m]];
    }
  }

  lemma GroupStarts(before: seq<Stretch>, o: Obs, far: (Pos, Pos) -> bool)
    ensures Group(before, o, far) == [] <==> before == [] && !Opens(before, o, far)
    ensures before == [] && !Opens(before, o, far) ==> o.ends.None?
  {
  }

  /** The groups hold all events but the first `lead`, which have no position. */
  ghost predicate Grouped(events: seq<Obs>, groups: seq<Stretch>, lead: nat) {
    && lead <= |events| && events[lead..] == Flatten(groups)
    && (forall i :: 0 <= i < lead ==> events[i].ends.None?)
    && (groups == [] ==> lead == |events|)
  }

  lemma GroupAppends(before: seq<Stretch>, init: seq<Obs>, o: Obs, far: (Pos, Pos) -> bool, lead0: nat)
    returns (lead: nat)
    requires Grouped(init, before, lead0)
    ensures Grouped(init + [o], Group(before, o, far), lead)
  {
    hide Flatten, Group, Moved;
    GroupFlatten(before, o, far);
    GroupStarts(before, o, far);
    hide Opens;
    if before == [] && !Opens(before, o, far) {
      lead := |init| + 1;
    } else {
      lead := lead0;
      assert (init + [o])[lead..] == init[lead..] + [o];
    }
  }

  /** The grouping keeps every event, in order, except those before the first located one;
      its stretches stay near, and consecutive ones begin far apart. */
  lemma {:induction false} StretchesGroup(events: seq<Obs>, far: (Pos, Pos) -> bool) returns (lead: nat)
    ensures WellGrouped(Stretches(events, far), far)
    ensures Grouped(events, Stretches(events, far), lead)
  {
    if events == [] {
      lead := 0;
    } else {
      hide WellGrouped, Group, Grouped;
      var init, o := events[..|events| - 1], events[|events| - 1];
      lead := StretchesGroup(init, far);
      GroupKeepsGrouping(Stretches(init, far), o, far);
      lead := GroupAppends(Stretches(init, far), init, o, far, lead);
      assert events == init + [o];
    }
  }

  /** The record has seen the events that `s` groups. */
  predicate Tells(rec: Rec, s: seq<Stretch>) {
    && AllSegments(rec) == SegmentsOf(s)
    && (rec.hasPos <==> s != [])
    && (rec.hasPos ==> rec.ends == s[|s| - 1].anchor)
  }

  /** What a counted event does to the segments of a record. */
  lemma GeometryOfCount(rec: Rec, o: Obs, cfg: Config)
    ensures var r := CountEvent(rec, o, cfg);
            if o.ends.Some? && (!rec.hasPos || Moved(rec.ends, o.ends.value, cfg.far)) then
              r.hasPos && r.ends == o.ends.value && AllSegments(r) == AllSegments(rec) + [Fresh(o)]
            else if rec.hasPos then
              r.hasPos && r.ends == rec.ends && AllSegments(r) == rec.segments + [Grown(Freeze(rec), o)]
            else
              !r.hasPos && AllSegments(r) == rec.segments
  {
  }

  lemma CountKeepsTelling(rec: Rec, before: seq<Stretch>, o: Obs, cfg: Config)
    requires Tells(rec, before) && WellGrouped(before, cfg.far)
    ensures Tells(CountEvent(rec, o, cfg), Group(before, o, cfg.far))
  {
    GeometryOfCount(rec, o, cfg);
    if Opens(before, o, cfg.far) {
      OpenedSegments(before, o, cfg.far);
    } else if before != [] {
      assert StaysNear(before[|before| - 1], cfg.far);
      ExtendedSegments(before, o, cfg.far);
      var was := SegmentsOf(before);
      assert was[..|was| - 1] == rec.segments && was[|was| - 1] == Freeze(rec);
    }
  }

  /** The segments a record reports are exactly those of the stretches of its events. */
  lemma {:induction false} SegmentsAreStretches(k: LinkKey, events: seq<Obs>, cfg: Config)
    requires events != []
    ensures Tells(Replay(k, events, cfg), Stretches(events, cfg.far))
  {
    var init, o := events[..|events| - 1], events[|events| - 1];
    if init != [] { SegmentsAreStretches(k, init, cfg); }
    var lead := StretchesGroup(init, cfg.far);
    CountKeepsTelling(if init == [] then NewRec(o) else Replay(k, init, cfg), Stretches(init, cfg.far), o, cfg);
  }

  /** Each segment ends no earlier than it began, and no later than the next one begins. */
  ghost predicate Chronological(r: seq<Segment>) {
    && (forall i :: 0 <= i < |r| ==> r[i].firstSeen <= r[i].lastSeen)
    && (forall i, j :: 0 <= i < j < |r| && j == i + 1 ==> r[i].lastSeen <= r[j].firstSeen)
  }

  lemma ChronologicalSnoc(r: seq<Segment>, x: Segment)
    requires Chronological(r) && x.firstSeen <= x.lastSeen
    requires r != [] ==> r[|r| - 1].lastSeen <= x.firstSeen
    ensures Chronological(r + [x])
  {
  }

  lemma ChronologicalGrow(r: seq<Segment>, o: Obs)
    requires Chronological(r) && r != [] && r[|r| - 1].lastSeen <= o.now
    ensures Chronological(r[..|r| - 1] + [Grown(r[|r| - 1], o)])
  {
    var m := |r| - 1;
    assert Chronological(r[..m]);
    if m > 0 { assert r[m - 1].lastSeen <= r[m].firstSeen; }
    ChronologicalSnoc(r[..m], Grown(r[m], o));
  }

  lemma {:induction false} StretchesChronological(events: seq<Obs>, far: (Pos, Pos) -> bool)
    requires InOrder(events)
    ensures var r := SegmentsOf(Stretches(events, far));
            && Chronological(r)
            && (r != [] ==> events != [] && r[|r| - 1].lastSeen == events[|events| - 1].now)
  {
    if events != [] {
      var init, o := events[..|events| - 1], events[|events| - 1];
      assert InOrder(init);
      if init != [] { assert init[|init| - 1] == events[|init| - 1]; }
      StretchesChronological(init, far);
      var lead := StretchesGroup(init, far);
      var before := Stretches(init, far);
      if Opens(before, o, far) {
        OpenedSegments(before, o, far);
        ChronologicalSnoc(SegmentsOf(before), Fresh(o));
      } else if before != [] {
        assert StaysNear(before[|before| - 1], far);
        ExtendedSegments(before, o, far);
        ChronologicalGrow(SegmentsOf(before), o);
      }
    }
  }

  /** The whole law for a link that was never restored, over any run: its segments are the
      stretches of its counted events, and with observations ordered in time they are
      chronological. */
  lemma PositionHistory(ops: seq<Op>, k: LinkKey, cfg: Config, t0: int)
    requires NeverRestored(ops, k) && k in Run(EMPTY, ops, cfg).links
    ensures var segs := AllSegments(Run(EMPTY, ops, cfg).links[k]);
            && segs == SegmentsOf(Stretches(CountedEvents(ops, k, cfg), cfg.far))
            && (Timely(ops, t0) ==> Chronological(segs))
  {
    hide Chronological, SegmentsOf, Stretches, Moved;
    var events := CountedEvents(ops, k, cfg);
    RecordIsReplay(ops, k, cfg);
    SegmentsAreStretches(k, events, cfg);
    if Timely(ops, t0) {
      CountedEventsInOrder(ops, k, cfg, t0);
      StretchesChronological(events, cfg.far);
    }
  }

  // ---------------------------------------------------------------- order across a restore merge

  /** The segments are chronological, begin no earlier than the record, and none is frozen
      without a live one. */
  ghost predicate WellPlaced(rec: Rec) {
    && rec.firstSeen <= rec.lastSeen && Chronological(AllSegments(rec))
    && (rec.segments != [] ==> rec.hasPos)
    && (AllSegments(rec) != [] ==> rec.firstSeen <= AllSegments(rec)[0].firstSeen)
  }

  lemma CountKeepsWellPlaced(rec: Rec, o: Obs, cfg: Config)
    requires rec == NewRec(o) || (WellPlaced(rec) && rec.lastSeen <= o.now)
    ensures WellPlaced(CountEvent(rec, o, cfg))
  {
    hide Chronological, CountEvent, Moved;
    GeometryOfCount(rec, o, cfg);
    CountedFields(rec, o, cfg);
    var r := CountEvent(rec, o, cfg);
    var all := AllSegments(rec);
    NoneInOrder();
    if o.ends.Some? { OneInOrder(Fresh(o)); }
    if o.ends.Some? && AllSegments(r) == all + [Fresh(o)] {
      assert rec.hasPos ==> all[|all| - 1].lastSeen == rec.lastSeen;
      assert !rec.hasPos ==> all == [];
      if rec.hasPos { ChronologicalSnoc(all, Fresh(o)); }
    } else if rec.hasPos {
      assert all[..|all| - 1] == rec.segments && all[|all| - 1] == Freeze(rec);
      ChronologicalGrow(all, o);
    }
  }

  lemma NoneInOrder()
    ensures Chronological([])
  {
  }

  lemma OneInOrder(x: Segment)
    requires x.firstSeen <= x.lastSeen
    ensures Chronological([x]) && [] + [x] == [x]
  {
  }

  /** A link that was never restored is well placed when its events came in order. */
  lemma {:induction false} ReplayIsWellPlaced(k: LinkKey, events: seq<Obs>, cfg: Config)
    requires events != [] && InOrder(events)
    ensures WellPlaced(Replay(k, events, cfg)) && Replay(k, events, cfg).lastSeen == events[|events| - 1].now
  {
    hide WellPlaced, CountEvent;
    var init, o := events[..|events| - 1], events[|events| - 1];
    if init == [] {
      CountKeepsWellPlaced(NewRec(o), o, cfg);
      CountedFields(NewRec(o), o, cfg);
    } else {
      assert InOrder(init) && init[|init| - 1].now <= o.now;
      ReplayIsWellPlaced(k, init, cfg);
      CountKeepsWellPlaced(Replay(k, init, cfg), o, cfg);
      CountedFields(Replay(k, init, cfg), o, cfg);
    }
  }

  lemma ChronologicalJoin(a: seq<Segment>, b: seq<Segment>)
    ensures Chronological(a + b) <==>
              Chronological(a) && Chronological(b) && (a != [] && b != [] ==> a[|a| - 1].lastSeen <= b[0].firstSeen)
  {
    var all := a + b;
    if Chronological(all) {
      assert forall i :: 0 <= i < |a| ==> all[i] == a[i];
      assert forall i :: 0 <= i < |b| ==> all[|a| + i] == b[i];
      if a != [] && b != [] { assert all[|a| - 1].lastSeen <= all[|a|].firstSeen; }
    }
  }

  lemma SegmentsInOrder(s: seq<Segment>, i: nat, j: nat)
    requires Chronological(s) && i <= j < |s|
    ensures s[i].firstSeen <= s[j].firstSeen && s[i].firstSeen <= s[j].lastSeen
    decreases j
  {
    if i < j {
      SegmentsInOrder(s, i, j - 1);
      assert s[j - 1].lastSeen <= s[j].firstSeen;
    }
  }

  lemma MergedSegments(e: Rec, r: Rec, cfg: Config)
    ensures var m, past := MergeRestored(e, r, cfg), e.segments + r.segments;
            AllSegments(m) == if !r.hasPos then (if e.hasPos then past + [Freeze(e).(lastSeen := m.lastSeen)] else past)
                              else if e.hasPos then past + [Freeze(r)] + [Freeze(e).(lastSeen := m.lastSeen)]
                              else past + [Freeze(r).(lastSeen := m.lastSeen)]
    ensures MergeRestored(e, r, cfg).lastSeen == Later(e.lastSeen, r.lastSeen)
  {
    hide MergeNetworks, MergeCounts, MergeSnrs, CombinedScore, MergeHash;
  }

  /** A merge appends the restored segments to the live ones. With an older row that keeps them
      in order if and only if the live link has not moved yet, or the row has no position. */
  lemma MergeKeepsOrderIff(e: Rec, r: Rec, cfg: Config)
    requires WellPlaced(e) && WellPlaced(r) && r.lastSeen < e.firstSeen
    ensures Chronological(AllSegments(MergeRestored(e, r, cfg))) <==> e.segments == [] || !r.hasPos
  {
    hide Chronological, MergeRestored;
    MergedSegments(e, r, cfg);
    var m := MergeRestored(e, r, cfg);
    if r.hasPos {
      ChronologicalJoin(r.segments, [Freeze(r)]);
      if e.segments != [] {
        MovedLinkBreaksOrder(e, r, AllSegments(m));
      } else if e.hasPos {
        assert AllSegments(m) == AllSegments(r) + AllSegments(e);
        ChronologicalJoin(AllSegments(r), AllSegments(e));
      } else {
        StretchLast(r.segments, Freeze(r), m.lastSeen);
        assert AllSegments(m) == r.segments + [Freeze(r).(lastSeen := m.lastSeen)];
      }
    } else {
      assert AllSegments(m) == AllSegments(e);
    }
  }

  /** The last live segment frozen before the merge ends after the restored ones began. */
  lemma MovedLinkBreaksOrder(e: Rec, r: Rec, all: seq<Segment>)
    requires WellPlaced(e) && WellPlaced(r) && r.lastSeen < e.firstSeen && e.segments != [] && r.hasPos
    requires |all| > |e.segments| && all[..|e.segments|] == e.segments && all[|e.segments|] == AllSegments(r)[0]
    ensures !Chronological(all)
  {
    var n, s := |e.segments|, AllSegments(e);
    SegmentsInOrder(s, 0, n - 1);
    SegmentsInOrder(AllSegments(r), 0, |AllSegments(r)| - 1);
    assert all[n - 1] == s[n - 1];
    assert e.firstSeen <= all[n - 1].lastSeen && all[n].firstSeen <= r.lastSeen;
  }

  lemma StretchLast(s: seq<Segment>, x: Segment, lastSeen: int)
    requires Chronological(s + [x]) && x.lastSeen <= lastSeen
    ensures Chronological(s + [x.(lastSeen := lastSeen)])
  {
    var y := x.(lastSeen := lastSeen);
    assert (s + [x])[|s|] == x;
    assert x.firstSeen <= x.lastSeen;
    OneInOrder(y);
    ChronologicalJoin(s, [x]);
    ChronologicalJoin(s, [y]);
    hide Chronological;
  }

  const ASIDE := Pos(0.0, 1.0)
  const FARTHER := Pos(0.0, 2.0)

  /** Positions that differ at all are far apart. */
  function Strict(retain: real): Config {
    Config(retain, (p: Pos, q: Pos) => p != q)
  }

  function Sighting(k: LinkKey, now: int, b: Pos): Obs {
    Obs(k, true, "a", "n", "flood", now, Some(Ends(Pos(0.0, 0.0), b)), None, false)
  }

  /** Such a merge: a link that moved once since the start, and an older row with a position. */
  lemma MergeCanBreakOrder(k: LinkKey, retain: real)
    ensures var e := Replay(k, [Sighting(k, 100, ASIDE), Sighting(k, 200, FARTHER)], Strict(retain));
            var r := Replay(k, [Sighting(k, 10, ASIDE)], Strict(retain));
            WellPlaced(e) && WellPlaced(r) && !Chronological(AllSegments(MergeRestored(e, r, Strict(retain))))
  {
    var x, y, z, cfg := Sighting(k, 100, ASIDE), Sighting(k, 200, FARTHER), Sighting(k, 10, ASIDE), Strict(retain);
    assert Moved(x.ends.value, y.ends.value, cfg.far);
    hide Replay, Chronological, WellPlaced, MergeRestored, Moved, Strict;
    ReplayIsWellPlaced(k, [x, y], cfg);
    ReplayIsWellPlaced(k, [z], cfg);
    ReplayOne(k, z, cfg);
    ReplayTwo(k, x, y, cfg);
    MergeKeepsOrderIff(Replay(k, [x, y], cfg), Replay(k, [z], cfg), cfg);
  }

  lemma ReplayOne(k: LinkKey, o: Obs, cfg: Config)
    requires o.ends.Some?
    ensures var r := Replay(k, [o], cfg);
            && r == CountEvent(NewRec(o), o, cfg)
            && r.hasPos && r.ends == o.ends.value && r.segments == [] && r.firstSeen == r.lastSeen == o.now
  {
    assert [o][..0] == [];
    hide CountEvent;
    CountedFields(NewRec(o), o, cfg);
  }

  lemma ReplayTwo(k: LinkKey, x: Obs, y: Obs, cfg: Config)
    requires x.ends.Some? && y.ends.Some? && Moved(x.ends.value, y.ends.value, cfg.far)
    ensures var r := Replay(k, [x, y], cfg); r.segments != [] && r.firstSeen == x.now
  {
    assert [x, y][..1] == [x];
    ReplayOne(k, x, cfg);
    hide CountEvent, Moved;
    CountedFields(Replay(k, [x], cfg), y, cfg);
    GeometryOfCount(Replay(k, [x], cfg), y, cfg);
  }
}
