/** What a link's score, packet count and position segments are worth after a whole run:
    the sum of what every counted event and every restored record contributed. */
module LinkTallies {
  import opened Reals
  import opened Keys
  import opened LinkModel
  import opened LinkRuns
  import opened Sums

  /** What a link is worth when queried at some time: packets counted, events counted with
      both positions known, and the score decayed to that time. */
  datatype Tally = Tally(packets: nat, located: nat, energy: real)

  const NOTHING := Tally(0, 0, 0.0)

  function Plus(x: Tally, y: Tally): Tally {
    Tally(x.packets + y.packets, x.located + y.located, x.energy + y.energy)
  }

  function SegmentSum(segs: seq<Segment>): nat {
    if segs == [] then 0 else SegmentSum(segs[..|segs| - 1]) + segs[|segs| - 1].packetCount
  }

  function LocatedCount(rec: Rec): nat {
    (if rec.hasPos then rec.segCount else 0) + SegmentSum(rec.segments)
  }

  function TallyOf(rec: Rec, q: int, retain: real): Tally {
    Tally(rec.packetCount, LocatedCount(rec), DecayedScore(rec.score, rec.scoreAt, q, retain))
  }

  /** One counted event is worth one packet, and a score that decays from 1. */
  function TallyOfEvent(o: Obs, q: int, retain: real): Tally {
    Tally(1, if o.ends.Some? then 1 else 0, DecayedScore(1.0, o.now, q, retain))
  }

  // ---------------------------------------------------------------- the pieces

  /** Decaying in two steps is decaying once. */
  lemma DecayCompose(score: real, at: int, mid: int, q: int, retain: real)
    requires 0 < at <= mid <= q
    ensures DecayedScore(score, at, q, retain) == score * Pow(retain, q - at)
    ensures DecayedScore(DecayedScore(score, at, mid, retain), mid, q, retain) == DecayedScore(score, at, q, retain)
  {
    hide DecayedScore;
    DecayIsProduct(score, at, q, retain);
    DecayIsProduct(score, at, mid, retain);
    DecayIsProduct(DecayedScore(score, at, mid, retain), mid, q, retain);
    PowAdd(retain, mid - at, q - mid);
    Associate(score, Pow(retain, mid - at), Pow(retain, q - mid));
  }

  lemma DecayIsProduct(score: real, at: int, q: int, retain: real)
    requires 0 < at <= q
    ensures DecayedScore(score, at, q, retain) == score * Pow(retain, q - at)
  {
    if q == at { assert Pow(retain, 0) == 1.0; }
  }

  lemma DecayAdds(x: real, y: real, at: int, q: int, retain: real)
    requires 0 < at <= q
    ensures DecayedScore(x + y, at, q, retain) == DecayedScore(x, at, q, retain) + DecayedScore(y, at, q, retain)
  {
    if q > at { Distribute(x, y, Pow(retain, q - at)); }
  }

  /** A score with an update time that has come, or one that decay does not change. */
  predicate Timed(score: real, at: int, now: int, retain: real) {
    0 < at <= now || (at == 0 && (score == 0.0 || retain == 1.0))
  }

  /** A score without an update time that decay does not change is worth the same whenever
      it is taken to date from. */
  lemma TimelessScore(score: real, at: int, q: int, retain: real)
    requires score == 0.0 || retain == 1.0
    ensures DecayedScore(score, at, q, retain) == score
  {
    if at != 0 && q > at {
      if retain == 1.0 { PowOne(q - at); }
    }
  }

  /** Two scores merged are worth, at any time not before either was updated, what they
      are worth separately. */
  lemma CombinedScoreIsSum(a: real, aAt: int, b: real, bAt: int, q: int, retain: real)
    requires Timed(a, aAt, q, retain) && Timed(b, bAt, q, retain)
    ensures DecayedScore(CombinedScore(a, aAt, b, bAt, retain), Later(aAt, bAt), q, retain)
            == DecayedScore(a, aAt, q, retain) + DecayedScore(b, bAt, q, retain)
  {
    if aAt > 0 && bAt > 0 {
      StampedScoresAdd(a, aAt, b, bAt, q, retain);
    } else if aAt > 0 {
      TimelessScore(b, 0, q, retain);
      TimelessScore(b, 0, aAt, retain);
      TimelessScore(b, aAt, q, retain);
      DecayAdds(a, b, aAt, q, retain);
    } else if bAt > 0 {
      TimelessScore(a, 0, q, retain);
      TimelessScore(a, 0, bAt, retain);
      TimelessScore(a, bAt, q, retain);
      DecayAdds(a, b, bAt, q, retain);
    } else {
      hide Pow;
    }
  }

  lemma StampedScoresAdd(a: real, aAt: int, b: real, bAt: int, q: int, retain: real)
    requires 0 < aAt <= q && 0 < bAt <= q
    ensures DecayedScore(CombinedScore(a, aAt, b, bAt, retain), Later(aAt, bAt), q, retain)
            == DecayedScore(a, aAt, q, retain) + DecayedScore(b, bAt, q, retain)
  {
    hide DecayedScore;
    var mid := Later(aAt, bAt);
    DecayCompose(a, aAt, mid, q, retain);
    DecayCompose(b, bAt, mid, q, retain);
    DecayAdds(DecayedScore(a, aAt, mid, retain), DecayedScore(b, bAt, mid, retain), mid, q, retain);
    DecayToItself(a, mid, retain);
    DecayToItself(b, mid, retain);
  }

  lemma DecayToItself(score: real, at: int, retain: real)
    ensures DecayedScore(score, at, at, retain) == score
  {
  }

  /** Without an update time the other side does not decay: the sum law holds exactly when
      that does not matter. */
  lemma UnstampedScoreIsNotSum(a: real, aAt: int, b: real, q: int, retain: real)
    requires 0 < aAt < q && 0.0 < retain <= 1.0
    ensures DecayedScore(CombinedScore(a, aAt, b, 0, retain), Later(aAt, 0), q, retain)
            == DecayedScore(a, aAt, q, retain) + DecayedScore(b, 0, q, retain)
            <==> b == 0.0 || retain == 1.0
  {
    var p := Pow(retain, q - aAt);
    DecayAdds(a, b, aAt, q, retain);
    if retain < 1.0 {
      PowBounds(retain, q - aAt - 1);
      assert p == retain * Pow(retain, q - aAt - 1);
      assert p < 1.0;
      if b != 0.0 { assert b * (1.0 - p) != 0.0; }
    } else {
      PowOne(q - aAt);
    }
  }

  /** One second leaves exactly the configured share of a score. A score without an update
      time does not decay, nor does one read before its time. */
  lemma OneSecondLeavesShare(score: real, at: int, retain: real)
    ensures at != 0 ==> DecayedScore(score, at, at + 1, retain) == score * retain
    ensures forall now :: at == 0 || now <= at ==> DecayedScore(score, at, now, retain) == score
  {
    assert Pow(retain, 1) == retain * Pow(retain, 0) && Pow(retain, 0) == 1.0;
  }

  /** Every half-life halves a score, if the share is chosen so that one does. */
  lemma HalfLivesHalve(score: real, at: int, halfLife: nat, n: nat, retain: real)
    requires 0 < at && Pow(retain, halfLife) == 0.5
    ensures DecayedScore(score, at, at + n * halfLife, retain) == score * Pow(0.5, n)
  {
    PowOfPow(retain, halfLife, n);
    DecayIsProduct(score, at, at + n * halfLife, retain);
  }

  lemma {:induction false} PowOfPow(r: real, m: nat, n: nat)
    ensures Pow(r, n * m) == Pow(Pow(r, m), n)
  {
    if n > 0 {
      assert n * m == m + (n - 1) * m;
      PowAdd(r, m, (n - 1) * m);
      PowOfPow(r, m, n - 1);
    }
  }

  lemma {:induction false} PowOne(n: nat)
    ensures Pow(1.0, n) == 1.0
  {
    if n > 0 { PowOne(n - 1); }
  }

  lemma {:induction false} SegmentSumAppend(a: seq<Segment>, b: seq<Segment>)
    ensures SegmentSum(a + b) == SegmentSum(a) + SegmentSum(b)
  {
    if b == [] {
      assert a + b == a;
    } else {
      assert (a + b)[..|a + b| - 1] == a + b[..|b| - 1];
      SegmentSumAppend(a, b[..|b| - 1]);
    }
  }

  lemma UpdatePositionCounts(rec: Rec, ends: Ends, now: int, far: (Pos, Pos) -> bool)
    ensures LocatedCount(UpdatePosition(rec, ends, now, far))
            == (if rec.hasPos then LocatedCount(rec) else SegmentSum(rec.segments)) + 1
  {
    SegmentSumAppend(rec.segments, [Freeze(rec)]);
    assert SegmentSum([Freeze(rec)]) == rec.segCount by { assert [Freeze(rec)][..0] == []; }
  }

  lemma PlacedCounts(rec: Rec, o: Obs, far: (Pos, Pos) -> bool)
    ensures LocatedCount(PlaceEvent(rec, o, far)) == LocatedCount(rec) + if o.ends.Some? then 1 else 0
  {
    if o.ends.Some? { UpdatePositionCounts(rec, o.ends.value, o.now, far); }
  }

  /** A score that is decayed and bumped is worth one event more. */
  lemma ScoreGains(score: real, at: int, now: int, q: int, retain: real)
    requires Timed(score, at, now, retain) && 0 < now <= q
    ensures DecayedScore(DecayedScore(score, at, now, retain) + 1.0, now, q, retain)
            == DecayedScore(score, at, q, retain) + DecayedScore(1.0, now, q, retain)
  {
    hide DecayedScore;
    DecayAdds(DecayedScore(score, at, now, retain), 1.0, now, q, retain);
    if at > 0 {
      DecayCompose(score, at, now, q, retain);
    } else {
      TimelessScore(score, at, now, retain);
      TimelessScore(score, at, q, retain);
      TimelessScore(score, now, q, retain);
    }
  }

  /** A counted event adds its own worth to the record's. */
  lemma CountAdds(rec: Rec, o: Obs, cfg: Config, q: int)
    requires Timed(rec.score, rec.scoreAt, o.now, cfg.retain) && 0 < o.now <= q
    ensures TallyOf(CountEvent(rec, o, cfg), q, cfg.retain)
            == Plus(TallyOf(rec, q, cfg.retain), TallyOfEvent(o, q, cfg.retain))
    ensures CountEvent(rec, o, cfg).scoreAt == o.now
  {
    hide CountEvent, PlaceEvent, DecayedScore;
    CountedFields(rec, o, cfg);
    PlacedCounts(rec, o, cfg.far);
    ScoreGains(rec.score, rec.scoreAt, o.now, q, cfg.retain);
  }

  lemma MergedFields(e: Rec, r: Rec, cfg: Config)
    ensures var m, g := MergeRestored(e, r, cfg), MergeGeometry(e, r);
            && m.packetCount == e.packetCount + r.packetCount
            && m.score == CombinedScore(e.score, e.scoreAt, r.score, r.scoreAt, cfg.retain)
            && m.scoreAt == Later(e.scoreAt, r.scoreAt)
            && m.hasPos == g.hasPos && m.segCount == g.segCount && SegmentSum(m.segments) == SegmentSum(g.segments)
  {
    hide CombinedScore, MergeNetworks, MergeCounts, MergeSnrs, MergeHash;
    if r.hasPos && e.hasPos {
      SegmentSumAppend(e.segments + r.segments, [Freeze(r)]);
    }
    var m, g := MergeRestored(e, r, cfg), MergeGeometry(e, r);
    assert m.segments == g.segments;
  }

  /** A merge adds the restored record's worth to the live one's. */
  lemma MergeAdds(e: Rec, r: Rec, cfg: Config, q: int)
    requires Timed(e.score, e.scoreAt, q, cfg.retain) && Timed(r.score, r.scoreAt, q, cfg.retain)
    ensures TallyOf(MergeRestored(e, r, cfg), q, cfg.retain)
            == Plus(TallyOf(e, q, cfg.retain), TallyOf(r, q, cfg.retain))
  {
    hide MergeRestored, MergeGeometry, CombinedScore, DecayedScore;
    MergedFields(e, r, cfg);
    CombinedScoreIsSum(e.score, e.scoreAt, r.score, r.scoreAt, q, cfg.retain);
    MergeGeometryAdds(e, r);
  }

  /** A merged score is timed again. */
  lemma MergeStaysTimed(e: Rec, r: Rec, cfg: Config, now: int)
    requires Timed(e.score, e.scoreAt, now, cfg.retain) && Timed(r.score, r.scoreAt, now, cfg.retain)
    ensures var m := MergeRestored(e, r, cfg); Timed(m.score, m.scoreAt, now, cfg.retain)
  {
    hide MergeRestored;
    MergedFields(e, r, cfg);
  }

  lemma MergeGeometryAdds(e: Rec, r: Rec)
    ensures LocatedCount(MergeGeometry(e, r)) == LocatedCount(e) + LocatedCount(r)
  {
    SegmentSumAppend(e.segments, r.segments);
    SegmentSumAppend(e.segments + r.segments, [Freeze(r)]);
    assert SegmentSum([Freeze(r)]) == r.segCount by { assert [Freeze(r)][..0] == []; }
  }

  // ---------------------------------------------------------------- whole runs

  /** No score is from the future, and those without a time are ones that decay does not change. */
  ghost predicate Stamped(st: State, clock: int, retain: real) {
    forall k {:trigger st.links[k]} :: k in st.links ==> TimedRec(st.links[k], clock, retain)
  }

  predicate TimedRec(rec: Rec, clock: int, retain: real) {
    Timed(rec.score, rec.scoreAt, clock, retain)
  }

  /** The same of loaded records, by the clock at which they are restored. */
  ghost predicate RestoresStamped(ops: seq<Op>, t0: int, retain: real) {
    forall i :: 0 <= i < |ops| && ops[i].Restore? ==> TimedRec(ops[i].rec, Clock(ops[..i], t0), retain)
  }

  /** Whether operation `op`, met in state `st`, adds to link `k`. */
  predicate Contributes(st: State, op: Op, k: LinkKey) {
    match op
    case Observe(o) => o.key == k && CountsGlobally(st, o)
    case Restore(rec) => KeyFromPair(rec.nodeA, rec.nodeB) == Some(k)
    case _ => false
  }

  /** What it adds: a counted event its own worth, a restored record the record's. */
  function Contribution(op: Op, q: int, retain: real): Tally {
    match op
    case Observe(o) => TallyOfEvent(o, q, retain)
    case Restore(rec) => TallyOf(rec, q, retain)
    case _ => NOTHING
  }

  /** The contributions of a whole run to link `k`. */
  function Earned(st: State, ops: seq<Op>, k: LinkKey, q: int, cfg: Config): Tally {
    if ops == [] then Worth(st, k, q, cfg.retain)
    else
      var init, last := ops[..|ops| - 1], ops[|ops| - 1];
      if Contributes(Run(st, init, cfg), last, k) then
        Plus(Earned(st, init, k, q, cfg), Contribution(last, q, cfg.retain))
      else Earned(st, init, k, q, cfg)
  }

  function Worth(st: State, k: LinkKey, q: int, retain: real): Tally {
    if k in st.links then TallyOf(st.links[k], q, retain) else NOTHING
  }

  lemma ObservedRecGains(rec: Rec, o: Obs, countsNet: bool, counts: bool, cfg: Config, q: int)
    requires TimedRec(rec, o.now, cfg.retain) && 0 < o.now <= q
    ensures var r := ObservedRec(rec, o, countsNet, counts, cfg);
            && TimedRec(r, o.now, cfg.retain)
            && TallyOf(r, q, cfg.retain)
               == if counts then Plus(TallyOf(rec, q, cfg.retain), TallyOfEvent(o, q, cfg.retain))
                  else TallyOf(rec, q, cfg.retain)
  {
    var touched := TouchNetwork(rec, o, countsNet);
    assert TallyOf(touched, q, cfg.retain) == TallyOf(rec, q, cfg.retain);
    if counts { CountAdds(touched, o, cfg, q); }
  }

  /** Storing a record changes the worth of its own link only. */
  lemma StoreChangesOne(st: State, st': State, key: LinkKey, r: Rec, clock: int, k: LinkKey, q: int, retain: real)
    requires Stamped(st, clock, retain) && TimedRec(r, clock, retain) && st'.links == st.links[key := r]
    ensures Stamped(st', clock, retain)
    ensures k == key ==> Worth(st', k, q, retain) == TallyOf(r, q, retain)
    ensures k != key ==> Worth(st', k, q, retain) == Worth(st, k, q, retain)
  {
  }

  lemma NewRecWorth(st: State, o: Obs, q: int, retain: real)
    ensures Worth(st, o.key, q, retain) == TallyOf(RecordOf(st, o), q, retain)
  {
  }

  /** What a step does to the worth of a link. */
  ghost predicate Gains(st: State, op: Op, cfg: Config, k: LinkKey, q: int) {
    Worth(Apply(st, op, cfg), k, q, cfg.retain)
    == if Contributes(st, op, k) then Plus(Worth(st, k, q, cfg.retain), Contribution(op, q, cfg.retain))
       else Worth(st, k, q, cfg.retain)
  }

  lemma ObserveGains(st: State, o: Obs, cfg: Config, clock: int, k: LinkKey, q: int)
    requires Stamped(st, clock, cfg.retain) && 0 < clock <= o.now <= q
    ensures Stamped(ObserveLink(st, o, cfg), o.now, cfg.retain)
    ensures Gains(st, Observe(o), cfg, k, q)
  {
    var rec := RecordOf(st, o);
    var countsNet, counts := CountsForNetwork(st, o), CountsGlobally(st, o);
    var r := ObservedRec(rec, o, countsNet, counts, cfg);
    ObservedRecGains(rec, o, countsNet, counts, cfg, q);
    NewRecWorth(st, o, q, cfg.retain);
    StoreChangesOne(st, ObserveLink(st, o, cfg), o.key, r, o.now, k, q, cfg.retain);
  }

  lemma CanonicalWorth(rec: Rec, key: LinkKey, q: int, retain: real)
    ensures TallyOf(Canonical(rec, key), q, retain) == TallyOf(rec, q, retain)
  {
  }

  lemma RestoreGains(st: State, rec: Rec, cfg: Config, clock: int, k: LinkKey, q: int)
    requires Stamped(st, clock, cfg.retain) && TimedRec(rec, clock, cfg.retain) && 0 < clock <= q
    ensures Stamped(RestoreLink(st, rec, cfg), clock, cfg.retain)
    ensures KeyFromPair(rec.nodeA, rec.nodeB) == Some(k) && k !in st.links ==>
              Worth(RestoreLink(st, rec, cfg), k, q, cfg.retain) == TallyOf(rec, q, cfg.retain)
    ensures KeyFromPair(rec.nodeA, rec.nodeB) != Some(k) || k in st.links ==> Gains(st, Restore(rec), cfg, k, q)
  {
    var key := KeyFromPair(rec.nodeA, rec.nodeB);
    if key.Some? {
      var c := Canonical(rec, key.value);
      CanonicalWorth(rec, key.value, q, cfg.retain);
      var r := c;
      if key.value in st.links {
        r := MergeRestored(st.links[key.value], c, cfg);
        MergeAdds(st.links[key.value], c, cfg, q);
        MergeStaysTimed(st.links[key.value], c, cfg, clock);
      }
      StoreChangesOne(st, RestoreLink(st, rec, cfg), key.value, r, clock, k, q, cfg.retain);
    }
  }

  lemma QuietStep(st: State, op: Op, cfg: Config, clock: int, k: LinkKey, q: int)
    requires Stamped(st, clock, cfg.retain) && !op.Observe? && !op.Restore?
    ensures Stamped(Apply(st, op, cfg), clock, cfg.retain)
    ensures Gains(st, op, cfg, k, q)
  {
  }

  /** One operation changes a link's worth by what it contributes. */
  lemma StepGains(st: State, op: Op, cfg: Config, clock: int, clock': int, k: LinkKey, q: int)
    requires Stamped(st, clock, cfg.retain) && 0 < clock <= clock' <= q
    requires clock' == if op.Observe? then op.o.now else clock
    requires op.Restore? ==> TimedRec(op.rec, clock, cfg.retain)
    ensures Stamped(Apply(st, op, cfg), clock', cfg.retain)
    ensures Gains(st, op, cfg, k, q)
  {
    match op
    case Observe(o) => ObserveGains(st, o, cfg, clock, k, q);
    case Restore(rec) =>
      RestoreGains(st, rec, cfg, clock, k, q);
      PlusNothing(TallyOf(rec, q, cfg.retain));
    case Sweep(_, _, _) => QuietStep(st, op, cfg, clock, k, q);
    case Take(_) => QuietStep(st, op, cfg, clock, k, q);
    case Requeue(_) => QuietStep(st, op, cfg, clock, k, q);
  }

  lemma PlusNothing(x: Tally)
    ensures Plus(NOTHING, x) == x
  {
  }

  lemma RestoresStampedPrefix(ops: seq<Op>, t0: int, retain: real)
    requires RestoresStamped(ops, t0, retain) && ops != []
    ensures var init, last := ops[..|ops| - 1], ops[|ops| - 1];
            RestoresStamped(init, t0, retain) && (last.Restore? ==> TimedRec(last.rec, Clock(init, t0), retain))
  {
    var init := ops[..|ops| - 1];
    forall i | 0 <= i < |init| && init[i].Restore? ensures TimedRec(init[i].rec, Clock(init[..i], t0), retain) {
      assert init[..i] == ops[..i];
    }
  }

  lemma {:induction false} ClockNotBefore(ops: seq<Op>, t0: int)
    requires Timely(ops, t0)
    ensures 0 < t0 <= Clock(ops, t0)
  {
    if ops != [] { ClockNotBefore(ops[..|ops| - 1], t0); }
  }

  /** After any run of observations, sweeps, restores, take-dirties and requeues, a link's
      packet count, its located count and its score decayed to any later time are exactly
      the sums of what the counted events and the restored records contribute: the score
      is the sum of retain^(q - t) over the counted events, plus what was restored. */
  lemma {:induction false} WorthIsEarned(st: State, ops: seq<Op>, cfg: Config, t0: int, k: LinkKey, q: int)
    requires Stamped(st, t0, cfg.retain) && Timely(ops, t0) && RestoresStamped(ops, t0, cfg.retain)
    requires Clock(ops, t0) <= q
    ensures Stamped(Run(st, ops, cfg), Clock(ops, t0), cfg.retain)
    ensures Worth(Run(st, ops, cfg), k, q, cfg.retain) == Earned(st, ops, k, q, cfg)
  {
    if ops != [] {
      var init, last := ops[..|ops| - 1], ops[|ops| - 1];
      RestoresStampedPrefix(ops, t0, cfg.retain);
      ClockNotBefore(init, t0);
      WorthIsEarned(st, init, cfg, t0, k, q);
      StepGains(Run(st, init, cfg), last, cfg, Clock(init, t0), Clock(ops, t0), k, q);
    }
  }

  // ---------------------------------------------------------------- bounds

  /** Neither the score nor the located count can exceed the packet count. */
  predicate WithinCount(rec: Rec) {
    0.0 <= rec.score <= rec.packetCount as real && LocatedCount(rec) <= rec.packetCount
  }

  lemma DecayShrinks(score: real, at: int, now: int, retain: real)
    requires 0.0 <= score && 0.0 < retain <= 1.0
    ensures 0.0 <= DecayedScore(score, at, now, retain) <= score
  {
    if at != 0 && now > at {
      var p := Pow(retain, now - at);
      PowBounds(retain, now - at);
      assert score * p <= score * 1.0;
      assert score * p >= 0.0;
    }
  }

  lemma CountStaysWithin(rec: Rec, o: Obs, cfg: Config)
    requires ConfigOk(cfg) && WithinCount(rec)
    ensures WithinCount(CountEvent(rec, o, cfg))
  {
    DecayShrinks(rec.score, rec.scoreAt, o.now, cfg.retain);
    if o.ends.Some? { UpdatePositionCounts(rec, o.ends.value, o.now, cfg.far); }
  }

  lemma MergeStaysWithin(e: Rec, r: Rec, cfg: Config)
    requires ConfigOk(cfg) && WithinCount(e) && WithinCount(r)
    ensures WithinCount(MergeRestored(e, r, cfg))
  {
    DecayShrinks(e.score, e.scoreAt, r.scoreAt, cfg.retain);
    DecayShrinks(r.score, r.scoreAt, e.scoreAt, cfg.retain);
    MergeGeometryAdds(e, r);
  }

  ghost predicate AllWithin(st: State) {
    forall k {:trigger st.links[k]} :: k in st.links ==> WithinCount(st.links[k])
  }

  lemma ObserveStaysWithin(st: State, o: Obs, cfg: Config)
    requires ConfigOk(cfg) && AllWithin(st)
    ensures AllWithin(ObserveLink(st, o, cfg))
  {
    var rec := RecordOf(st, o);
    var touched := TouchNetwork(rec, o, CountsForNetwork(st, o));
    assert WithinCount(rec);
    assert WithinCount(touched);
    CountStaysWithin(touched, o, cfg);
  }

  lemma RestoreStaysWithin(st: State, rec: Rec, cfg: Config)
    requires ConfigOk(cfg) && AllWithin(st) && WithinCount(rec)
    ensures AllWithin(RestoreLink(st, rec, cfg))
  {
    var key := KeyFromPair(rec.nodeA, rec.nodeB);
    if key.Some? {
      assert WithinCount(Canonical(rec, key.value));
      if key.value in st.links { MergeStaysWithin(st.links[key.value], Canonical(rec, key.value), cfg); }
    }
  }

  lemma StepStaysWithin(st: State, op: Op, cfg: Config)
    requires ConfigOk(cfg) && AllWithin(st) && (op.Restore? ==> WithinCount(op.rec))
    ensures AllWithin(Apply(st, op, cfg))
  {
    match op
    case Observe(o) => ObserveStaysWithin(st, o, cfg);
    case Restore(rec) => RestoreStaysWithin(st, rec, cfg);
    case Sweep(_, _, _) =>
    case Take(_) =>
    case Requeue(_) =>
  }

  /** At any clock whatsoever, a score read off the registry lies between 0 and the packet
      count, and no more events were placed than counted. */
  lemma {:induction false} ScoresStayWithinCounts(st: State, ops: seq<Op>, cfg: Config, k: LinkKey, q: int)
    requires ConfigOk(cfg) && AllWithin(st)
    requires forall i :: 0 <= i < |ops| && ops[i].Restore? ==> WithinCount(ops[i].rec)
    ensures AllWithin(Run(st, ops, cfg))
    ensures var w := Worth(Run(st, ops, cfg), k, q, cfg.retain);
            0.0 <= w.energy <= w.packets as real && w.located <= w.packets
  {
    if ops != [] {
      ScoresStayWithinCounts(st, ops[..|ops| - 1], cfg, k, q);
      StepStaysWithin(Run(st, ops[..|ops| - 1], cfg), ops[|ops| - 1], cfg);
    }
    var now := Run(st, ops, cfg);
    if k in now.links {
      DecayShrinks(now.links[k].score, now.links[k].scoreAt, q, cfg.retain);
    }
  }
}
