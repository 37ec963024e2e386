/** Whole runs of the link registry. One operation is one locked section of links.go:
    a path observation takes a shard's lock once per adjacency, a sweep and a take-dirty
    once per shard, a restore and a requeue once per record. */
module LinkRuns {
  import opened Keys
  import opened LinkModel

  datatype Op =
    | Observe(o: Obs)
    | Sweep(shard: nat, now: int, window: int)
    | Restore(rec: Rec)
    | Take(shard: nat)
    | Requeue(key: LinkKey)

  function Apply(st: State, op: Op, cfg: Config): State {
    match op
    case Observe(o) => ObserveLink(st, o, cfg)
    case Sweep(shard, now, window) => SweepShard(st, shard, now, window)
    case Restore(rec) => RestoreLink(st, rec, cfg)
    case Take(shard) => TakeShard(st, shard)
    case Requeue(key) => RequeueLink(st, key)
  }

  function Run(st: State, ops: seq<Op>, cfg: Config): State {
    if ops == [] then st else Apply(Run(st, ops[..|ops| - 1], cfg), ops[|ops| - 1], cfg)
  }

  /** Only observations move the clock. A sweep reads its time once and then works through
      the shards, so that it may run with a time that observations have passed already. */
  function TimeOf(op: Op): Option<int> {
    if op.Observe? then Some(op.o.now) else None
  }

  /** The time of the latest observation of a run, starting from `t0`. */
  function Clock(ops: seq<Op>, t0: int): int {
    if ops == [] then t0
    else
      var t := TimeOf(ops[|ops| - 1]);
      if t.Some? then t.value else Clock(ops[..|ops| - 1], t0)
  }

  /** The times of the observations are positive and never go back. */
  ghost predicate Timely(ops: seq<Op>, t0: int) {
    if ops == [] then t0 > 0
    else
      var init, t := ops[..|ops| - 1], TimeOf(ops[|ops| - 1]);
      Timely(init, t0) && (t.Some? ==> Clock(init, t0) <= t.value)
  }

  const EMPTY := State(map[], map[], map[])

  // ---------------------------------------------------------------- the two dedup tables

  /** Each per-network entry has its global entry, refreshed at least as recently. */
  ghost predicate NetCoupled(st: State) {
    forall n {:trigger n in st.netDedup} :: n in st.netDedup ==>
      n.networkId != "" && n.event in st.dedup && st.netDedup[n] <= st.dedup[n.event]
  }

  /** No other network has seen the event at a later time. */
  ghost predicate NotBehind(st: State, o: Obs) {
    forall n {:trigger n in st.netDedup} ::
      n in st.netDedup && n.event == EventOf(o) && n != NetEventOf(o) ==> st.netDedup[n] <= o.now
  }

  /** An operation keeps the tables coupled exactly when it is not an observation that is
      behind another network's. A sweep always does, at whatever time. */
  lemma StepKeepsNetCoupledIff(st: State, op: Op, cfg: Config)
    requires NetCoupled(st)
    ensures NetCoupled(Apply(st, op, cfg)) <==> (op.Observe? ==> NotBehind(st, op.o))
  {
    match op
    case Observe(o) => ObserveKeepsNetCoupledIff(st, o, cfg);
    case Sweep(_, _, _) =>
    case Restore(rec) => RestoreKeepsTables(st, rec, cfg);
    case Take(_) =>
    case Requeue(_) =>
  }

  lemma ObserveKeepsNetCoupledIff(st: State, o: Obs, cfg: Config)
    requires NetCoupled(st)
    ensures NetCoupled(ObserveLink(st, o, cfg)) <==> NotBehind(st, o)
  {
    hide ObservedRec;
    var st' := ObserveLink(st, o, cfg);
    if NetCoupled(st') {
      forall n | n in st.netDedup && n.event == EventOf(o) && n != NetEventOf(o) ensures st.netDedup[n] <= o.now {
        assert n in st'.netDedup;
      }
    }
  }

  /** No observation of the run is behind another network's when it happens. */
  ghost predicate NeverBehind(st: State, ops: seq<Op>, cfg: Config) {
    ops != [] ==>
      var init, last := ops[..|ops| - 1], ops[|ops| - 1];
      NeverBehind(st, init, cfg) && (last.Observe? ==> NotBehind(Run(st, init, cfg), last.o))
  }

  /** The tables are coupled now, and have been all along. */
  ghost predicate AlwaysNetCoupled(st: State, ops: seq<Op>, cfg: Config) {
    NetCoupled(Run(st, ops, cfg)) && (ops != [] ==> AlwaysNetCoupled(st, ops[..|ops| - 1], cfg))
  }

  /** The exact law: over a whole run the tables stay coupled if and only if no observation
      is behind another network's. */
  lemma {:induction false} CoupledIffNeverBehind(st: State, ops: seq<Op>, cfg: Config)
    requires NetCoupled(st)
    ensures AlwaysNetCoupled(st, ops, cfg) <==> NeverBehind(st, ops, cfg)
  {
    if ops != [] {
      var init, last := ops[..|ops| - 1], ops[|ops| - 1];
      CoupledIffNeverBehind(st, init, cfg);
      if AlwaysNetCoupled(st, init, cfg) {
        assert NetCoupled(Run(st, init, cfg));
        StepKeepsNetCoupledIff(Run(st, init, cfg), last, cfg);
      }
    }
  }

  /** Every global entry belongs to a stored link. */
  ghost predicate EventsHaveLinks(st: State) {
    forall d {:trigger d in st.dedup} :: d in st.dedup ==> d.key in st.links
  }

  lemma StepKeepsEventsHaveLinks(st: State, op: Op, cfg: Config)
    requires EventsHaveLinks(st)
    ensures EventsHaveLinks(Apply(st, op, cfg))
  {
    hide ObservedRec;
    match op
    case Observe(o) =>
    case Sweep(_, _, _) =>
    case Restore(rec) => RestoreKeepsTables(st, rec, cfg);
    case Take(_) =>
    case Requeue(_) =>
  }

  /** Whatever the clock does, the first event of a link that is not stored yet counts. */
  lemma {:induction false} NewLinksCount(st: State, ops: seq<Op>, cfg: Config)
    requires EventsHaveLinks(st)
    ensures EventsHaveLinks(Run(st, ops, cfg))
    ensures forall o: Obs :: o.key !in Run(st, ops, cfg).links ==> CountsGlobally(Run(st, ops, cfg), o)
  {
    if ops != [] {
      NewLinksCount(st, ops[..|ops| - 1], cfg);
      StepKeepsEventsHaveLinks(Run(st, ops[..|ops| - 1], cfg), ops[|ops| - 1], cfg);
    }
  }

  /** Moreover every global entry belongs to a stored link, and none is from the future. */
  ghost predicate Coupled(st: State, clock: int) {
    && NetCoupled(st) && EventsHaveLinks(st)
    && (forall d {:trigger st.dedup[d]} :: d in st.dedup ==> st.dedup[d] <= clock)
  }

  lemma RestoreKeepsTables(st: State, rec: Rec, cfg: Config)
    ensures RestoreLink(st, rec, cfg).dedup == st.dedup && RestoreLink(st, rec, cfg).netDedup == st.netDedup
    ensures st.links.Keys <= RestoreLink(st, rec, cfg).links.Keys
  {
    hide MergeRestored, Canonical;
  }

  /** With a clock that does not go back no observation is behind. */
  lemma NotBehindTheClock(st: State, o: Obs, clock: int)
    requires Coupled(st, clock) && clock <= o.now
    ensures NotBehind(st, o)
  {
    forall n | n in st.netDedup && n.event == EventOf(o) && n != NetEventOf(o) ensures st.netDedup[n] <= o.now {
      assert st.netDedup[n] <= st.dedup[n.event];
    }
  }

  lemma StepKeepsCoupled(st: State, op: Op, cfg: Config, clock: int, clock': int)
    requires Coupled(st, clock) && clock <= clock'
    requires op.Observe? ==> clock <= op.o.now == clock'
    ensures Coupled(Apply(st, op, cfg), clock')
  {
    hide NetCoupled, EventsHaveLinks, ObservedRec;
    StepKeepsEventsHaveLinks(st, op, cfg);
    if op.Observe? { NotBehindTheClock(st, op.o, clock); }
    StepKeepsNetCoupledIff(st, op, cfg);
    match op
    case Observe(o) =>
    case Sweep(_, _, _) =>
    case Restore(rec) => RestoreKeepsTables(st, rec, cfg);
    case Take(_) =>
    case Requeue(_) =>
  }

  /** So they stay coupled in every run whose observations are ordered in time, with sweeps
      at any time: no sweep forgets a global entry while keeping one of its per-network
      entries. */
  lemma {:induction false} TablesStayCoupled(st: State, ops: seq<Op>, cfg: Config, t0: int)
    requires Coupled(st, t0) && Timely(ops, t0)
    ensures Coupled(Run(st, ops, cfg), Clock(ops, t0)) && NeverBehind(st, ops, cfg)
    ensures t0 <= Clock(ops, t0)
  {
    if ops != [] {
      var init, last := ops[..|ops| - 1], ops[|ops| - 1];
      TablesStayCoupled(st, init, cfg, t0);
      if last.Observe? { NotBehindTheClock(Run(st, init, cfg), last.o, Clock(init, t0)); }
      StepKeepsCoupled(Run(st, init, cfg), last, cfg, Clock(init, t0), Clock(ops, t0));
    }
  }

  /** While they are coupled, an event that counts globally counts for its network too. */
  lemma GlobalCountImpliesNetworkCount(st: State, ops: seq<Op>, cfg: Config, o: Obs)
    requires NetCoupled(st) && NeverBehind(st, ops, cfg)
    ensures var now := Run(st, ops, cfg);
            CountsGlobally(now, o) && o.networkId != "" ==> CountsForNetwork(now, o)
  {
    CoupledIffNeverBehind(st, ops, cfg);
    assert AlwaysNetCoupled(st, ops, cfg);
  }

  /** The order of observations matters: one that is behind another network's leaves the
      global entry older than that network's, and a sweep in between can drop it alone. The
      event then counts globally again, but not for that network. */
  lemma ObservationBehindBreaksCoupling(o: Obs, other: string, cfg: Config)
    requires o.networkId != "" && other != "" && other != o.networkId && o.now == 100
    ensures var behind := o.(networkId := other, now := 10);
            var now := Run(EMPTY, [Observe(o), Observe(behind), Sweep(ShardOf(o.key), 111, 100)], cfg);
            CountsGlobally(now, o) && !CountsForNetwork(now, o)
  {
    hide ObservedRec, ShardOf;
    var behind := o.(networkId := other, now := 10);
    var ops := [Observe(o), Observe(behind), Sweep(ShardOf(o.key), 111, 100)];
    var s1 := ObserveLink(EMPTY, o, cfg);
    var s2 := ObserveLink(s1, behind, cfg);
    RunThree(ops, cfg);
    assert s2.dedup[EventOf(o)] == 10 && s2.netDedup[NetEventOf(o)] == 100;
  }

  lemma RunThree(ops: seq<Op>, cfg: Config)
    requires |ops| == 3
    ensures Run(EMPTY, ops, cfg) == Apply(Apply(Apply(EMPTY, ops[0], cfg), ops[1], cfg), ops[2], cfg)
  {
    hide Apply;
    var two, one := ops[..2], ops[..1];
    assert two[..1] == one && one[..0] == [] && Run(EMPTY, [], cfg) == EMPTY;
    assert Run(EMPTY, one, cfg) == Apply(EMPTY, ops[0], cfg);
    assert Run(EMPTY, two, cfg) == Apply(Run(EMPTY, one, cfg), ops[1], cfg);
  }

  // ---------------------------------------------------------------- the dedup window

  /** The log entry is an observation of this very event. */
  predicate IsEvent(op: Op, d: DedupKey) {
    op.Observe? && op.o.hash == d.hash && op.o.key == d.key && op.o.fromIsA == d.fromIsA
  }

  /** A sweep that forgets an event last seen at `seen`. */
  predicate Forgets(op: Op, d: DedupKey, seen: int) {
    op.Sweep? && op.shard == ShardOf(d.key) && op.now - seen > op.window
  }

  /** Read off the log alone: entry `p` is the latest observation of `d`, and no later
      sweep was more than its window away from it. */
  ghost predicate StandsAt(ops: seq<Op>, d: DedupKey, p: nat) {
    && p < |ops| && IsEvent(ops[p], d)
    && (forall j :: p < j < |ops| ==> !IsEvent(ops[j], d) && !Forgets(ops[j], d, ops[p].o.now))
  }

  ghost predicate Remembered(ops: seq<Op>, d: DedupKey) {
    exists p: nat :: StandsAt(ops, d, p)
  }

  lemma StandsAfterStep(ops: seq<Op>, d: DedupKey, p: nat)
    requires ops != []
    ensures var init, last := ops[..|ops| - 1], ops[|ops| - 1];
            StandsAt(ops, d, p) <==>
              if IsEvent(last, d) then p == |ops| - 1
              else StandsAt(init, d, p) && !Forgets(last, d, ops[p].o.now)
  {
    var init, last := ops[..|ops| - 1], ops[|ops| - 1];
    if StandsAt(ops, d, p) && p < |init| {
      assert forall j :: p < j < |init| ==> init[j] == ops[j];
    }
    if !IsEvent(last, d) && StandsAt(init, d, p) && !Forgets(last, d, ops[p].o.now) {
      forall j | p < j < |ops| ensures !IsEvent(ops[j], d) && !Forgets(ops[j], d, ops[p].o.now) {
        if j < |init| { assert ops[j] == init[j]; }
      }
    }
  }

  /** The table is exactly what the log says it is: an event is in it if and only if it is
      still remembered, with the time of its latest observation, counted or not. */
  lemma {:induction false} TableIsLog(ops: seq<Op>, cfg: Config, d: DedupKey)
    ensures d in Run(EMPTY, ops, cfg).dedup <==> Remembered(ops, d)
    ensures forall p: nat :: StandsAt(ops, d, p) ==>
              d in Run(EMPTY, ops, cfg).dedup && Run(EMPTY, ops, cfg).dedup[d] == ops[p].o.now
  {
    if ops != [] {
      var init, last := ops[..|ops| - 1], ops[|ops| - 1];
      TableIsLog(init, cfg, d);
      var before, after := Run(EMPTY, init, cfg), Run(EMPTY, ops, cfg);
      forall p: nat | StandsAt(ops, d, p) ensures d in after.dedup && after.dedup[d] == ops[p].o.now {
        StandsAfterStep(ops, d, p);
      }
      if d in after.dedup {
        if IsEvent(last, d) {
          StandsAfterStep(ops, d, |ops| - 1);
        } else {
          var p: nat :| StandsAt(init, d, p);
          StandsAfterStep(ops, d, p);
        }
        assert Remembered(ops, d);
      }
    }
  }

  /** Log entry `i` is an observation that counts. */
  ghost predicate CountedAt(ops: seq<Op>, i: nat, cfg: Config)
    requires i < |ops|
  {
    ops[i].Observe? && CountsGlobally(Run(EMPTY, ops[..i], cfg), ops[i].o)
  }

  /** No sweep before entry `i` keeps less than `window` seconds. */
  ghost predicate WindowAtLeast(ops: seq<Op>, window: int) {
    forall i :: 0 <= i < |ops| && ops[i].Sweep? ==> window <= ops[i].window
  }

  lemma {:induction false} ClockMonotone(ops: seq<Op>, t0: int, i: nat, j: nat)
    requires Timely(ops, t0) && i <= j < |ops| && TimeOf(ops[i]).Some? && TimeOf(ops[j]).Some?
    ensures TimeOf(ops[i]).value <= TimeOf(ops[j]).value
  {
    var init := ops[..|ops| - 1];
    if j < |init| {
      ClockMonotone(init, t0, i, j);
    } else if i < j {
      ClockCovers(init, t0, i);
    }
  }

  lemma {:induction false} ClockCovers(ops: seq<Op>, t0: int, i: nat)
    requires Timely(ops, t0) && i < |ops| && TimeOf(ops[i]).Some?
    ensures TimeOf(ops[i]).value <= Clock(ops, t0)
  {
    if i < |ops| - 1 {
      ClockCovers(ops[..|ops| - 1], t0, i);
    }
  }

  /** The latest observation of `d` before entry `j`. */
  lemma {:induction false} LatestEvent(ops: seq<Op>, d: DedupKey, i: nat) returns (p: nat)
    requires i < |ops| && IsEvent(ops[i], d)
    ensures i <= p < |ops| && IsEvent(ops[p], d)
    ensures forall j :: p < j < |ops| ==> !IsEvent(ops[j], d)
  {
    var last := |ops| - 1;
    if IsEvent(ops[last], d) {
      p := last;
    } else {
      p := LatestEvent(ops[..last], d, i);
      forall j | p < j < |ops| ensures !IsEvent(ops[j], d) {
        if j < last { assert ops[j] == ops[..last][j]; }
      }
    }
  }

  /** No sweep among the first `j` entries is ahead of entry `j`. */
  ghost predicate SweepsNotAhead(ops: seq<Op>, j: nat)
    requires j < |ops| && ops[j].Observe?
  {
    forall i :: 0 <= i < j && ops[i].Sweep? ==> ops[i].now <= ops[j].o.now
  }

  /** An event that counts lies more than the window after every earlier observation of
      the same hash on the same link in the same direction, whether or not that one
      counted: an uncounted repeat pushes the next count further away. */
  lemma CountedEventsAreApart(ops: seq<Op>, cfg: Config, t0: int, window: int, i: nat, j: nat)
    requires Timely(ops, t0) && WindowAtLeast(ops, window)
    requires i < j < |ops| && ops[i].Observe? && CountedAt(ops, j, cfg) && SweepsNotAhead(ops, j)
    requires ops[i].o.hash == ops[j].o.hash && ops[i].o.key == ops[j].o.key && ops[i].o.fromIsA == ops[j].o.fromIsA
    ensures ops[j].o.now - ops[i].o.now > window
  {
    var d, past := EventOf(ops[j].o), ops[..j];
    TableIsLog(past, cfg, d);
    var p := LatestEvent(past, d, i);
    assert !StandsAt(past, d, p);
    var s :| p < s < |past| && Forgets(past[s], d, past[p].o.now);
    assert past[s] == ops[s] && past[p] == ops[p];
    ClockMonotone(ops, t0, i, p);
  }

  /** Whether an observation counts can be read off the log: it does if and only if the
      log before it does not remember the event. */
  lemma CountedIffForgotten(ops: seq<Op>, cfg: Config, i: nat)
    requires i < |ops| && ops[i].Observe?
    ensures CountedAt(ops, i, cfg) <==> !Remembered(ops[..i], EventOf(ops[i].o))
  {
    TableIsLog(ops[..i], cfg, EventOf(ops[i].o));
  }

  // ---------------------------------------------------------------- whole calls as runs

  /** What a call does, one locked section after the other. */
  function Observes(obs: seq<Obs>): seq<Op> {
    seq(|obs|, i requires 0 <= i < |obs| => Observe(obs[i]))
  }

  function Sweeps(n: nat, now: int, window: int): seq<Op> {
    seq(n, i requires 0 <= i < n => Sweep(i, now, window))
  }

  function Takes(n: nat): seq<Op> {
    seq(n, i requires 0 <= i < n => Take(i))
  }

  function Restores(recs: seq<Rec>): seq<Op> {
    seq(|recs|, i requires 0 <= i < |recs| => Restore(recs[i]))
  }

  function Requeues(recs: seq<Rec>): seq<Op> {
    seq(|recs|, i requires 0 <= i < |recs| => Requeue(recs[i].key))
  }

  lemma {:induction false} ObserveAllIsRun(st: State, obs: seq<Obs>, cfg: Config)
    ensures ObserveAll(st, obs, cfg) == Run(st, Observes(obs), cfg)
  {
    hide ObserveLink;
    if obs != [] {
      var n := |obs| - 1;
      assert Observes(obs)[..n] == Observes(obs[..n]);
      ObserveAllIsRun(st, obs[..n], cfg);
    }
  }

  lemma {:induction false} SweepIsRun(st: State, n: nat, now: int, window: int, cfg: Config)
    ensures SweepUpTo(st, n, now, window) == Run(st, Sweeps(n, now, window), cfg)
  {
    hide SweepShard;
    if n > 0 {
      assert Sweeps(n, now, window)[..n - 1] == Sweeps(n - 1, now, window);
      SweepIsRun(st, n - 1, now, window, cfg);
    }
  }

  lemma {:induction false} TakeIsRun(st: State, n: nat, cfg: Config)
    ensures TakeUpTo(st, n) == Run(st, Takes(n), cfg)
  {
    hide TakeShard;
    if n > 0 {
      assert Takes(n)[..n - 1] == Takes(n - 1);
      TakeIsRun(st, n - 1, cfg);
    }
  }

  lemma {:induction false} RestoreIsRun(st: State, recs: seq<Rec>, cfg: Config)
    ensures RestoreAll(st, recs, cfg) == Run(st, Restores(recs), cfg)
  {
    hide RestoreLink;
    if recs != [] {
      var n := |recs| - 1;
      assert Restores(recs)[..n] == Restores(recs[..n]);
      RestoreIsRun(st, recs[..n], cfg);
    }
  }

  lemma {:induction false} RequeueIsRun(st: State, recs: seq<Rec>, cfg: Config)
    ensures RequeueAll(st, recs) == Run(st, Requeues(recs), cfg)
  {
    hide RequeueLink;
    if recs != [] {
      var n := |recs| - 1;
      assert Requeues(recs)[..n] == Requeues(recs[..n]);
      RequeueIsRun(st, recs[..n], cfg);
    }
  }
}
