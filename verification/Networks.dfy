/** A network's counter beside those of its analyzers, from store.go. */
module Networks {
  import opened Counters
  import opened Ledgers

  /** The counts of one network: its own, and one per analyzer. */
  datatype Tally = Tally(counter: Counts, analyzers: seq<Counts>)

  /** NetworkState.Observe: one analyzer and the network hear the same event. */
  function Heard(t: Tally, i: nat, ev: Event): Tally
    requires i < |t.analyzers|
  {
    Tally(Observed(t.counter, ev), t.analyzers[i := Observed(t.analyzers[i], ev)])
  }

  function SweptAll(cs: seq<Counts>, now: int, window: int, ttl: int): (r: seq<Counts>)
    ensures |r| == |cs|
  {
    seq(|cs|, i requires 0 <= i < |cs| => Swept(cs[i], now, window, ttl))
  }

  /** The part of the store's sweep that concerns one network. */
  function SweptNetwork(t: Tally, now: int, window: int, ttl: int): Tally {
    Tally(Swept(t.counter, now, window, ttl), SweptAll(t.analyzers, now, window, ttl))
  }

  function Uniques(cs: seq<Counts>): nat {
    if cs == [] then 0 else Uniques(cs[..|cs| - 1]) + cs[|cs| - 1].unique
  }

  // ---------------------------------------------------------------- runs

  datatype Op = Hear(analyzer: nat, ev: Event) | Sweep(now: int, window: int, ttl: int)

  /** An event of an analyzer the network does not have does not happen. */
  function Apply(t: Tally, op: Op): Tally {
    match op
    case Hear(i, ev) => if i < |t.analyzers| then Heard(t, i, ev) else t
    case Sweep(now, window, ttl) => SweptNetwork(t, now, window, ttl)
  }

  function Run(t: Tally, ops: seq<Op>): Tally {
    if ops == [] then t else Apply(Run(t, ops[..|ops| - 1]), ops[|ops| - 1])
  }

  /** What an operation is to the counter of the network, and to that of analyzer `i`. */
  function OwnOps(op: Op, n: nat): seq<Counters.Op> {
    match op
    case Hear(i, ev) => if i < n then [Counters.Observe(ev)] else []
    case Sweep(now, window, ttl) => [Counters.Sweep(now, window, ttl)]
  }

  function AnalyzerOps(op: Op, i: nat): seq<Counters.Op> {
    match op
    case Hear(j, ev) => if j == i then [Counters.Observe(ev)] else []
    case Sweep(now, window, ttl) => [Counters.Sweep(now, window, ttl)]
  }

  function AllOwnOps(ops: seq<Op>, n: nat): seq<Counters.Op> {
    if ops == [] then [] else AllOwnOps(ops[..|ops| - 1], n) + OwnOps(ops[|ops| - 1], n)
  }

  function AllAnalyzerOps(ops: seq<Op>, i: nat): seq<Counters.Op> {
    if ops == [] then [] else AllAnalyzerOps(ops[..|ops| - 1], i) + AnalyzerOps(ops[|ops| - 1], i)
  }

  lemma CounterRunNext(c: Counts, ops: seq<Counters.Op>, more: seq<Counters.Op>)
    requires |more| <= 1
    ensures Counters.Run(c, ops + more)
            == if more == [] then Counters.Run(c, ops) else Counters.Apply(Counters.Run(c, ops), more[0])
  {
    hide Counters.Apply;
    if more == [] {
      assert ops + more == ops;
    } else {
      assert (ops + more)[..|ops|] == ops;
    }
  }

  /** One analyzer's events and the sweeps decide its counter; the events of all analyzers, the
      network's. */
  lemma {:induction false} CountersRunApart(t: Tally, ops: seq<Op>, i: nat)
    requires i < |t.analyzers|
    ensures var r := Run(t, ops);
            && |r.analyzers| == |t.analyzers|
            && r.counter == Counters.Run(t.counter, AllOwnOps(ops, |t.analyzers|))
            && r.analyzers[i] == Counters.Run(t.analyzers[i], AllAnalyzerOps(ops, i))
  {
    hide Observed, Swept, Counters.Run;
    if ops == [] {
      NothingRun(t.counter);
      NothingRun(t.analyzers[i]);
    } else {
      var n := |ops| - 1;
      CountersRunApart(t, ops[..n], i);
      CounterRunNext(t.counter, AllOwnOps(ops[..n], |t.analyzers|), OwnOps(ops[n], |t.analyzers|));
      CounterRunNext(t.analyzers[i], AllAnalyzerOps(ops[..n], i), AnalyzerOps(ops[n], i));
    }
  }

  lemma NothingRun(c: Counts)
    ensures Counters.Run(c, []) == c
  {
  }

  /** The time of the latest event heard, starting from `t0`; a sweep may run with an earlier
      or a later one. */
  function Clock(ops: seq<Op>, t0: int): int {
    if ops == [] then t0
    else
      var last := ops[|ops| - 1];
      if last.Hear? then last.ev.at else Clock(ops[..|ops| - 1], t0)
  }

  /** The times of the events never go back. */
  ghost predicate Timely(ops: seq<Op>, t0: int) {
    ops != [] ==> Timely(ops[..|ops| - 1], t0) && Clock(ops[..|ops| - 1], t0) <= Clock(ops, t0)
  }

  // ---------------------------------------------------------------- the network forgets last

  /** What an analyzer remembers, the network remembers at least as recently. */
  ghost predicate Follows(own: map<string, int>, network: map<string, int>) {
    forall h {:trigger own[h]} :: h in own ==> h in network && own[h] <= network[h]
  }

  ghost predicate Consistent(t: Tally, clock: int) {
    && (forall i :: 0 <= i < |t.analyzers| ==> Follows(t.analyzers[i].seenHash, t.counter.seenHash))
    && (forall h {:trigger t.counter.seenHash[h]} :: h in t.counter.seenHash ==> t.counter.seenHash[h] <= clock)
  }

  lemma {:induction false} UniquesUpdate(cs: seq<Counts>, i: nat, c: Counts)
    requires i < |cs|
    ensures Uniques(cs[i := c]) + cs[i].unique == Uniques(cs) + c.unique
  {
    var n := |cs| - 1;
    if i < n {
      assert cs[i := c][..n] == cs[..n][i := c];
      UniquesUpdate(cs[..n], i, c);
    } else {
      assert cs[i := c][..n] == cs[..n];
    }
  }

  lemma {:induction false} UniquesSwept(cs: seq<Counts>, now: int, window: int, ttl: int)
    ensures Uniques(SweptAll(cs, now, window, ttl)) == Uniques(cs)
  {
    if cs != [] {
      var init := cs[..|cs| - 1];
      UniquesSwept(init, now, window, ttl);
      assert SweptAll(cs, now, window, ttl)[..|init|] == SweptAll(init, now, window, ttl);
    }
  }

  lemma HeardFollows(own: Counts, network: Counts, ev: Event, clock: int)
    requires Follows(own.seenHash, network.seenHash) && clock <= ev.at
    requires forall h {:trigger network.seenHash[h]} :: h in network.seenHash ==> network.seenHash[h] <= clock
    ensures Follows(Observed(own, ev).seenHash, Observed(network, ev).seenHash)
    ensures Follows(own.seenHash, Observed(network, ev).seenHash)
  {
  }

  lemma SweptFollows(own: Counts, network: Counts, now: int, window: int, ttl: int)
    requires Follows(own.seenHash, network.seenHash)
    ensures Follows(Swept(own, now, window, ttl).seenHash, Swept(network, now, window, ttl).seenHash)
  {
  }

  lemma StepKeepsConsistent(t: Tally, op: Op, clock: int)
    requires Consistent(t, clock) && (op.Hear? ==> clock <= op.ev.at)
    ensures Consistent(Apply(t, op), if op.Hear? then op.ev.at else clock)
  {
    hide Observed, Swept, Follows;
    match op
    case Hear(i, ev) =>
      ObservedTimes(t.counter, ev, clock);
      if i < |t.analyzers| {
        forall j | 0 <= j < |t.analyzers|
          ensures Follows(Heard(t, i, ev).analyzers[j].seenHash, Observed(t.counter, ev).seenHash)
        {
          HeardFollows(t.analyzers[j], t.counter, ev, clock);
        }
      }
    case Sweep(now, window, ttl) =>
      SweptTimes(t.counter, now, window, ttl, clock);
      forall j | 0 <= j < |t.analyzers|
        ensures Follows(SweptAll(t.analyzers, now, window, ttl)[j].seenHash,
                        Swept(t.counter, now, window, ttl).seenHash)
      {
        SweptFollows(t.analyzers[j], t.counter, now, window, ttl);
      }
  }

  lemma ObservedTimes(c: Counts, ev: Event, clock: int)
    requires forall h {:trigger c.seenHash[h]} :: h in c.seenHash ==> c.seenHash[h] <= clock
    requires clock <= ev.at
    ensures var m := Observed(c, ev).seenHash; forall h {:trigger m[h]} :: h in m ==> m[h] <= ev.at
  {
  }

  lemma SweptTimes(c: Counts, now: int, window: int, ttl: int, clock: int)
    requires forall h {:trigger c.seenHash[h]} :: h in c.seenHash ==> c.seenHash[h] <= clock
    ensures var m := Swept(c, now, window, ttl).seenHash; forall h {:trigger m[h]} :: h in m ==> m[h] <= clock
  {
  }

  /** While events come in order of time, whatever an analyzer remembers, the network does. */
  lemma {:induction false} TallyStaysConsistent(t: Tally, ops: seq<Op>, t0: int)
    requires Consistent(t, t0) && Timely(ops, t0)
    ensures Consistent(Run(t, ops), Clock(ops, t0))
  {
    if ops != [] {
      var init := ops[..|ops| - 1];
      TallyStaysConsistent(t, init, t0);
      StepKeepsConsistent(Run(t, init), ops[|ops| - 1], Clock(init, t0));
    }
  }

  // ---------------------------------------------------------------- the totals, whatever the clock

  /** What each analyzer remembers. */
  function Memories(cs: seq<Counts>): (r: seq<map<string, int>>)
    ensures |r| == |cs|
  {
    seq(|cs|, i requires 0 <= i < |cs| => cs[i].seenHash)
  }

  /** The same, one entry per analyzer and packet. */
  function Pairs(ms: seq<map<string, int>>): map<(nat, string), int> {
    map i: nat, h | 0 <= i < |ms| && h in ms[i] :: (i, h) := ms[i][h]
  }

  function Entries(cs: seq<Counts>): map<(nat, string), int> {
    Pairs(Memories(cs))
  }

  const PACKET := (entry: (nat, string), h: string) => entry.1 == h

  /** Each packet the network remembers dates from the analyzer that heard it last, which
      remembers it too; and what was counted but is forgotten is no more for the network. */
  ghost predicate Grounded(t: Tally) {
    && Anchored(t.counter.seenHash, Entries(t.analyzers), PACKET)
    && t.counter.unique + |Entries(t.analyzers)| <= Uniques(t.analyzers) + |t.counter.seenHash|
  }

  lemma OnePacketEach(network: map<string, int>, cs: seq<Counts>)
    ensures Single(network, Entries(cs), PACKET)
  {
  }

  lemma PairsUpdate(ms: seq<map<string, int>>, i: nat, h: string, t: int)
    requires i < |ms|
    ensures Pairs(ms[i := ms[i][h := t]]) == Pairs(ms)[(i, h) := t]
    ensures (i, h) in Pairs(ms) <==> h in ms[i]
  {
    var x, y := Pairs(ms[i := ms[i][h := t]]), Pairs(ms)[(i, h) := t];
    forall p ensures p in x <==> p in y {
    }
    forall p | p in x ensures x[p] == y[p] {
    }
  }

  lemma EntriesHeard(cs: seq<Counts>, i: nat, ev: Event)
    requires i < |cs|
    ensures Entries(cs[i := Observed(cs[i], ev)])
            == if ev.hash == "" then Entries(cs) else Entries(cs)[(i, ev.hash) := ev.at]
    ensures (i, ev.hash) in Entries(cs) <==> ev.hash in cs[i].seenHash
  {
    hide Pairs, NoteNodes, ObserversAfter, CountType, ObsKey;
    var ms := Memories(cs);
    PairsUpdate(ms, i, ev.hash, ev.at);
    assert Memories(cs[i := Observed(cs[i], ev)])
        == if ev.hash == "" then ms else ms[i := ms[i][ev.hash := ev.at]];
  }

  lemma PairsKept(ms: seq<map<string, int>>, ks: seq<map<string, int>>, now: int, window: int)
    requires |ks| == |ms| && forall i :: 0 <= i < |ms| ==> ks[i] == Kept(ms[i], now, window)
    ensures Pairs(ks) == Kept(Pairs(ms), now, window)
  {
    var x, y := Pairs(ks), Kept(Pairs(ms), now, window);
    forall p ensures p in x <==> p in y {
    }
  }

  lemma EntriesSwept(cs: seq<Counts>, now: int, window: int, ttl: int)
    ensures Entries(SweptAll(cs, now, window, ttl)) == Kept(Entries(cs), now, window)
  {
    hide Pairs, Active;
    PairsKept(Memories(cs), Memories(SweptAll(cs, now, window, ttl)), now, window);
  }

  lemma HearKeepsGrounded(t: Tally, i: nat, ev: Event)
    requires Grounded(t) && i < |t.analyzers|
    ensures Grounded(Heard(t, i, ev))
  {
    hide Anchored, Entries, ObserversAfter, NoteNodes, CountType;
    EntriesHeard(t.analyzers, i, ev);
    UniquesUpdate(t.analyzers, i, Observed(t.analyzers[i], ev));
    if ev.hash != "" {
      NoteAnchored(t.counter.seenHash, Entries(t.analyzers), PACKET, ev.hash, (i, ev.hash), ev.at);
    }
  }

  lemma SweepKeepsGrounded(t: Tally, now: int, window: int, ttl: int)
    requires Grounded(t)
    ensures Grounded(SweptNetwork(t, now, window, ttl))
  {
    hide Anchored, Single, Entries;
    OnePacketEach(t.counter.seenHash, t.analyzers);
    EntriesSwept(t.analyzers, now, window, ttl);
    UniquesSwept(t.analyzers, now, window, ttl);
    SweepAnchored(t.counter.seenHash, Entries(t.analyzers), PACKET, now, window);
  }

  /** A tally to start from: nothing remembered, as in a new process or one whose counters
      were just restored, and the totals in order. */
  ghost predicate Fresh(t: Tally) {
    && t.counter.seenHash == map[] && t.counter.unique <= Uniques(t.analyzers)
    && forall i :: 0 <= i < |t.analyzers| ==> t.analyzers[i].seenHash == map[]
  }

  lemma {:induction false} TallyStaysGrounded(t: Tally, ops: seq<Op>)
    requires Fresh(t)
    ensures Grounded(Run(t, ops))
  {
    if ops == [] {
      assert Entries(t.analyzers) == map[];
    } else {
      var init, last := ops[..|ops| - 1], ops[|ops| - 1];
      TallyStaysGrounded(t, init);
      hide Grounded, Heard, SweptNetwork;
      match last
      case Hear(i, ev) => if i < |Run(t, init).analyzers| { HearKeepsGrounded(Run(t, init), i, ev); }
      case Sweep(now, window, ttl) => SweepKeepsGrounded(Run(t, init), now, window, ttl);
    }
  }

  /** In every run, whatever the analyzers hear, however packets overlap and whatever times
      they carry, the network counts no more unique packets than its analyzers do together. */
  lemma NetworkCountsNoMore(t: Tally, ops: seq<Op>)
    requires Fresh(t)
    ensures Run(t, ops).counter.unique <= Uniques(Run(t, ops).analyzers)
  {
    TallyStaysGrounded(t, ops);
    var now := Run(t, ops);
    OnePacketEach(now.counter.seenHash, now.analyzers);
    AnchoredCount(now.counter.seenHash, Entries(now.analyzers), PACKET);
  }

  function Persisted(cs: seq<Counts>): (r: seq<Counts>)
    ensures |r| == |cs|
  {
    seq(|cs|, i requires 0 <= i < |cs| => Restored(EMPTY, Exported(cs[i])))
  }

  /** A restart from exported counters starts with the totals in order again, so that the
      bound holds over the whole life of the totals. */
  lemma RestartIsFresh(t: Tally)
    requires t.counter.unique <= Uniques(t.analyzers)
    ensures Fresh(Tally(Restored(EMPTY, Exported(t.counter)), Persisted(t.analyzers)))
  {
    PersistedUniques(t.analyzers);
  }

  lemma {:induction false} PersistedUniques(cs: seq<Counts>)
    ensures Uniques(Persisted(cs)) == Uniques(cs)
  {
    if cs != [] {
      var init := cs[..|cs| - 1];
      PersistedUniques(init);
      assert Persisted(cs)[..|init|] == Persisted(init);
    }
  }

  // ---------------------------------------------------------------- the network itself

  class NetworkState {
    const counter: Counter
    const analyzers: seq<Counter>

    /** All counters are separate objects. */
    ghost predicate Valid()
      reads counter.rate, counter.rate.buckets
      reads set i | 0 <= i < |analyzers| :: analyzers[i].rate
      reads set i | 0 <= i < |analyzers| :: analyzers[i].rate.buckets
    {
      && counter.Valid()
      && (forall i :: 0 <= i < |analyzers| ==> analyzers[i].Valid() && analyzers[i].Parts() !! counter.Parts())
      && (forall i, j :: 0 <= i < j < |analyzers| ==> analyzers[i].Parts() !! analyzers[j].Parts())
    }

    ghost function Value(): Tally
      reads counter, analyzers
    {
      Tally(counter.Value(), seq(|analyzers|, i requires 0 <= i < |analyzers| reads analyzers => analyzers[i].Value()))
    }

    constructor (counter: Counter, analyzers: seq<Counter>)
      ensures this.counter == counter && this.analyzers == analyzers
    {
      this.counter := counter;
      this.analyzers := analyzers;
    }

    method Observe(i: nat, ev: Event)
      requires Valid() && i < |analyzers| && 0 < ev.at
      modifies counter.Parts(), analyzers[i].Parts()
      ensures Valid()
      ensures Value() == Heard(old(Value()), i, ev)
    {
      hide Observed;
      analyzers[i].Observe(ev);
      counter.Observe(ev);
    }

    method Sweep(now: int, window: int, ttl: int)
      requires Valid()
      modifies counter, analyzers
      ensures Valid()
      ensures Value() == SweptNetwork(old(Value()), now, window, ttl)
    {
      hide Swept, Counter.Value;
      counter.Sweep(now, window, ttl);
      for i := 0 to |analyzers|
        invariant Valid()
        invariant counter.Value() == Swept(old(counter.Value()), now, window, ttl)
        invariant forall j :: 0 <= j < i ==> analyzers[j].Value() == Swept(old(analyzers[j].Value()), now, window, ttl)
        invariant forall j :: i <= j < |analyzers| ==> analyzers[j].Value() == old(analyzers[j].Value())
      {
        analyzers[i].Sweep(now, window, ttl);
      }
    }
  }
}
