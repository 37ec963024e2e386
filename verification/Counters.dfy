/** The packet counters of metrics.go, and what their totals promise over every run. */
module Counters {
  import opened Sums
  import opened Keys
  import opened Collections
  import opened Ledgers
  import opened RateWindows

  datatype Stat = Stat(name: string, firstSeen: int, lastSeen: int, observations: nat)

  datatype Event = Event(hash: string, observerId: string, observerName: string, payloadType: string,
                         nodes: seq<string>, at: int)

  /** What a counter holds, apart from its rate. */
  datatype Counts = Counts(observations: nat, unique: nat, seenHash: map<string, int>, seenObs: map<string, int>,
                           observers: map<string, Stat>, nodes: map<string, int>, payloadTypes: map<string, nat>,
                           lastPacket: int)

  const EMPTY := Counts(0, 0, map[], map[], map[], map[], map[], 0)

  function ObsKey(observer: string, hash: string): string {
    observer + "|" + hash
  }

  // ---------------------------------------------------------------- one operation

  function NoteNodes(nodes: map<string, int>, ids: seq<string>, at: int): map<string, int> {
    if ids == [] then nodes
    else
      var before, id := NoteNodes(nodes, ids[..|ids| - 1], at), ids[|ids| - 1];
      if id == "" then before else before[Lower(id) := at]
  }

  function ObserversAfter(observers: map<string, Stat>, ev: Event, isNew: bool): map<string, Stat> {
    if ev.observerId == "" then observers
    else
      var o := if ev.observerId in observers then observers[ev.observerId] else Stat(ev.observerName, ev.at, 0, 0);
      observers[ev.observerId := Stat(if ev.observerName != "" then ev.observerName else o.name, o.firstSeen, ev.at,
                                      if isNew then o.observations + 1 else o.observations)]
  }

  predicate NewObservation(c: Counts, ev: Event) {
    ObsKey(ev.observerId, ev.hash) !in c.seenObs
  }

  predicate NewPacket(c: Counts, ev: Event) {
    ev.hash != "" && ev.hash !in c.seenHash
  }

  function CountType(types: map<string, nat>, t: string): map<string, nat> {
    if t == "" then types else types[t := (if t in types then types[t] else 0) + 1]
  }

  /** Counter.Observe */
  function Observed(c: Counts, ev: Event): Counts {
    Counts(if NewObservation(c, ev) then c.observations + 1 else c.observations,
           if NewPacket(c, ev) then c.unique + 1 else c.unique,
           if ev.hash == "" then c.seenHash else c.seenHash[ev.hash := ev.at],
           c.seenObs[ObsKey(ev.observerId, ev.hash) := ev.at],
           ObserversAfter(c.observers, ev, NewObservation(c, ev)),
           NoteNodes(c.nodes, ev.nodes + [ev.observerId], ev.at),
           if NewPacket(c, ev) then CountType(c.payloadTypes, ev.payloadType) else c.payloadTypes,
           ev.at)
  }

  function Active(observers: map<string, Stat>, now: int, ttl: int): map<string, Stat> {
    map k | k in observers && !(now - observers[k].lastSeen > ttl) :: observers[k]
  }

  /** Counter.sweep */
  function Swept(c: Counts, now: int, window: int, ttl: int): Counts {
    c.(seenHash := Kept(c.seenHash, now, window), seenObs := Kept(c.seenObs, now, window),
       observers := Active(c.observers, now, ttl),
       nodes := Kept(c.nodes, now, ttl))
  }

  /** The durable form of a counter. */
  datatype Saved = Saved(observations: nat, unique: nat, lastPacket: int, payloadTypes: map<string, nat>,
                         observers: map<string, int>, nodes: map<string, int>)

  function Exported(c: Counts): Saved {
    Saved(c.observations, c.unique, c.lastPacket, c.payloadTypes,
          map k | k in c.observers :: c.observers[k].lastSeen, c.nodes)
  }

  function TakenOver(live: map<string, Stat>, saved: map<string, int>): map<string, Stat> {
    map k | k in live.Keys + saved.Keys :: if k in live then live[k] else Stat("", saved[k], saved[k], 0)
  }

  lemma TakeOneMore(live: map<string, Stat>, saved: map<string, int>, some: map<string, int>, k: string)
    requires k in saved && k !in some
    ensures var all := some[k := saved[k]];
            && TakenOver(live, all)
               == (if k in live then TakenOver(live, some)
                   else TakenOver(live, some)[k := Stat("", saved[k], saved[k], 0)])
            && (k in TakenOver(live, some) <==> k in live)
  {
  }

  /** Counter.Restore */
  function Restored(c: Counts, s: Saved): Counts {
    c.(observations := s.observations, unique := s.unique,
       lastPacket := if s.lastPacket > c.lastPacket then s.lastPacket else c.lastPacket,
       payloadTypes := c.payloadTypes + s.payloadTypes,
       observers := TakenOver(c.observers, s.observers),
       nodes := c.nodes + s.nodes)
  }

  /** A restart keeps the totals and the gauges, and starts with nothing to deduplicate. */
  lemma RestartKeepsTotals(c: Counts)
    requires c.lastPacket >= 0
    ensures var r := Restored(EMPTY, Exported(c));
            && r.observations == c.observations && r.unique == c.unique && r.lastPacket == c.lastPacket
            && r.payloadTypes == c.payloadTypes && r.nodes == c.nodes && r.observers.Keys == c.observers.Keys
            && r.seenHash == r.seenObs == map[] && Exported(r) == Exported(c)
            && forall k :: k in c.observers ==> r.observers[k].lastSeen == c.observers[k].lastSeen
  {
    var r := Restored(EMPTY, Exported(c));
    assert Exported(r).observers == Exported(c).observers;
  }

  /** A restore replaces the totals, keeps the observers that are live, and takes over the
      persisted entry of every node and payload type that has one. */
  lemma RestoreOverLive(c: Counts, s: Saved)
    ensures var r := Restored(c, s);
            && r.observations == s.observations && r.unique == s.unique
            && r.lastPacket >= c.lastPacket && r.lastPacket >= s.lastPacket
            && (r.lastPacket == c.lastPacket || r.lastPacket == s.lastPacket)
            && r.seenHash == c.seenHash && r.seenObs == c.seenObs
            && (forall k :: k in r.observers <==> k in c.observers || k in s.observers)
            && (forall k :: k in c.observers ==> r.observers[k] == c.observers[k])
            && (forall k :: k in s.observers && k !in c.observers ==>
                  r.observers[k] == Stat("", s.observers[k], s.observers[k], 0))
            && (forall k :: k in r.nodes <==> k in c.nodes || k in s.nodes)
            && (forall k :: k in r.nodes ==> r.nodes[k] == if k in s.nodes then s.nodes[k] else c.nodes[k])
            && (forall t :: t in r.payloadTypes <==> t in c.payloadTypes || t in s.payloadTypes)
            && (forall t :: t in r.payloadTypes ==>
                  r.payloadTypes[t] == if t in s.payloadTypes then s.payloadTypes[t] else c.payloadTypes[t])
  {
  }

  // ---------------------------------------------------------------- runs

  datatype Op = Observe(ev: Event) | Sweep(now: int, window: int, ttl: int)

  function Apply(c: Counts, op: Op): Counts {
    match op
    case Observe(ev) => Observed(c, ev)
    case Sweep(now, window, ttl) => Swept(c, now, window, ttl)
  }

  function Run(c: Counts, ops: seq<Op>): Counts {
    if ops == [] then c else Apply(Run(c, ops[..|ops| - 1]), ops[|ops| - 1])
  }

  /** The time of the latest observation. Sweeps do not move it: one that read its time early
      may run after later observations. */
  function Clock(ops: seq<Op>): int {
    if ops == [] then 0
    else
      var last := ops[|ops| - 1];
      if last.Observe? then last.ev.at else Clock(ops[..|ops| - 1])
  }

  /** The times of the observations never go back. */
  ghost predicate Timely(ops: seq<Op>) {
    ops != [] ==> Timely(ops[..|ops| - 1]) && Clock(ops[..|ops| - 1]) <= Clock(ops)
  }

  /** Every packet of the run has its hash in `hashes`. */
  ghost predicate HashesIn(ops: seq<Op>, hashes: set<string>) {
    forall i :: 0 <= i < |ops| && ops[i].Observe? ==> ops[i].ev.hash in hashes
  }

  // ---------------------------------------------------------------- the two layers

  predicate EndsWith(s: string, t: string) {
    |t| <= |s| && s[|s| - |t|..] == t
  }

  /** One of the hashes ends with a bar and another one of them. */
  ghost predicate Clash(hashes: set<string>) {
    exists h, k :: h in hashes && k in hashes && EndsWith(h, "|" + k)
  }

  /** Exactly when two observer and hash pairs share a key. */
  lemma SharedKey(i: string, h: string, j: string, k: string)
    ensures ObsKey(i, h) == ObsKey(j, k) <==>
              || (i == j && h == k)
              || (EndsWith(h, "|" + k) && j == i + "|" + h[..|h| - |k| - 1])
              || (EndsWith(k, "|" + h) && i == j + "|" + k[..|k| - |h| - 1])
  {
    if ObsKey(i, h) == ObsKey(j, k) {
      if |h| > |k| {
        KeyOverlap(i, h, j, k);
      } else if |h| < |k| {
        KeyOverlap(j, k, i, h);
      } else {
        KeySplit(i, h, j, k);
      }
    }
    if EndsWith(h, "|" + k) && j == i + "|" + h[..|h| - |k| - 1] {
      assert h == h[..|h| - |k| - 1] + ("|" + k);
    }
    if EndsWith(k, "|" + h) && i == j + "|" + k[..|k| - |h| - 1] {
      assert k == k[..|k| - |h| - 1] + ("|" + h);
    }
  }

  lemma KeySplit(i: string, h: string, j: string, k: string)
    requires ObsKey(i, h) == ObsKey(j, k) && |h| == |k|
    ensures i == j && h == k
  {
    assert ObsKey(i, h)[..|i|] == i && ObsKey(j, k)[..|i|] == j;
    assert ObsKey(i, h)[|i| + 1..] == h && ObsKey(j, k)[|i| + 1..] == k;
  }

  lemma KeyOverlap(i: string, h: string, j: string, k: string)
    requires ObsKey(i, h) == ObsKey(j, k) && |h| > |k|
    ensures EndsWith(h, "|" + k) && j == i + "|" + h[..|h| - |k| - 1]
  {
    var s, m := ObsKey(i, h), |h| - |k| - 1;
    assert |j| == |i| + 1 + m;
    assert s[|i| + 1..] == h && s[|j|..] == "|" + k;
    assert h[m..] == s[|j|..];
    assert s[..|j|] == j && s[..|j|] == i + "|" + h[..m];
  }

  /** Without a bar in them, hashes never clash. */
  lemma BarFreeHashesDoNotClash(hashes: set<string>)
    requires forall h :: h in hashes ==> '|' !in h
    ensures !Clash(hashes)
  {
    if h, k :| h in hashes && k in hashes && EndsWith(h, "|" + k) {
      BarInside(h, k);
    }
  }

  lemma BarInside(h: string, k: string)
    requires EndsWith(h, "|" + k)
    ensures '|' in h
  {
    assert h[|h| - |k| - 1] == h[|h| - |k| - 1..][0] == '|';
  }

  /** The remembered observation `key` is one of a remembered packet, refreshed at least as
      recently. */
  ghost predicate Backed(c: Counts, hashes: set<string>, key: string)
    requires key in c.seenObs
  {
    exists i, h :: h in hashes && key == ObsKey(i, h) &&
                   (h == "" || (h in c.seenHash && c.seenObs[key] <= c.seenHash[h]))
  }

  ghost predicate Layered(c: Counts, hashes: set<string>, clock: int) {
    && (forall key {:trigger Backed(c, hashes, key)} :: key in c.seenObs ==> Backed(c, hashes, key))
    && (forall h {:trigger c.seenHash[h]} :: h in c.seenHash ==> c.seenHash[h] <= clock)
  }

  /** A new packet is always a new observation. */
  lemma NewPacketIsNewObservation(c: Counts, ev: Event, hashes: set<string>, clock: int)
    requires Layered(c, hashes, clock) && !Clash(hashes) && ev.hash in hashes
    ensures NewPacket(c, ev) ==> NewObservation(c, ev)
  {
    var key := ObsKey(ev.observerId, ev.hash);
    if NewPacket(c, ev) && key in c.seenObs {
      assert Backed(c, hashes, key);
      var i, h :| h in hashes && key == ObsKey(i, h) && (h == "" || h in c.seenHash);
      SharedKey(i, h, ev.observerId, ev.hash);
      assert false;
    }
  }

  lemma ObserveKeepsLayered(c: Counts, ev: Event, hashes: set<string>, clock: int)
    requires Layered(c, hashes, clock) && ev.hash in hashes && clock <= ev.at
    ensures Layered(Observed(c, ev), hashes, ev.at)
  {
    var c' := Observed(c, ev);
    forall key | key in c'.seenObs ensures Backed(c', hashes, key) {
      if key != ObsKey(ev.observerId, ev.hash) {
        assert Backed(c, hashes, key);
      }
    }
  }

  lemma SweepKeepsLayered(c: Counts, now: int, window: int, ttl: int, hashes: set<string>, clock: int)
    requires Layered(c, hashes, clock)
    ensures Layered(Swept(c, now, window, ttl), hashes, clock)
  {
    var c' := Swept(c, now, window, ttl);
    forall key | key in c'.seenObs ensures Backed(c', hashes, key) {
      assert Backed(c, hashes, key);
    }
  }

  /** When observations come in order of time, each remembered observation keeps its packet
      remembered, at least as recently, so that a new packet is always a new observation. */
  lemma {:induction false} RememberedPairsAreLayered(c: Counts, ops: seq<Op>, hashes: set<string>)
    requires c.seenHash == c.seenObs == map[] && Timely(ops) && HashesIn(ops, hashes)
    ensures Layered(Run(c, ops), hashes, Clock(ops))
  {
    if ops != [] {
      var init, last := ops[..|ops| - 1], ops[|ops| - 1];
      RememberedPairsAreLayered(c, init, hashes);
      match last
      case Observe(ev) => ObserveKeepsLayered(Run(c, init), ev, hashes, Clock(init));
      case Sweep(now, window, ttl) => SweepKeepsLayered(Run(c, init), now, window, ttl, hashes, Clock(init));
    }
  }

  // ---------------------------------------------------------------- the totals, whatever the clock

  ghost predicate Ordered(c: Counts) {
    Total(c.payloadTypes) <= c.unique <= c.observations
  }

  /** A key ends with the bar and its hash. */
  const NAMES := (key: string, h: string) => EndsWith(key, "|" + h)

  /** Without a clash, an observation's key names no other hash. */
  lemma KeyNames(observer: string, h: string, e: string, hashes: set<string>)
    requires !Clash(hashes) && h in hashes && e in hashes
    ensures NAMES(ObsKey(observer, h), e) <==> e == h
  {
    var key := ObsKey(observer, h);
    if NAMES(key, e) {
      var other := key[..|key| - |e| - 1];
      assert key == other + ("|" + e) == ObsKey(other, e);
      SharedKey(observer, h, other, e);
    } else {
      assert key[|observer|..] == "|" + h;
    }
  }

  /** Every remembered packet dates from its latest observation, which is remembered too; and
      what was counted but is forgotten is no more packets than observations. */
  ghost predicate Grounded(c: Counts, hashes: set<string>) {
    && c.seenHash.Keys <= hashes && "" !in c.seenHash
    && (forall key {:trigger KeyOf(key, hashes)} :: key in c.seenObs ==> KeyOf(key, hashes))
    && Anchored(c.seenHash, c.seenObs, NAMES)
    && Total(c.payloadTypes) <= c.unique
    && c.unique + |c.seenObs| <= c.observations + |c.seenHash|
  }

  ghost predicate KeyOf(key: string, hashes: set<string>) {
    exists i, h :: h in hashes && key == ObsKey(i, h)
  }

  lemma NamesOnce(c: Counts, hashes: set<string>)
    requires Grounded(c, hashes) && !Clash(hashes)
    ensures Single(c.seenHash, c.seenObs, NAMES)
  {
    forall key, d, e | key in c.seenObs && d in c.seenHash && e in c.seenHash && NAMES(key, d) && NAMES(key, e)
      ensures d == e
    {
      assert KeyOf(key, hashes);
      var i, h :| h in hashes && key == ObsKey(i, h);
      KeyNames(i, h, d, hashes);
      KeyNames(i, h, e, hashes);
    }
  }

  lemma GroundedIsOrdered(c: Counts, hashes: set<string>)
    requires Grounded(c, hashes) && !Clash(hashes)
    ensures Ordered(c)
  {
    NamesOnce(c, hashes);
    AnchoredCount(c.seenHash, c.seenObs, NAMES);
  }

  lemma ObserveKeepsAnchored(c: Counts, ev: Event, hashes: set<string>)
    requires Grounded(c, hashes) && !Clash(hashes) && ev.hash in hashes
    ensures Anchored(Observed(c, ev).seenHash, Observed(c, ev).seenObs, NAMES)
  {
    var key := ObsKey(ev.observerId, ev.hash);
    KeyNames(ev.observerId, ev.hash, ev.hash, hashes);
    forall e | e in c.seenHash ensures NAMES(key, e) ==> e == ev.hash {
      KeyNames(ev.observerId, ev.hash, e, hashes);
    }
    if ev.hash == "" {
      NoteFine(c.seenHash, c.seenObs, NAMES, key, ev.at);
    } else {
      NoteAnchored(c.seenHash, c.seenObs, NAMES, ev.hash, key, ev.at);
    }
  }

  lemma ObserveKeepsGrounded(c: Counts, ev: Event, hashes: set<string>)
    requires Grounded(c, hashes) && !Clash(hashes) && ev.hash in hashes
    ensures Grounded(Observed(c, ev), hashes)
  {
    ObserveKeepsAnchored(c, ev, hashes);
    hide Anchored, EndsWith, ObserversAfter, NoteNodes, ObsKey, Clash;
    TypesCounted(c.payloadTypes, ev.payloadType);
    assert KeyOf(ObsKey(ev.observerId, ev.hash), hashes);
  }

  lemma TypesCounted(types: map<string, nat>, t: string)
    ensures Total(CountType(types, t)) <= Total(types) + 1
  {
    TotalSet(types, t, (if t in types then types[t] else 0) + 1);
  }

  lemma SweepKeepsGrounded(c: Counts, now: int, window: int, ttl: int, hashes: set<string>)
    requires Grounded(c, hashes) && !Clash(hashes)
    ensures Grounded(Swept(c, now, window, ttl), hashes)
  {
    NamesOnce(c, hashes);
    hide Anchored, Clash, Active;
    SweepAnchored(c.seenHash, c.seenObs, NAMES, now, window);
  }

  lemma {:induction false} TotalsStayGrounded(c: Counts, ops: seq<Op>, hashes: set<string>)
    requires c.seenHash == c.seenObs == map[] && Ordered(c) && HashesIn(ops, hashes) && !Clash(hashes)
    ensures Grounded(Run(c, ops), hashes)
  {
    if ops != [] {
      var init, last := ops[..|ops| - 1], ops[|ops| - 1];
      TotalsStayGrounded(c, init, hashes);
      hide Grounded, Observed, Swept, Clash;
      match last
      case Observe(ev) => ObserveKeepsGrounded(Run(c, init), ev, hashes);
      case Sweep(now, window, ttl) => SweepKeepsGrounded(Run(c, init), now, window, ttl, hashes);
    }
  }

  /** Over every run from a counter with nothing remembered, a new one or one just restored,
      the totals stay ordered, whatever times the observations and sweeps carry. */
  lemma TotalsStayOrdered(c: Counts, ops: seq<Op>, hashes: set<string>)
    requires c.seenHash == c.seenObs == map[] && Ordered(c) && HashesIn(ops, hashes) && !Clash(hashes)
    ensures Ordered(Run(c, ops))
  {
    TotalsStayGrounded(c, ops, hashes);
    GroundedIsOrdered(Run(c, ops), hashes);
  }

  ghost predicate Misordered(ops: seq<Op>, hashes: set<string>) {
    HashesIn(ops, hashes) && Run(EMPTY, ops).unique > Run(EMPTY, ops).observations
  }

  /** Two hashes that clash break the order: the second packet is new, its observation is
      taken for the first one's. An empty hash is no packet, but it keeps the observation
      alive when the packet is forgotten. */
  lemma ClashMisorders(hashes: set<string>, h: string, k: string)
    requires h in hashes && k in hashes && EndsWith(h, "|" + k)
    ensures exists ops :: Timely(ops) && Misordered(ops, hashes)
  {
    if k != "" {
      NewPacketMisorders(hashes, h, k);
    } else {
      EmptyHashMisorders(hashes, h);
    }
  }

  lemma NewPacketMisorders(hashes: set<string>, h: string, k: string)
    requires h in hashes && k in hashes && EndsWith(h, "|" + k) && k != ""
    ensures exists ops :: Timely(ops) && Misordered(ops, hashes)
  {
    var first := Event(h, "", "", "", [], 1);
    var second := Event(k, "|" + h[..|h| - |k| - 1], "", "", [], 1);
    SharedKey("", h, second.observerId, k);
    var one, two := [Observe(first)], [Observe(first), Observe(second)];
    RunFirst(Observe(first));
    RunSnoc(one, Observe(second), two);
    hide ObsKey, ObserversAfter, NoteNodes, EndsWith, Run, Timely, Clock;
    assert Timely(two) && Misordered(two, hashes);
  }

  lemma EmptyHashMisorders(hashes: set<string>, h: string)
    requires h in hashes && "" in hashes && EndsWith(h, "|")
    ensures exists ops :: Timely(ops) && Misordered(ops, hashes)
  {
    var first := Event(h, "", "", "", [], 1);
    var second := Event("", "|" + h[..|h| - 1], "", "", [], 3);
    assert "|" + "" == "|";
    SharedKey("", h, second.observerId, "");
    var x, y, z, x' := Observe(first), Observe(second), Sweep(3, 1, 0), Observe(first.(at := 3));
    RunFirst(x);
    RunSnoc([x], y, [x, y]);
    RunSnoc([x, y], z, [x, y, z]);
    RunSnoc([x, y, z], x', [x, y, z, x']);
    hide ObsKey, ObserversAfter, NoteNodes, EndsWith, Run, Timely, Clock;
    assert Timely([x, y, z, x']) && Misordered([x, y, z, x'], hashes);
  }

  /** A run and one more operation. */
  lemma RunSnoc(ops: seq<Op>, op: Op, all: seq<Op>)
    requires all == ops + [op]
    ensures Run(EMPTY, all) == Apply(Run(EMPTY, ops), op)
    ensures Clock(all) == if op.Observe? then op.ev.at else Clock(ops)
    ensures Timely(all) <==> Timely(ops) && (op.Observe? ==> Clock(ops) <= op.ev.at)
  {
    assert all[..|ops|] == ops && all[|ops|] == op;
    hide Apply;
  }

  lemma RunFirst(op: Op)
    requires op.Observe? && 0 <= op.ev.at
    ensures Run(EMPTY, [op]) == Apply(EMPTY, op) && Clock([op]) == op.ev.at && Timely([op])
  {
    assert Run(EMPTY, []) == EMPTY && Clock([]) == 0 && Timely([]);
    RunSnoc([], op, [op]);
  }

  /** So the totals of packets with these hashes are ordered in every run exactly when no
      hash ends with a bar and another one; otherwise even a run in order of time breaks it. */
  lemma OrderedIffNoClash(hashes: set<string>)
    ensures Clash(hashes) <==> exists ops :: Misordered(ops, hashes)
    ensures Clash(hashes) ==> exists ops :: Timely(ops) && Misordered(ops, hashes)
  {
    if Clash(hashes) {
      var h, k :| h in hashes && k in hashes && EndsWith(h, "|" + k);
      ClashMisorders(hashes, h, k);
    }
    forall ops | Misordered(ops, hashes) ensures Clash(hashes) {
      if !Clash(hashes) { TotalsStayOrdered(EMPTY, ops, hashes); }
    }
  }

  // ---------------------------------------------------------------- the counter itself

  class Counter {
    var observations: nat
    var unique: nat
    var seenHash: map<string, int>
    var seenObs: map<string, int>
    var observers: map<string, Stat>
    var nodes: map<string, int>
    var payloadTypes: map<string, nat>
    var lastPacket: int
    const rate: RateWindow

    ghost predicate Valid()
      reads rate, rate.buckets
    {
      rate.Valid()
    }

    ghost function Value(): Counts
      reads this
    {
      Counts(observations, unique, seenHash, seenObs, observers, nodes, payloadTypes, lastPacket)
    }

    /** All objects the counter is made of. */
    ghost function Parts(): set<object> {
      {this, rate, rate.buckets}
    }

    constructor ()
      ensures Valid() && Value() == EMPTY && rate.log == [] && fresh(Parts())
    {
      observations, unique, lastPacket := 0, 0, 0;
      seenHash, seenObs, observers, nodes, payloadTypes := map[], map[], map[], map[], map[];
      rate := new RateWindow();
    }

    /** Notes the nodes of an event: those on its path, and its observer. */
    method NoteAll(ev: Event)
      modifies this`nodes
      ensures nodes == NoteNodes(old(nodes), ev.nodes + [ev.observerId], ev.at)
    {
      for i := 0 to |ev.nodes|
        invariant nodes == NoteNodes(old(nodes), ev.nodes[..i], ev.at)
      {
        assert ev.nodes[..i + 1][..i] == ev.nodes[..i];
        var id := ev.nodes[i];
        if id != "" {
          nodes := nodes[Lower(id) := ev.at];
        }
      }
      assert ev.nodes[..|ev.nodes|] == ev.nodes;
      assert (ev.nodes + [ev.observerId])[..|ev.nodes|] == ev.nodes;
      if ev.observerId != "" {
        nodes := nodes[Lower(ev.observerId) := ev.at];
      }
    }

    /** The part of Observe about the observer. */
    method NoteObserver(ev: Event, obsSeen: bool)
      modifies this`observers
      ensures observers == ObserversAfter(old(observers), ev, !obsSeen)
    {
      if ev.observerId != "" {
        var o := if ev.observerId in observers then observers[ev.observerId] else Stat(ev.observerName, ev.at, 0, 0);
        if ev.observerName != "" {
          o := o.(name := ev.observerName);
        }
        o := o.(lastSeen := ev.at);
        if !obsSeen {
          o := o.(observations := o.observations + 1);
        }
        observers := observers[ev.observerId := o];
      }
    }

    /** The part of Observe about the packet. The rate counts new packets only. */
    method NotePacket(ev: Event)
      requires Valid() && 0 < ev.at
      modifies this`unique, this`payloadTypes, this`seenHash, rate, rate.buckets
      ensures Valid()
      ensures unique == if NewPacket(old(Value()), ev) then old(unique) + 1 else old(unique)
      ensures payloadTypes == if NewPacket(old(Value()), ev) then CountType(old(payloadTypes), ev.payloadType)
                              else old(payloadTypes)
      ensures seenHash == if ev.hash == "" then old(seenHash) else old(seenHash)[ev.hash := ev.at]
      ensures !NewPacket(old(Value()), ev) ==> rate.log == old(rate.log)
      ensures NewPacket(old(Value()), ev) ==> rate.log == old(rate.log) + [Slot(ev.at, rate.lastSec)]
    {
      if ev.hash != "" {
        if ev.hash !in seenHash {
          unique := unique + 1;
          rate.Add(ev.at);
          if ev.payloadType != "" {
            payloadTypes := payloadTypes[ev.payloadType :=
              (if ev.payloadType in payloadTypes then payloadTypes[ev.payloadType] else 0) + 1];
          }
        }
        seenHash := seenHash[ev.hash := ev.at];
      }
    }

    /** Counter.Observe */
    method Observe(ev: Event)
      requires Valid() && 0 < ev.at
      modifies this, rate, rate.buckets
      ensures Valid()
      ensures Value() == Observed(old(Value()), ev)
      ensures !NewPacket(old(Value()), ev) ==> rate.log == old(rate.log)
      ensures NewPacket(old(Value()), ev) ==> rate.log == old(rate.log) + [Slot(ev.at, rate.lastSec)]
    {
      hide ObserversAfter, NoteNodes, CountType, Slot;
      lastPacket := ev.at;
      NoteAll(ev);
      var obsKey := ev.observerId + "|" + ev.hash;
      var obsSeen := obsKey in seenObs;
      seenObs := seenObs[obsKey := ev.at];
      NoteObserver(ev, obsSeen);
      if !obsSeen {
        observations := observations + 1;
      }
      NotePacket(ev);
    }

    /** Counter.sweep */
    method Sweep(now: int, window: int, ttl: int)
      modifies this`seenHash, this`seenObs, this`observers, this`nodes
      ensures Value() == Swept(old(Value()), now, window, ttl)
    {
      hide Kept, Active;
      seenHash := DropOld(seenHash, now, window);
      seenObs := DropOld(seenObs, now, window);
      observers := DropIdle(observers, now, ttl);
      nodes := DropOld(nodes, now, ttl);
    }

    /** Deletes the observers that have been idle for more than `ttl`. */
    method DropIdle(observers: map<string, Stat>, now: int, ttl: int) returns (kept: map<string, Stat>)
      ensures kept == Active(observers, now, ttl)
    {
      kept := observers;
      var todo := observers.Keys;
      while todo != {}
        invariant todo <= observers.Keys
        invariant kept == map k | k in observers && (k in todo || !(now - observers[k].lastSeen > ttl)) :: observers[k]
        decreases |todo|
      {
        var k :| k in todo;
        todo := todo - {k};
        if now - observers[k].lastSeen > ttl {
          kept := kept - {k};
        }
      }
    }

    /** Deletes the entries of a table that are older than `keep`. */
    method DropOld(table: map<string, int>, now: int, keep: int) returns (kept: map<string, int>)
      ensures kept == Kept(table, now, keep)
    {
      kept := table;
      var todo := table.Keys;
      while todo != {}
        invariant todo <= table.Keys
        invariant kept == map k | k in table && (k in todo || !(now - table[k] > keep)) :: table[k]
        decreases |todo|
      {
        var k :| k in todo;
        todo := todo - {k};
        if now - table[k] > keep {
          kept := kept - {k};
        }
      }
    }

    /** Counter.Restore */
    method Restore(s: Saved)
      modifies this
      ensures Value() == Restored(old(Value()), s)
    {
      hide TakenOver;
      observations := s.observations;
      unique := s.unique;
      if s.lastPacket > lastPacket {
        lastPacket := s.lastPacket;
      }
      payloadTypes := payloadTypes + s.payloadTypes;
      observers := TakeOver(observers, s.observers);
      nodes := nodes + s.nodes;
    }

    /** Takes over the persisted observers that are not there yet. */
    method TakeOver(live: map<string, Stat>, saved: map<string, int>) returns (r: map<string, Stat>)
      ensures r == TakenOver(live, saved)
    {
      r := live;
      var keys := Enumerate(saved);
      ghost var some: map<string, int> := map[];
      assert TakenOver(live, some) == live;
      hide TakenOver, Firsts, Enumerates;
      FirstsEnds(keys, saved.Keys);
      for n := 0 to |keys|
        invariant some.Keys == Firsts(keys, n) && some.Keys <= saved.Keys
        invariant forall k :: k in some ==> some[k] == saved[k]
        invariant r == TakenOver(live, some)
      {
        var k := keys[n];
        FirstsNext(keys, saved.Keys, n);
        TakeOneMore(live, saved, some, k);
        if k !in r {
          r := r[k := Stat("", saved[k], saved[k], 0)];
        }
        some := some[k := saved[k]];
      }
      assert some == saved;
    }
  }
}
