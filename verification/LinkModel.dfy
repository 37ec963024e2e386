/** Observed links as values: the records, the deduplication tables, and what one locked
    section of links.go does to them. LinkRecord and LinkRegistry are proved against these
    functions, and the laws of links.go are proved about them. */
module LinkModel {
  import opened Keys

  const SNR_HISTORY_LIMIT := 5

  datatype Pos = Pos(lat: real, lon: real)

  /** The positions of both endpoints, in canonical order. */
  datatype Ends = Ends(a: Pos, b: Pos)

  const NOWHERE := Ends(Pos(0.0, 0.0), Pos(0.0, 0.0))

  /** Packets counted between one pair of positions: when the first and the last one came, and
      how many there were. */
  datatype Segment = Segment(ends: Ends, firstSeen: int, lastSeen: int, packetCount: nat)

  /** A network a link was observed through. */
  datatype Net = Net(id: string, firstSeen: int, lastSeen: int, packetCount: nat, dirAB: nat, dirBA: nat,
                     lastHashAB: string, lastHashBA: string, lowConf: nat)

  /** The aggregate of one link. */
  datatype Rec = Rec(key: LinkKey, nodeA: string, nodeB: string, packetCount: nat, firstSeen: int, lastSeen: int,
                     score: real, scoreAt: int, networks: seq<Net>, dirAB: nat, dirBA: nat, lastHashAB: string,
                     lastHashBA: string, snrsAB: seq<real>, snrsBA: seq<real>, lowConf: nat, sources: map<string, nat>,
                     hasPos: bool, ends: Ends, segFirstSeen: int, segCount: nat, segments: seq<Segment>, dirty: bool)

  /** One adjacency to record. */
  datatype Obs = Obs(key: LinkKey, fromIsA: bool, hash: string, networkId: string, routeType: string, now: int,
                     ends: Option<Ends>, snr: Option<real>, lowConf: bool)

  datatype DedupKey = DedupKey(hash: string, key: LinkKey, fromIsA: bool)

  datatype NetDedupKey = NetDedupKey(event: DedupKey, networkId: string)

  /** The registry's tables, over all shards. */
  datatype State = State(links: map<LinkKey, Rec>, dedup: map<DedupKey, int>, netDedup: map<NetDedupKey, int>)

  /** `retain` is the share of a score left after one second: 2^(-1/halfLife), or 1 when
      scores do not decay. `far` says that two positions are more than the position
      epsilon apart. */
  datatype Config = Config(retain: real, far: (Pos, Pos) -> bool)

  ghost predicate ConfigOk(cfg: Config) {
    0.0 < cfg.retain <= 1.0
  }

  // ---------------------------------------------------------------- scores

  function Pow(r: real, n: nat): real {
    if n == 0 then 1.0 else r * Pow(r, n - 1)
  }

  /** A score last updated at `at`, decayed to `now`. */
  function DecayedScore(score: real, at: int, now: int, retain: real): real {
    if at == 0 then score
    else if now > at then score * Pow(retain, now - at)
    else score
  }

  function CombinedScore(a: real, aAt: int, b: real, bAt: int, retain: real): real {
    if bAt > aAt then DecayedScore(a, aAt, bAt, retain) + b
    else a + DecayedScore(b, bAt, aAt, retain)
  }

  // ---------------------------------------------------------------- one record

  function NewRec(o: Obs): Rec {
    Rec(o.key, HexOf(o.key.a), HexOf(o.key.b), 0, o.now, 0, 0.0, o.now, [], 0, 0, "", "", [], [], 0, map[],
        false, NOWHERE, 0, 0, [], false)
  }

  function AddNetwork(nets: seq<Net>, id: string, now: int): seq<Net> {
    if nets == [] then [Net(id, now, now, 0, 0, 0, "", "", 0)]
    else if nets[0].id == id then [nets[0].(lastSeen := now)] + nets[1..]
    else [nets[0]] + AddNetwork(nets[1..], id, now)
  }

  function CountNet(n: Net, o: Obs): Net {
    var low := if o.lowConf then n.lowConf + 1 else n.lowConf;
    if o.fromIsA then n.(packetCount := n.packetCount + 1, dirAB := n.dirAB + 1, lastHashAB := o.hash, lowConf := low)
    else n.(packetCount := n.packetCount + 1, dirBA := n.dirBA + 1, lastHashBA := o.hash, lowConf := low)
  }

  function CountNetwork(nets: seq<Net>, o: Obs): seq<Net> {
    if nets == [] then []
    else if nets[0].id == o.networkId then [CountNet(nets[0], o)] + nets[1..]
    else [nets[0]] + CountNetwork(nets[1..], o)
  }

  predicate Moved(was: Ends, now: Ends, far: (Pos, Pos) -> bool) {
    far(was.a, now.a) || far(was.b, now.b)
  }

  /** The live position segment, frozen. */
  function Freeze(rec: Rec): Segment {
    Segment(rec.ends, rec.segFirstSeen, rec.lastSeen, rec.segCount)
  }

  function UpdatePosition(rec: Rec, ends: Ends, now: int, far: (Pos, Pos) -> bool): Rec {
    if !rec.hasPos then
      rec.(hasPos := true, ends := ends, segFirstSeen := now, segCount := 1)
    else if Moved(rec.ends, ends, far) then
      rec.(segments := rec.segments + [Freeze(rec)], ends := ends, segFirstSeen := now, segCount := 1)
    else
      rec.(segCount := rec.segCount + 1)
  }

  function DecayTo(rec: Rec, now: int, retain: real): Rec {
    rec.(score := DecayedScore(rec.score, rec.scoreAt, now, retain), scoreAt := now)
  }

  function AppendCapped(vals: seq<real>, v: real): seq<real> {
    var all := vals + [v];
    if |all| <= SNR_HISTORY_LIMIT then all else all[|all| - SNR_HISTORY_LIMIT..]
  }

  function Bump(counts: map<string, nat>, k: string, n: nat): map<string, nat> {
    counts[k := (if k in counts then counts[k] else 0) + n]
  }

  function SourceOf(o: Obs): string {
    if o.routeType == "" then "unknown" else o.routeType
  }

  /** The direction-dependent part of a counted event. */
  function CountDirection(rec: Rec, o: Obs): Rec {
    if o.fromIsA then
      rec.(dirAB := rec.dirAB + 1, lastHashAB := o.hash,
           snrsAB := if o.snr.Some? then AppendCapped(rec.snrsAB, o.snr.value) else rec.snrsAB)
    else
      rec.(dirBA := rec.dirBA + 1, lastHashBA := o.hash,
           snrsBA := if o.snr.Some? then AppendCapped(rec.snrsBA, o.snr.value) else rec.snrsBA)
  }

  /** The position part of a counted event. */
  function PlaceEvent(rec: Rec, o: Obs, far: (Pos, Pos) -> bool): Rec {
    if o.ends.Some? then UpdatePosition(rec, o.ends.value, o.now, far) else rec
  }

  /** The counter and score part of a counted event. */
  function ScoreEvent(rec: Rec, o: Obs, retain: real): Rec {
    var r := DecayTo(rec, o.now, retain);
    r.(packetCount := r.packetCount + 1, lastSeen := o.now, score := r.score + 1.0,
       lowConf := if o.lowConf then r.lowConf + 1 else r.lowConf)
  }

  /** A globally counted event. */
  function CountEvent(rec: Rec, o: Obs, cfg: Config): Rec {
    var r := CountDirection(ScoreEvent(PlaceEvent(rec, o, cfg.far), o, cfg.retain), o);
    r.(sources := Bump(r.sources, SourceOf(o), 1), dirty := true)
  }

  /** The position part touches the geometry only. */
  lemma PlacedFields(rec: Rec, o: Obs, far: (Pos, Pos) -> bool)
    ensures var r := PlaceEvent(rec, o, far);
            r == rec.(hasPos := r.hasPos, ends := r.ends, segFirstSeen := r.segFirstSeen, segCount := r.segCount,
                      segments := r.segments)
  {
  }

  /** The counter part touches counters, score and last sighting only. */
  lemma ScoredFields(rec: Rec, o: Obs, retain: real)
    ensures var r := ScoreEvent(rec, o, retain);
            && r == rec.(packetCount := r.packetCount, lastSeen := r.lastSeen, score := r.score, scoreAt := r.scoreAt,
                         lowConf := r.lowConf)
            && r.packetCount == rec.packetCount + 1 && r.lastSeen == o.now
            && r.lowConf == rec.lowConf + (if o.lowConf then 1 else 0)
            && r.scoreAt == o.now && r.score == DecayedScore(rec.score, rec.scoreAt, o.now, retain) + 1.0
  {
    hide DecayedScore;
  }

  /** The direction part touches one direction only. */
  lemma DirectedFields(rec: Rec, o: Obs)
    ensures var r := CountDirection(rec, o);
            if o.fromIsA then
              && r == rec.(dirAB := r.dirAB, lastHashAB := r.lastHashAB, snrsAB := r.snrsAB)
              && r.dirAB == rec.dirAB + 1 && r.lastHashAB == o.hash
              && r.snrsAB == (if o.snr.Some? then AppendCapped(rec.snrsAB, o.snr.value) else rec.snrsAB)
            else
              && r == rec.(dirBA := r.dirBA, lastHashBA := r.lastHashBA, snrsBA := r.snrsBA)
              && r.dirBA == rec.dirBA + 1 && r.lastHashBA == o.hash
              && r.snrsBA == (if o.snr.Some? then AppendCapped(rec.snrsBA, o.snr.value) else rec.snrsBA)
  {
    hide AppendCapped;
  }

  /** A counted event, field by field. */
  lemma CountedFields(rec: Rec, o: Obs, cfg: Config)
    ensures var r, p := CountEvent(rec, o, cfg), PlaceEvent(rec, o, cfg.far);
            && r.key == rec.key && r.nodeA == rec.nodeA && r.nodeB == rec.nodeB && r.networks == rec.networks
            && r.packetCount == rec.packetCount + 1 && r.firstSeen == rec.firstSeen && r.lastSeen == o.now && r.dirty
            && r.lowConf == rec.lowConf + (if o.lowConf then 1 else 0)
            && r.scoreAt == o.now && r.score == DecayedScore(rec.score, rec.scoreAt, o.now, cfg.retain) + 1.0
            && r.sources == Bump(rec.sources, SourceOf(o), 1)
            && r.hasPos == p.hasPos && r.ends == p.ends && r.segFirstSeen == p.segFirstSeen && r.segCount == p.segCount
            && r.segments == p.segments
    ensures var r := CountEvent(rec, o, cfg);
            if o.fromIsA then
              && r.dirAB == rec.dirAB + 1 && r.lastHashAB == o.hash
              && r.snrsAB == (if o.snr.Some? then AppendCapped(rec.snrsAB, o.snr.value) else rec.snrsAB)
              && r.dirBA == rec.dirBA && r.lastHashBA == rec.lastHashBA && r.snrsBA == rec.snrsBA
            else
              && r.dirBA == rec.dirBA + 1 && r.lastHashBA == o.hash
              && r.snrsBA == (if o.snr.Some? then AppendCapped(rec.snrsBA, o.snr.value) else rec.snrsBA)
              && r.dirAB == rec.dirAB && r.lastHashAB == rec.lastHashAB && r.snrsAB == rec.snrsAB
  {
    hide PlaceEvent, ScoreEvent, CountDirection, DecayedScore, AppendCapped, Bump;
    var placed := PlaceEvent(rec, o, cfg.far);
    var scored := ScoreEvent(placed, o, cfg.retain);
    PlacedFields(rec, o, cfg.far);
    ScoredFields(placed, o, cfg.retain);
    DirectedFields(scored, o);
  }

  /** The network part of an observation: the association is always refreshed, the
      network's counters only for an event new to that network. */
  function TouchNetwork(rec: Rec, o: Obs, isNew: bool): Rec {
    if o.networkId == "" then rec
    else
      var nets := AddNetwork(rec.networks, o.networkId, o.now);
      rec.(networks := if isNew then CountNetwork(nets, o) else nets, dirty := true)
  }

  // ---------------------------------------------------------------- one locked section

  function EventOf(o: Obs): DedupKey {
    DedupKey(o.hash, o.key, o.fromIsA)
  }

  function NetEventOf(o: Obs): NetDedupKey {
    NetDedupKey(EventOf(o), o.networkId)
  }

  predicate CountsGlobally(st: State, o: Obs) {
    EventOf(o) !in st.dedup
  }

  predicate CountsForNetwork(st: State, o: Obs) {
    o.networkId != "" && NetEventOf(o) !in st.netDedup
  }

  function RecordOf(st: State, o: Obs): Rec {
    if o.key in st.links then st.links[o.key] else NewRec(o)
  }

  function ObservedRec(rec: Rec, o: Obs, countsNet: bool, counts: bool, cfg: Config): Rec {
    var touched := TouchNetwork(rec, o, countsNet);
    if counts then CountEvent(touched, o, cfg) else touched
  }

  /** observeLink */
  function ObserveLink(st: State, o: Obs, cfg: Config): State {
    State(st.links[o.key := ObservedRec(RecordOf(st, o), o, CountsForNetwork(st, o), CountsGlobally(st, o), cfg)],
          st.dedup[EventOf(o) := o.now],
          if o.networkId == "" then st.netDedup else st.netDedup[NetEventOf(o) := o.now])
  }

  function ObserveAll(st: State, obs: seq<Obs>, cfg: Config): State {
    if obs == [] then st
    else ObserveLink(ObserveAll(st, obs[..|obs| - 1], cfg), obs[|obs| - 1], cfg)
  }

  /** The sweep of one shard. */
  function SweepShard(st: State, shard: nat, now: int, window: int): State {
    State(st.links,
          map k | k in st.dedup && !(ShardOf(k.key) == shard && now - st.dedup[k] > window) :: st.dedup[k],
          map k | k in st.netDedup && !(ShardOf(k.event.key) == shard && now - st.netDedup[k] > window)
            :: st.netDedup[k])
  }

  // ---------------------------------------------------------------- restore

  function AppendCappedAll(vals: seq<real>, add: seq<real>): seq<real>
    decreases add
  {
    if add == [] then vals else AppendCappedAll(AppendCapped(vals, add[0]), add[1..])
  }

  function MergeSnrs(existing: seq<real>, restored: seq<real>, restoredNewer: bool): seq<real> {
    if restoredNewer then AppendCappedAll(existing, restored)
    else
      var all := restored + existing;
      if |all| <= SNR_HISTORY_LIMIT then all else all[|all| - SNR_HISTORY_LIMIT..]
  }

  /** The earlier of two first sightings; 0 stands for none. */
  function MergeFirst(existing: int, restored: int): int {
    if existing == 0 || (restored > 0 && restored < existing) then restored else existing
  }

  function Later(x: int, y: int): int {
    if y > x then y else x
  }

  function MergeHash(existing: string, restored: string, restoredNewer: bool): string {
    if restoredNewer && restored != "" then restored else existing
  }

  function MergeNet(e: Net, n: Net): Net {
    var newer := n.lastSeen >= e.lastSeen;
    Net(e.id, MergeFirst(e.firstSeen, n.firstSeen), Later(e.lastSeen, n.lastSeen), e.packetCount + n.packetCount,
        e.dirAB + n.dirAB, e.dirBA + n.dirBA, MergeHash(e.lastHashAB, n.lastHashAB, newer),
        MergeHash(e.lastHashBA, n.lastHashBA, newer), e.lowConf + n.lowConf)
  }

  function MergeNetwork(nets: seq<Net>, n: Net): seq<Net> {
    if nets == [] then [n]
    else if nets[0].id == n.id then [MergeNet(nets[0], n)] + nets[1..]
    else [nets[0]] + MergeNetwork(nets[1..], n)
  }

  function MergeNetworks(nets: seq<Net>, add: seq<Net>): seq<Net> {
    if add == [] then nets else MergeNetwork(MergeNetworks(nets, add[..|add| - 1]), add[|add| - 1])
  }

  function MergeCounts(a: map<string, nat>, b: map<string, nat>): map<string, nat> {
    map k | k in a.Keys + b.Keys :: (if k in a then a[k] else 0) + (if k in b then b[k] else 0)
  }

  /** The live geometry stays current; the restored one becomes history, unless there is
      no live one. */
  function MergeGeometry(e: Rec, r: Rec): Rec {
    var past := e.segments + r.segments;
    if !r.hasPos then e.(segments := past)
    else if e.hasPos then e.(segments := past + [Freeze(r)])
    else e.(segments := past, hasPos := true, ends := r.ends, segFirstSeen := r.segFirstSeen, segCount := r.segCount)
  }

  function MergeCounters(e: Rec, r: Rec, retain: real): Rec {
    e.(packetCount := e.packetCount + r.packetCount,
       dirAB := e.dirAB + r.dirAB,
       dirBA := e.dirBA + r.dirBA,
       lowConf := e.lowConf + r.lowConf,
       firstSeen := MergeFirst(e.firstSeen, r.firstSeen),
       lastSeen := Later(e.lastSeen, r.lastSeen),
       score := CombinedScore(e.score, e.scoreAt, r.score, r.scoreAt, retain),
       scoreAt := Later(e.scoreAt, r.scoreAt))
  }

  function MergeTraces(e: Rec, r: Rec, newer: bool): Rec {
    e.(lastHashAB := MergeHash(e.lastHashAB, r.lastHashAB, newer),
       lastHashBA := MergeHash(e.lastHashBA, r.lastHashBA, newer),
       snrsAB := MergeSnrs(e.snrsAB, r.snrsAB, newer),
       snrsBA := MergeSnrs(e.snrsBA, r.snrsBA, newer))
  }

  /** mergeRestoredLink */
  function MergeRestored(e: Rec, r: Rec, cfg: Config): Rec {
    var counted := MergeCounters(e, r, cfg.retain).(networks := MergeNetworks(e.networks, r.networks));
    var traced := MergeTraces(counted, r, r.lastSeen >= e.lastSeen).(sources := MergeCounts(e.sources, r.sources));
    MergeGeometry(traced, r)
  }

  /** A loaded record under its canonical key. */
  function Canonical(rec: Rec, key: LinkKey): Rec {
    rec.(key := key, nodeA := HexOf(key.a), nodeB := HexOf(key.b), dirty := false)
  }

  /** The restore of one loaded record. */
  function RestoreLink(st: State, rec: Rec, cfg: Config): State {
    var key := KeyFromPair(rec.nodeA, rec.nodeB);
    if key.None? then st
    else
      var r := Canonical(rec, key.value);
      st.(links := st.links[key.value := if key.value in st.links then MergeRestored(st.links[key.value], r, cfg)
                                         else r])
  }

  function RestoreAll(st: State, recs: seq<Rec>, cfg: Config): State {
    if recs == [] then st
    else RestoreLink(RestoreAll(st, recs[..|recs| - 1], cfg), recs[|recs| - 1], cfg)
  }

  // ---------------------------------------------------------------- persistence

  function SetDirty(links: map<LinkKey, Rec>, keys: set<LinkKey>, dirty: bool): map<LinkKey, Rec> {
    map k | k in links :: if k in keys then links[k].(dirty := dirty) else links[k]
  }

  function DirtyIn(st: State, shard: nat): set<LinkKey> {
    set k | k in st.links && ShardOf(k) == shard && st.links[k].dirty
  }

  /** The part of TakeDirty that runs under one shard's lock: the changed records are
      handed out and their flags cleared. */
  function TakeShard(st: State, shard: nat): State {
    st.(links := SetDirty(st.links, DirtyIn(st, shard), false))
  }

  /** The part of Requeue that runs for one record. */
  function RequeueLink(st: State, key: LinkKey): State {
    st.(links := SetDirty(st.links, {key}, true))
  }

  // ---------------------------------------------------------------- all shards, all records

  /** The tables after sweeping the first `n` shards. */
  function SweepUpTo(st: State, n: nat, now: int, window: int): State {
    if n == 0 then st else SweepShard(SweepUpTo(st, n - 1, now, window), n - 1, now, window)
  }

  /** The tables after taking the dirty records of the first `n` shards. */
  function TakeUpTo(st: State, n: nat): State {
    if n == 0 then st else TakeShard(TakeUpTo(st, n - 1), n - 1)
  }

  function RequeueAll(st: State, recs: seq<Rec>): State {
    if recs == [] then st else RequeueLink(RequeueAll(st, recs[..|recs| - 1]), recs[|recs| - 1].key)
  }
}
