/** The sharded link registry of links.go. */
module LinkRegistries {
  import opened Keys
  import opened Collections
  import opened LinkModel
  import opened LinkRecords
  import opened PathWalk
  import opened LinkViews
  import opened Routing
  import opened RouteSearch
  import opened LinkGraphs
  import opened LinkRoutes

  /** One shard's tables; the records are live objects. */
  datatype Shard = Shard(links: map<LinkKey, LinkRecord>, dedup: map<DedupKey, int>, netDedup: map<NetDedupKey, int>)

  // ---------------------------------------------------------------- what belongs in a shard

  ghost function LinksIn<V>(m: map<LinkKey, V>, i: nat): map<LinkKey, V> {
    map k | k in m && ShardOf(k) == i :: m[k]
  }

  ghost function EventsIn(m: map<DedupKey, int>, i: nat): map<DedupKey, int> {
    map d | d in m && ShardOf(d.key) == i :: m[d]
  }

  ghost function NetEventsIn(m: map<NetDedupKey, int>, i: nat): map<NetDedupKey, int> {
    map n | n in m && ShardOf(n.event.key) == i :: m[n]
  }

  /** The shard that holds exactly the entries whose link key selects it. */
  ghost function ShardOfTables(recs: map<LinkKey, LinkRecord>, dedup: map<DedupKey, int>,
                               netDedup: map<NetDedupKey, int>, i: nat): Shard
  {
    Shard(LinksIn(recs, i), EventsIn(dedup, i), NetEventsIn(netDedup, i))
  }

  lemma LinksInUpdate<V>(m: map<LinkKey, V>, k: LinkKey, v: V, i: nat)
    ensures LinksIn(m[k := v], i) == if ShardOf(k) == i then LinksIn(m, i)[k := v] else LinksIn(m, i)
  {
  }

  lemma EventsInUpdate(m: map<DedupKey, int>, d: DedupKey, t: int, i: nat)
    ensures EventsIn(m[d := t], i) == if ShardOf(d.key) == i then EventsIn(m, i)[d := t] else EventsIn(m, i)
  {
  }

  lemma NetEventsInUpdate(m: map<NetDedupKey, int>, n: NetDedupKey, t: int, i: nat)
    ensures NetEventsIn(m[n := t], i)
            == if ShardOf(n.event.key) == i then NetEventsIn(m, i)[n := t] else NetEventsIn(m, i)
  {
  }

  /** Every stored link sits under its own canonical key. */
  ghost predicate WellKeyed(links: map<LinkKey, Rec>) {
    && (forall k {:trigger links[k]} :: k in links ==> links[k].key == k)
    && (forall k {:trigger IsCanonical(k)} :: k in links ==> IsCanonical(k))
  }

  // ---------------------------------------------------------------- observeLink in three steps

  function LookupStep(st: State, o: Obs): State {
    st.(links := st.links[o.key := RecordOf(st, o)])
  }

  function NetworkStep(st: State, o: Obs): State
    requires o.key in st.links
  {
    st.(links := st.links[o.key := TouchNetwork(st.links[o.key], o, CountsForNetwork(st, o))],
        netDedup := st.netDedup[NetEventOf(o) := o.now])
  }

  function GlobalStep(st: State, o: Obs, cfg: Config): State
    requires o.key in st.links
  {
    st.(links := st.links[o.key := if CountsGlobally(st, o) then CountEvent(st.links[o.key], o, cfg)
        else st.links[o.key]],
        dedup := st.dedup[EventOf(o) := o.now])
  }

  lemma OverwriteEntry<K, V>(m: map<K, V>, k: K, x: V, y: V)
    ensures m[k := x][k := y] == m[k := y]
  {
  }

  lemma ObserveInSteps(st: State, o: Obs, cfg: Config)
    ensures var found := LookupStep(st, o);
            var noted := if o.networkId == "" then found else NetworkStep(found, o);
            o.key in found.links && o.key in noted.links && LinkModel.ObserveLink(st, o, cfg)
                == GlobalStep(noted, o, cfg)
  {
    hide LinkModel.CountEvent, LinkModel.AddNetwork, LinkModel.CountNetwork;
    var rec := RecordOf(st, o);
    var touched := TouchNetwork(rec, o, CountsForNetwork(st, o));
    var counted := ObservedRec(rec, o, CountsForNetwork(st, o), CountsGlobally(st, o), cfg);
    OverwriteEntry(st.links, o.key, rec, touched);
    OverwriteEntry(st.links, o.key, touched, counted);
  }

  function KeysOf(batch: seq<Rec>): set<LinkKey> {
    set r | r in batch :: r.key
  }

  /** `batch` holds the value of each link in `keys`, each once. */
  ghost predicate IsBatchOf(batch: seq<Rec>, links: map<LinkKey, Rec>, keys: set<LinkKey>) {
    && KeysOf(batch) == keys <= links.Keys
    && (forall r :: r in batch ==> r.key in links && r == links[r.key])
    && (forall i, j :: 0 <= i < j < |batch| ==> batch[i].key != batch[j].key)
  }

  lemma KeysOfConcat(a: seq<Rec>, b: seq<Rec>)
    ensures KeysOf(a + b) == KeysOf(a) + KeysOf(b)
  {
  }

  /** Batches of different links join up. */
  lemma JoinBatches(links: map<LinkKey, Rec>, a: seq<Rec>, ka: set<LinkKey>, b: seq<Rec>, kb: set<LinkKey>)
    requires IsBatchOf(a, links, ka) && IsBatchOf(b, links, kb) && ka !! kb
    ensures IsBatchOf(a + b, links, ka + kb)
  {
    KeysOfConcat(a, b);
    forall i, j | 0 <= i < |a| && 0 <= j < |b| ensures a[i].key != b[j].key {
      assert a[i] in a && b[j] in b;
      assert a[i].key in KeysOf(a) && b[j].key in KeysOf(b);
    }
  }

  lemma SingleBatch(links: map<LinkKey, Rec>, k: LinkKey)
    requires k in links && links[k].key == k
    ensures IsBatchOf([links[k]], links, {k})
  {
  }

  lemma ClearOneMore(links: map<LinkKey, Rec>, taken: set<LinkKey>, k: LinkKey)
    requires k in links && k !in taken
    ensures SetDirty(links, taken + {k}, false) == SetDirty(links, taken, false)[k := links[k].(dirty := false)]
  {
  }

  /** Deletes the entries of a table that are older than the window. */
  method DropOld<K>(table: map<K, int>, now: int, window: int) returns (kept: map<K, int>)
    ensures kept == map k | k in table && !(now - table[k] > window) :: table[k]
  {
    kept := table;
    var todo := table.Keys;
    while todo != {}
      invariant todo <= table.Keys
      invariant kept == map k | k in table && (k in todo || !(now - table[k] > window)) :: table[k]
      decreases |todo|
    {
      var k :| k in todo;
      todo := todo - {k};
      if now - table[k] > window {
        kept := kept - {k};
      }
    }
  }

  lemma SweepKeepsLinks(st: State, i: nat, now: int, window: int)
    ensures SweepShard(st, i, now, window).links == st.links
  {
  }

  /** Sweeping a shard leaves the others as they are. */
  lemma SweptShard(recs: map<LinkKey, LinkRecord>, st: State, i: nat, now: int, window: int)
    ensures forall j :: 0 <= j < LINK_SHARDS ==>
              var sh := ShardOfTables(recs, st.dedup, st.netDedup, j);
              var st' := SweepShard(st, i, now, window);
              ShardOfTables(recs, st'.dedup, st'.netDedup, j)
              == if j != i then sh
                 else sh.(dedup := map d | d in sh.dedup && !(now - sh.dedup[d] > window) :: sh.dedup[d],
                          netDedup := map n | n in sh.netDedup && !(now - sh.netDedup[n] > window) :: sh.netDedup[n])
  {
    var st' := SweepShard(st, i, now, window);
    forall j | 0 <= j < LINK_SHARDS
      ensures EventsIn(st'.dedup, j)
              == if j != i then EventsIn(st.dedup, j)
                 else map d | d in EventsIn(st.dedup, j) && !(now - EventsIn(st.dedup, j)[d] > window)
                        :: EventsIn(st.dedup, j)[d]
    {
    }
    forall j | 0 <= j < LINK_SHARDS
      ensures NetEventsIn(st'.netDedup, j)
              == if j != i then NetEventsIn(st.netDedup, j)
                 else map n | n in NetEventsIn(st.netDedup, j) && !(now - NetEventsIn(st.netDedup, j)[n] > window)
                        :: NetEventsIn(st.netDedup, j)[n]
    {
    }
  }

  /** The shards split the tables by link key. */
  ghost predicate ShardsAre(s: seq<Shard>, recs: map<LinkKey, LinkRecord>, dedup: map<DedupKey, int>,
                            netDedup: map<NetDedupKey, int>) {
    |s| == LINK_SHARDS && forall i :: 0 <= i < LINK_SHARDS ==> s[i] == ShardOfTables(recs, dedup, netDedup, i)
  }

  /** The live records hold the values in `links`. */
  ghost predicate RecordsLive(recs: map<LinkKey, LinkRecord>, repr: set<LinkRecord>, links: map<LinkKey, Rec>)
    reads repr
  {
    forall k {:trigger recs[k]} :: k in recs ==> recs[k] in repr && k in links && recs[k].data == links[k]
  }

  class LinkRegistry {
    const cfg: Config
    const pricing: Pricing
    const shards: array<Shard>
    var routeAdj: Option<Snapshot>
    ghost var st: State
    ghost var recs: map<LinkKey, LinkRecord>
    ghost var repr: set<LinkRecord>
    ghost var builtFrom: map<LinkKey, Rec> // the links the cached snapshot shows

    /** Every table entry sits in the shard its link key selects, and in no other. */
    ghost predicate ShardsHold(dedup: map<DedupKey, int>, netDedup: map<NetDedupKey, int>)
      reads this`recs, shards
    {
      ShardsAre(shards[..], recs, dedup, netDedup)
    }

    ghost predicate ShardsOk()
      reads this`st, this`recs, shards
    {
      ShardsHold(st.dedup, st.netDedup)
    }

    /** The live records are the model's records. */
    ghost predicate RecordsOk()
      reads this`st, this`recs, this`repr, repr
    {
      recs.Keys == st.links.Keys && RecordsLive(recs, repr, st.links)
    }

    ghost predicate Valid()
      reads this`st, this`recs, this`repr, shards, repr
    {
      ShardsOk() && RecordsOk() && WellKeyed(st.links)
    }

    /** The cached snapshot is the whole graph of the links it was built from. */
    ghost predicate CacheOk()
      reads this`routeAdj, this`builtFrom
    {
      routeAdj.Some? ==>
        && CanonicalKeys(builtFrom.Keys)
        && GraphOver(routeAdj.value.graph, builtFrom, builtFrom.Keys, routeAdj.value.builtAt, pricing)
    }

    /** The registry as the routing cache sees it. */
    ghost function Desk(): LinkGraphs.Desk
      reads this`st, this`routeAdj
    {
      LinkGraphs.Desk(st, routeAdj)
    }

    constructor (cfg: Config, exp: real -> real, log1p: real -> real)
      ensures Valid() && CacheOk() && st == State(map[], map[], map[]) && this.cfg == cfg
      ensures pricing == Pricing(exp, log1p, cfg.retain)
      ensures fresh(shards)
    {
      this.cfg := cfg;
      pricing := Pricing(exp, log1p, cfg.retain);
      routeAdj, builtFrom := None, map[];
      shards := new Shard[LINK_SHARDS](_ => Shard(map[], map[], map[]));
      st := State(map[], map[], map[]);
      recs, repr := map[], {};
    }

    /** Finds the record of a link, or stores a new one. */
    method RecordFor(o: Obs) returns (rec: LinkRecord)
      requires Valid() && IsCanonical(o.key)
      modifies this`st, this`recs, this`repr, shards
      ensures Valid() && fresh(repr - old(repr))
      ensures st == LookupStep(old(st), o)
      ensures o.key in recs && rec == recs[o.key]
    {
      hide Valid, IsCanonical;
      var i := ShardOf(o.key);
      StoredLink(i, o.key);
      if o.key in shards[i].links {
        rec := shards[i].links[o.key];
        SameEntry(st.links, o.key);
      } else {
        rec := Store(o.key, NewRec(o));
      }
    }

    /** The network part of observeLink. */
    method NoteNetwork(o: Obs, rec: LinkRecord)
      requires Valid() && o.networkId != "" && o.key in recs && rec == recs[o.key]
      modifies this`st, shards, rec
      ensures Valid()
      ensures st == NetworkStep(old(st), o)
    {
      LiveRecord(o.key);
      StoredNetEvents(ShardOf(o.key), NetEventOf(o));
      hide LinkModel.TouchNetwork, Valid;
      var ndk := NetEventOf(o);
      Touch(o, rec, ndk !in shards[ShardOf(o.key)].netDedup);
      NoteNetEvent(ndk, o.now);
    }

    /** Refreshes a link's network, and counts the event for it if it is new. */
    method Touch(o: Obs, rec: LinkRecord, isNew: bool)
      requires Valid() && o.networkId != "" && o.key in recs && rec == recs[o.key]
      modifies this`st, rec
      ensures Valid()
      ensures st == old(st).(links := old(st).links[o.key := TouchNetwork(old(st).links[o.key], o, isNew)])
    {
      hide LinkModel.TouchNetwork, Valid, ShardsHold, OthersAre, WellKeyed;
      OneRecord(o.key, rec);
      ghost var was := st;
      TouchNetworkKey(rec.data, o, isNew);
      rec.TouchNetwork(o, isNew);
      st := st.(links := st.links[o.key := rec.data]);
      RecordChanged(o.key, rec, was);
    }

    /** Notes when an event was last seen through a network, in the shard of its link. */
    method NoteNetEvent(ndk: NetDedupKey, now: int)
      requires Valid()
      modifies this`st, shards
      ensures Valid()
      ensures st == old(st).(netDedup := old(st).netDedup[ndk := now])
    {
      hide IsCanonical, LinksIn, EventsIn, NetEventsIn;
      NetEventStored(recs, st, ndk, now);
      var i := ShardOf(ndk.event.key);
      var sh := shards[i];
      shards[i] := sh.(netDedup := sh.netDedup[ndk := now]);
      st := st.(netDedup := st.netDedup[ndk := now]);
      assert ShardsOk();
    }

    lemma StoredNetEvents(i: nat, ndk: NetDedupKey)
      requires Valid() && i == ShardOf(ndk.event.key)
      ensures i < LINK_SHARDS && (ndk in shards[i].netDedup <==> ndk in st.netDedup)
    {
    }

    /** The global part of observeLink. */
    method NoteGlobal(o: Obs, rec: LinkRecord)
      requires Valid() && o.key in recs && rec == recs[o.key]
      modifies this`st, shards, rec
      ensures Valid()
      ensures st == GlobalStep(old(st), o, cfg)
    {
      LiveRecord(o.key);
      StoredEvents(ShardOf(o.key), EventOf(o));
      hide LinkModel.CountEvent, Valid;
      var i := ShardOf(o.key);
      var dk := EventOf(o);
      if dk !in shards[i].dedup {
        CountEventKey(rec.data, o, cfg);
        Count(o, rec);
      } else {
        SameEntry(st.links, o.key);
      }
      NoteEvent(dk, o.now); // also refreshes an actively reflooded packet
    }

    /** Counts an event on the record of its link. */
    method Count(o: Obs, rec: LinkRecord)
      requires Valid() && o.key in recs && rec == recs[o.key]
      modifies this`st, rec
      ensures Valid()
      ensures st == old(st).(links := old(st).links[o.key := CountEvent(old(st).links[o.key], o, cfg)])
    {
      hide LinkModel.CountEvent, Valid, ShardsHold, OthersAre, WellKeyed;
      OneRecord(o.key, rec);
      ghost var was := st;
      CountEventKey(rec.data, o, cfg);
      rec.CountEvent(o, cfg);
      st := st.(links := st.links[o.key := rec.data]);
      RecordChanged(o.key, rec, was);
    }

    /** The live records other than link `k`'s are those in `links`. */
    ghost predicate OthersAre(k: LinkKey, rec: LinkRecord, links: map<LinkKey, Rec>)
      reads this`recs, this`repr, repr - {rec}
    {
      forall x {:trigger recs[x]} :: x in recs && x != k ==>
        recs[x] in repr && recs[x] != rec && x in links && recs[x].data == links[x]
    }

    /** What an operation on one record may rely on. */
    lemma OneRecord(k: LinkKey, rec: LinkRecord)
      requires Valid() && k in recs && rec == recs[k]
      ensures rec in repr && k in st.links && rec.data == st.links[k] && rec.data.key == k
      ensures ShardsHold(st.dedup, st.netDedup) && OthersAre(k, rec, st.links)
      ensures WellKeyed(st.links) && recs.Keys == st.links.Keys
    {
      hide IsCanonical;
      assert recs[k] in repr;
      forall x | x in recs && x != k ensures recs[x] != rec {
        assert st.links[x].key == x && st.links[k].key == k;
      }
    }

    /** Changing one record in place, and the model with it, is all right. */
    lemma RecordChanged(k: LinkKey, rec: LinkRecord, was: State)
      requires ShardsHold(was.dedup, was.netDedup) && OthersAre(k, rec, was.links)
      requires WellKeyed(was.links) && recs.Keys == was.links.Keys
      requires k in recs && rec == recs[k] && rec in repr && rec.data.key == k
      requires st == was.(links := was.links[k := rec.data])
      ensures Valid()
    {
      hide ShardsHold;
      assert IsCanonical(k);
      StoreKeepsKeys(was.links, k, rec.data);
      hide IsCanonical, WellKeyed;
    }

    /** Notes when an event was last seen, in the shard of its link. */
    method NoteEvent(dk: DedupKey, now: int)
      requires Valid()
      modifies this`st, shards
      ensures Valid()
      ensures st == old(st).(dedup := old(st).dedup[dk := now])
    {
      hide IsCanonical, LinksIn, EventsIn, NetEventsIn;
      EventStored(recs, st, dk, now);
      var i := ShardOf(dk.key);
      var sh := shards[i];
      shards[i] := sh.(dedup := sh.dedup[dk := now]);
      st := st.(dedup := st.dedup[dk := now]);
      assert ShardsOk();
    }

    /** A shard knows the events of its links. */
    lemma StoredEvents(i: nat, dk: DedupKey)
      requires Valid() && i == ShardOf(dk.key)
      ensures i < LINK_SHARDS && (dk in shards[i].dedup <==> dk in st.dedup)
    {
    }

    /** observeLink: one adjacency, under its shard's lock. */
    method ObserveLink(o: Obs)
      requires Valid() && IsCanonical(o.key)
      modifies this`st, this`recs, this`repr, shards, repr
      ensures Valid() && fresh(repr - old(repr))
      ensures st == LinkModel.ObserveLink(old(st), o, cfg)
    {
      hide LookupStep, NetworkStep, GlobalStep, IsCanonical, LinkModel.ObserveLink;
      ObserveInSteps(st, o, cfg);
      var rec := RecordFor(o);
      if o.networkId != "" {
        NoteNetwork(o, rec);
      }
      NoteGlobal(o, rec);
    }

    /** Observes one adjacency the walk emits. */
    method ObserveLeg(o: PathObservation, hash: string, prev: PubKey, prevHex: string, cur: PubKey, curHex: string,
                      hop: nat)
      requires Valid() && prev != cur && hash == Clean(o.hash) && prevHex == HexOf(prev) && curHex == HexOf(cur)
      modifies this`st, this`recs, this`repr, shards, repr
      ensures Valid() && fresh(repr - old(repr))
      ensures st == LinkModel.ObserveLink(old(st), ObsOf(o, Leg(prev, cur, hop)), cfg)
    {
      hide Valid, LinkModel.ObserveLink, Clean;
      var key := CanonicalKey(prev, cur);
      CanonicalKeyCorrect(prev, cur);
      assert IsCanonical(key.value);
      var fromIsA := key.value.a == prev;
      var snr := if hop < |o.snrs| then Some(o.snrs[hop]) else None;
      ObserveLink(Obs(key.value, fromIsA, hash, o.networkId, o.routeType, o.now,
                      EndsFor(o.posOf, prevHex, curHex, fromIsA), snr, o.lowConf));
    }

    /** ObservePathCtx: walks the path and observes each adjacency it emits. */
    method ObservePathCtx(o: PathObservation)
      requires Valid()
      modifies this`st, this`recs, this`repr, shards, repr
      ensures Valid() && fresh(repr - old(repr))
      ensures st == ObserveAll(old(st), PathEvents(o), cfg)
    {
      hide Valid, LinkModel.ObserveLink, LinkModel.ObserveAll, Clean, NormalizePub, Emitted, Tokens, Collapse, ObsOf;
      hide Accepted, Legs;
      ObserveNothing(st, cfg);
      var hash := Clean(o.hash);
      if hash == "" || |o.path| < 2 {
        return;
      }
      var prev: PubKey, prevHex: string, prevRaw: string := PubKey(seq(32, _ => 0)), "", "";
      var havePrev, hop := false, 0;
      var seen: set<(PubKey, PubKey)> := {};
      ghost var nodes: seq<Token> := [];
      WalkBegins(o, prev);
      for i := 0 to |o.path|
        invariant Valid() && fresh(repr - old(repr))
        invariant nodes == Collapse(Tokens(o.path[..i]))
        invariant WalkState(nodes, havePrev, prev, prevRaw, hop, seen) && (havePrev ==> prevHex == prevRaw)
        invariant st == ObserveAll(old(st), Emitted(o, nodes), cfg)
      {
        var raw := Clean(o.path[i]);
        ghost var t := TokenOf(o.path[i]);
        NextEntry(o.path, i);
        if raw == "" {
          continue;
        }
        ReadCleaned(o.path[i]);
        if havePrev { RepeatByText(nodes, prev, prevRaw, o.path[i]); }
        if havePrev && raw == prevRaw {
          continue; // a consecutive repeat
        }
        var cur := NormalizePub(raw);
        if cur.None? {
          StepInvalid(o, nodes, t, prev, raw, hop, seen);
          nodes := Collapse(Tokens(o.path[..i + 1]));
          havePrev := false; // breaks adjacency
          prevRaw := raw;
          continue;
        }
        StepValid(o, nodes, havePrev, prev, prevRaw, cur.value, hop, seen);
        if havePrev && prev != cur.value {
          var dir := (prev, cur.value);
          if dir !in seen {
            seen := seen + {dir};
            ObserveOneMore(old(st), Emitted(o, nodes), ObsOf(o, Leg(prev, cur.value, hop)), cfg);
            ObserveLeg(o, hash, prev, prevHex, cur.value, raw, hop);
          }
        }
        nodes := nodes + [t];
        prev, prevHex, prevRaw := cur.value, raw, raw;
        havePrev := true;
        hop := hop + 1;
      }
      assert o.path[..|o.path|] == o.path;
    }

    /** The sweep of one shard. */
    method SweepOne(i: nat, now: int, window: int)
      requires Valid() && i < LINK_SHARDS
      modifies this`st, shards
      ensures Valid()
      ensures st == SweepShard(old(st), i, now, window)
    {
      hide IsCanonical;
      var sh := shards[i];
      SweptShard(recs, st, i, now, window);
      var dedup := DropOld(sh.dedup, now, window);
      var netDedup := DropOld(sh.netDedup, now, window);
      hide ShardOfTables, SweepShard;
      shards[i] := sh.(dedup := dedup, netDedup := netDedup);
      st := SweepShard(st, i, now, window);
      assert ShardsOk();
      SweepKeepsLinks(old(st), i, now, window);
    }

    /** sweep: drops deduplication entries older than the window, shard by shard. */
    method Sweep(now: int, window: int)
      requires Valid()
      modifies this`st, shards
      ensures Valid()
      ensures st == SweepUpTo(old(st), LINK_SHARDS, now, window)
    {
      hide Valid, SweepShard;
      for i := 0 to LINK_SHARDS
        invariant Valid()
        invariant st == SweepUpTo(old(st), i, now, window)
      {
        SweepOne(i, now, window);
      }
    }

    /** Hands out one record if it is dirty, and clears its flag. */
    method TakeRecord(k: LinkKey, rec: LinkRecord) returns (dirty: bool, cp: Rec)
      requires Valid() && k in recs && rec == recs[k]
      modifies this`st, rec
      ensures Valid()
      ensures cp == old(st).links[k] && cp.key == k && dirty == cp.dirty
      ensures st == if dirty then old(st).(links := old(st).links[k := cp.(dirty := false)]) else old(st)
    {
      LiveRecord(k);
      hide Valid;
      cp := rec.data;
      dirty := cp.dirty;
      if dirty {
        SetFlag(k, rec, false);
      }
    }

    /** Sets the dirty flag of one record. */
    method SetFlag(k: LinkKey, rec: LinkRecord, dirty: bool)
      requires Valid() && k in recs && rec == recs[k]
      modifies this`st, rec
      ensures Valid()
      ensures k in old(st).links && st == old(st).(links := old(st).links[k := old(st).links[k].(dirty := dirty)])
    {
      hide Valid, ShardsHold, OthersAre, WellKeyed;
      OneRecord(k, rec);
      ghost var was := st;
      rec.data := rec.data.(dirty := dirty);
      st := st.(links := st.links[k := rec.data]);
      RecordChanged(k, rec, was);
    }

    /** One step of TakeOne, at the record of link `k`. */
    method TakeNext(k: LinkKey, rec: LinkRecord, out: seq<Rec>, ghost before: State, ghost seen: set<LinkKey>,
                    ghost taken: set<LinkKey>)
      returns (out': seq<Rec>, ghost taken': set<LinkKey>)
      requires Valid() && k in recs && rec == recs[k] && k !in seen
      requires TakingFrom(before, st, seen, taken, out)
      modifies this`st, repr
      ensures Valid()
      ensures TakingFrom(before, st, seen + {k}, taken', out')
    {
      LiveRecord(k);
      TakeStep(before, st, seen, taken, out, k);
      hide Valid, SetDirty, TakingFrom;
      var dirty, cp := TakeRecord(k, rec);
      if dirty {
        out' := out + [cp];
        taken' := taken + {k};
      } else {
        out' := out;
        taken' := taken;
      }
    }

    /** Takes the dirty records of one shard: copies them and clears their flags. */
    method TakeOne(i: nat) returns (out: seq<Rec>)
      requires Valid() && i < LINK_SHARDS
      modifies this`st, repr
      ensures Valid()
      ensures st == TakeShard(old(st), i)
      ensures IsBatchOf(out, old(st).links, DirtyIn(old(st), i))
    {
      out := [];
      var links := shards[i].links;
      ghost var before: State, taken: set<LinkKey> := st, {};
      StoredKeys(i);
      NothingTaken(st);
      hide Valid, TakingFrom, IsBatchOf, TakeShard, DirtyIn, LinkKeysIn, Firsts, Enumerates;
      var keys := Enumerate(links);
      FirstsEnds(keys, links.Keys);
      for n := 0 to |keys|
        invariant Valid() && shards[i].links == links
        invariant TakingFrom(before, st, Firsts(keys, n), taken, out)
      {
        FirstsNext(keys, links.Keys, n);
        StoredHere(i, keys[n]);
        out, taken := TakeNext(keys[n], links[keys[n]], out, before, Firsts(keys, n), taken);
      }
      TakenAll(before, st, i, links.Keys, taken, out);
    }

    /** The record of a stored link is one of the live ones. */
    lemma LiveRecord(k: LinkKey)
      requires Valid() && k in recs
      ensures recs[k] in repr && k in st.links && st.links[k].key == k && recs[k].data == st.links[k]
    {
    }

    /** The keys of a shard's link table are the stored links that select the shard. */
    lemma StoredKeys(i: nat)
      requires Valid() && i < LINK_SHARDS
      ensures shards[i].links.Keys == LinkKeysIn(st, i)
    {
    }

    lemma KeyHere(i: nat, k: LinkKey)
      requires Valid() && i < LINK_SHARDS && k in LinkKeysIn(st, i)
      ensures k in shards[i].links
    {
      hide Valid;
      StoredKeys(i);
    }

    /** An entry of a shard's link table is the stored record of its link. */
    lemma StoredHere(i: nat, k: LinkKey)
      requires Valid() && i < LINK_SHARDS && k in shards[i].links
      ensures k in recs && shards[i].links[k] == recs[k] && recs[k] in repr
      ensures k in st.links && st.links[k].key == k && recs[k].data == st.links[k]
    {
    }

    /** TakeDirty: takes the dirty records of one shard after the other. */
    method TakeDirty() returns (out: seq<Rec>)
      requires Valid()
      modifies this`st, repr
      ensures Valid()
      ensures st == TakeUpTo(old(st), LINK_SHARDS)
      ensures IsBatchOf(out, old(st).links, DirtyKeys(old(st)))
    {
      out := [];
      ghost var before := st;
      NothingTaken(st);
      DirtyBelowEnds(st);
      hide Valid, IsBatchOf, TakeShard, DirtyBelow, DirtyIn;
      for i := 0 to LINK_SHARDS
        invariant Valid() && repr == old(repr)
        invariant st == TakeUpTo(before, i)
        invariant IsBatchOf(out, before.links, DirtyBelow(before, i))
      {
        TakenSoFar(before, i);
        var part := TakeOne(i);
        JoinShardBatch(before, i, out, part);
        out := out + part;
      }
    }

    /** Requeue, for one record. */
    method RequeueOne(k: LinkKey)
      requires Valid()
      modifies this`st, repr
      ensures Valid()
      ensures st == RequeueLink(old(st), k)
    {
      hide Valid;
      var i := ShardOf(k);
      StoredLink(i, k);
      MarkOne(st.links, k);
      if k in shards[i].links {
        SetFlag(k, shards[i].links[k], true);
      }
    }

    /** Requeue: marks the records of a failed flush dirty again. */
    method Requeue(records: seq<Rec>)
      requires Valid()
      modifies this`st, repr
      ensures Valid()
      ensures st == RequeueAll(old(st), records)
    {
      hide Valid, RequeueLink;
      for i := 0 to |records|
        invariant Valid()
        invariant st == RequeueAll(old(st), records[..i])
      {
        assert records[..i + 1][..i] == records[..i];
        RequeueOne(records[i].key);
      }
      assert records[..|records|] == records;
    }

    /** Restore, for one persisted record. */
    method RestoreOne(record: Rec)
      requires Valid()
      modifies this`st, this`recs, this`repr, shards, repr
      ensures Valid() && fresh(repr - old(repr))
      ensures st == RestoreLink(old(st), record, cfg)
    {
      hide Valid, MergeRestored, Canonical, IsCanonical;
      var key := KeyFromPair(record.nodeA, record.nodeB);
      if key.None? {
        return;
      }
      KeyFromPairIsCanonical(record.nodeA, record.nodeB);
      var k := key.value;
      var r := Canonical(record, k);
      CanonicalKept(record, k);
      StoredLink(ShardOf(k), k);
      if k in shards[ShardOf(k)].links {
        MergeInto(k, shards[ShardOf(k)].links[k], r);
      } else {
        var _ := Store(k, r);
      }
    }

    /** Stores a link that is not there yet. */
    method Store(k: LinkKey, r: Rec) returns (rec: LinkRecord)
      requires Valid() && IsCanonical(k) && k !in st.links && r.key == k
      modifies this`st, this`recs, this`repr, shards
      ensures Valid() && fresh(repr - old(repr))
      ensures st == old(st).(links := old(st).links[k := r])
      ensures k in recs && rec == recs[k]
    {
      hide Valid, IsCanonical;
      rec := new LinkRecord(r);
      Place(k, rec);
    }

    /** Puts a new record into the shard of its link. */
    method Place(k: LinkKey, rec: LinkRecord)
      requires Valid() && IsCanonical(k) && k !in st.links && rec.data.key == k && rec !in repr
      modifies this`st, this`recs, this`repr, shards
      ensures Valid() && repr == old(repr) + {rec}
      ensures st == old(st).(links := old(st).links[k := rec.data])
      ensures k in recs && rec == recs[k]
    {
      hide Valid, RecordsLive, ShardsAre, WellKeyed, IsCanonical, ShardOf;
      AllFacts();
      PlacedRecord(k, rec);
      PlacedShard(k, rec);
      var i := ShardOf(k);
      ghost var was := shards[..];
      shards[i] := shards[i].(links := shards[i].links[k := rec]);
      assert shards[..] == was[i := shards[i]];
      recs, repr := recs[k := rec], repr + {rec};
      st := st.(links := st.links[k := rec.data]);
      FactsAreAll();
    }

    /** Valid, part by part. */
    lemma AllFacts()
      requires Valid()
      ensures ShardsHold(st.dedup, st.netDedup) && recs.Keys == st.links.Keys && RecordsLive(recs, repr, st.links)
      ensures WellKeyed(st.links) && shards.Length == LINK_SHARDS
    {
      hide WellKeyed, ShardOfTables;
    }

    lemma FactsAreAll()
      requires ShardsHold(st.dedup, st.netDedup) && recs.Keys == st.links.Keys && RecordsLive(recs, repr, st.links)
      requires WellKeyed(st.links)
      ensures Valid()
    {
      hide WellKeyed, ShardsHold;
    }

    /** A new record joins the live ones. */
    lemma PlacedRecord(k: LinkKey, rec: LinkRecord)
      requires RecordsLive(recs, repr, st.links) && WellKeyed(st.links) && recs.Keys == st.links.Keys
      requires IsCanonical(k) && rec.data.key == k && rec !in repr && k !in recs
      ensures RecordsLive(recs[k := rec], repr + {rec}, st.links[k := rec.data]) && WellKeyed(st.links[k := rec.data])
    {
      StoreKeepsKeys(st.links, k, rec.data);
      hide WellKeyed;
    }

    /** A new record goes to its own shard. */
    lemma PlacedShard(k: LinkKey, rec: LinkRecord)
      requires ShardsHold(st.dedup, st.netDedup)
      ensures ShardOf(k) < shards.Length
      ensures var i := ShardOf(k);
              ShardsAre(shards[..][i := shards[i].(links := shards[i].links[k := rec])], recs[k := rec],
                        st.dedup, st.netDedup)
    {
      hide ShardOfTables, ShardOf;
      AddLink(recs, st, k, rec);
    }

    /** Merges a persisted record into the live record of its link. */
    method MergeInto(k: LinkKey, rec: LinkRecord, r: Rec)
      requires Valid() && k in recs && rec == recs[k]
      modifies this`st, rec
      ensures Valid()
      ensures st == old(st).(links := old(st).links[k := MergeRestored(old(st).links[k], r, cfg)])
    {
      hide MergeRestored, Valid, ShardsHold, OthersAre, WellKeyed;
      OneRecord(k, rec);
      ghost var was := st;
      MergeKeepsKey(rec.data, r, cfg);
      rec.MergeRestored(r, cfg);
      st := st.(links := st.links[k := rec.data]);
      RecordChanged(k, rec, was);
    }

    /** Restore: takes over the persisted links, and drops the routing snapshot. */
    method Restore(records: seq<Rec>)
      requires Valid()
      modifies this`st, this`recs, this`repr, this`routeAdj, shards, repr
      ensures Valid() && fresh(repr - old(repr))
      ensures Desk() == LinkGraphs.Desk(RestoreAll(old(st), records, cfg), None)
    {
      hide Valid, RestoreLink;
      for i := 0 to |records|
        invariant Valid() && fresh(repr - old(repr))
        invariant st == RestoreAll(old(st), records[..i], cfg)
      {
        assert records[..i + 1][..i] == records[..i];
        RestoreOne(records[i]);
      }
      assert records[..|records|] == records;
      routeAdj := None;
    }

    /** A link is stored in the shard its key selects. */
    lemma StoredLink(i: nat, k: LinkKey)
      requires Valid() && i == ShardOf(k)
      ensures shards.Length == LINK_SHARDS && i < LINK_SHARDS && (k in shards[i].links <==> k in st.links)
      ensures k in st.links ==> k in recs && shards[i].links[k] == recs[k] && recs[k] in repr && st.links[k].key == k
    {
      if k in st.links {
        assert k in recs && k in LinksIn(recs, i);
        assert recs[k] in repr;
        assert st.links[k].key == k;
      }
    }

    /** LinksForNode: every link of `node`, once, as the node sees it. */
    method LinksForNode(node: PubKey, now: int) returns (out: seq<Neighbor>)
      requires Valid()
      ensures exists keys :: ViewsOf(out, keys, st.links, LinksOf(st.links.Keys, node), node, now, cfg.retain)
    {
      out := [];
      ghost var keys: seq<LinkKey> := [];
      LinksBelowEnds(st, node);
      hide Valid, ViewFrom, ViewsOf, LinksBelow;
      NoViews(st.links, node, now, cfg.retain);
      for i := 0 to LINK_SHARDS
        invariant ViewsOf(out, keys, st.links, LinksBelow(st, node, i), node, now, cfg.retain)
      {
        var part, partKeys := ViewsInShard(i, node, now);
        JoinViews(st, i, out, keys, part, partKeys, node, now, cfg.retain);
        out, keys := out + part, keys + partKeys;
      }
    }

    /** LinksForNode, for one link. */
    method ViewNext(k: LinkKey, rec: LinkRecord, node: PubKey, now: int, out: seq<Neighbor>, ghost keys: seq<LinkKey>,
                    ghost visited: set<LinkKey>)
      returns (out': seq<Neighbor>, ghost keys': seq<LinkKey>)
      requires Valid() && k in recs && rec == recs[k] && k !in visited
      requires ViewsOf(out, keys, st.links, LinksOf(visited, node), node, now, cfg.retain)
      ensures ViewsOf(out', keys', st.links, LinksOf(visited + {k}, node), node, now, cfg.retain)
    {
      hide Valid, ViewFrom, ViewsOf, LinksOf;
      LiveRecord(k);
      AddView(out, keys, st.links, visited, k, node, now, cfg.retain);
      if k.a == node {
        return out + [ViewFrom(rec.data, true, now, cfg.retain)], keys + [k];
      } else if k.b == node {
        return out + [ViewFrom(rec.data, false, now, cfg.retain)], keys + [k];
      }
      return out, keys;
    }

    /** LinksForNode, within one shard. */
    method ViewsInShard(i: nat, node: PubKey, now: int) returns (out: seq<Neighbor>, ghost keys: seq<LinkKey>)
      requires Valid() && i < LINK_SHARDS
      ensures ViewsOf(out, keys, st.links, LinksOf(LinkKeysIn(st, i), node), node, now, cfg.retain)
    {
      out, keys := [], [];
      var links := shards[i].links;
      StoredKeys(i);
      NoViews(st.links, node, now, cfg.retain);
      hide Valid, ViewFrom, ViewsOf, LinksOf, LinkKeysIn, Firsts, Enumerates;
      var order := Enumerate(links);
      FirstsEnds(order, links.Keys);
      for n := 0 to |order|
        invariant ViewsOf(out, keys, st.links, LinksOf(Firsts(order, n), node), node, now, cfg.retain)
      {
        FirstsNext(order, links.Keys, n);
        StoredHere(i, order[n]);
        out, keys := ViewNext(order[n], links[order[n]], node, now, out, keys, Firsts(order, n));
      }
    }

    /** buildAdjacency: both directions of every link. */
    method BuildAdjacency(now: int) returns (g: Graph)
      requires Valid()
      ensures CanonicalKeys(st.links.Keys)
      ensures GraphOver(g, st.links, st.links.Keys, now, pricing)
    {
      AllCanonical();
      g := map[];
      StoredBelowEnds(st);
      EmptyGraph(st.links, now, pricing);
      hide Valid, GraphOver, StoredBelow, LinkKeysIn;
      for i := 0 to LINK_SHARDS
        invariant GraphOver(g, st.links, StoredBelow(st, i), now, pricing)
      {
        StoredBelowNext(st, i);
        g := AddShard(i, now, g);
      }
    }

    /** buildAdjacency, within one shard. */
    method AddShard(i: nat, now: int, g0: Graph) returns (g: Graph)
      requires Valid() && i < LINK_SHARDS && GraphOver(g0, st.links, StoredBelow(st, i), now, pricing)
      ensures GraphOver(g, st.links, StoredBelow(st, i) + LinkKeysIn(st, i), now, pricing)
    {
      g := g0;
      var links := shards[i].links;
      StoredKeys(i);
      hide Valid, GraphOver, StoredBelow, LinkKeysIn, Added, EdgeOf, IsCanonical, Firsts, Enumerates;
      var order := Enumerate(links);
      AddedEnds(st, i, order);
      for n := 0 to |order|
        invariant GraphOver(g, st.links, Added(st, i, order, n), now, pricing)
      {
        var k := order[n];
        AddedNext(st, i, order, n);
        KeyHere(i, k);
        StoredHere(i, k);
        g := AddRecord(links[k], k, now, g, Added(st, i, order, n));
      }
    }

    /** buildAdjacency, for one link. */
    method AddRecord(rec: LinkRecord, k: LinkKey, now: int, g0: Graph, ghost keys: set<LinkKey>) returns (g: Graph)
      requires Valid() && k in recs && rec == recs[k] && k !in keys
      requires GraphOver(g0, st.links, keys, now, pricing)
      ensures GraphOver(g, st.links, keys + {k}, now, pricing)
    {
      LiveRecord(k);
      AllCanonical();
      assert CanonicalKeys(keys) && IsCanonical(k);
      AddLinkEdges(g0, st.links, keys, now, pricing, k);
      hide Valid, GraphOver, EdgeOf, IsCanonical;
      g := g0[k.a := Out(g0, k.a) + [EdgeOf(rec.data, k.b, now, pricing)]];
      g := g[k.b := Out(g, k.b) + [EdgeOf(rec.data, k.a, now, pricing)]];
    }

    lemma AllCanonical()
      requires Valid()
      ensures CanonicalKeys(st.links.Keys)
    {
    }

    /** adjacency: the cached snapshot if it is young enough, otherwise a new one. */
    method Adjacency(now: int) returns (g: Graph)
      requires Valid() && CacheOk()
      modifies this`routeAdj, this`builtFrom
      ensures CacheOk() && routeAdj.Some? && g == routeAdj.value.graph
      ensures Asked(old(Desk()), now, Desk(), pricing)
      ensures if Reusable(old(routeAdj), now) then routeAdj == old(routeAdj) && builtFrom == old(builtFrom)
              else routeAdj.value.builtAt == now && builtFrom == st.links
    {
      if Reusable(routeAdj, now) {
        return routeAdj.value.graph;
      }
      hide Valid, GraphOver;
      g := BuildAdjacency(now);
      routeAdj := Some(Snapshot(now, g));
      builtFrom := st.links;
    }

    /** RouteBetween: a cheapest route through the edges that pass the filter, if there is one.
        Read off the links themselves: there is a route exactly when a chain of open links joins
        the nodes; each hop leads over a link last seen late enough, through a selected network. */
    method RouteBetween(from: PubKey, to: PubKey, now: int, f: Filter) returns (r: RouteResult, ghost w: seq<Step>)
      requires Valid() && CacheOk()
      modifies this`routeAdj, this`builtFrom
      ensures CacheOk()
      ensures from == to ==> routeAdj == old(routeAdj) && r == RouteResult(true, [HexOf(from)], [])
      ensures from != to ==>
                && routeAdj.Some?
                && Asked(old(Desk()), now, Desk(), pricing)
                && (if Reusable(old(routeAdj), now) then builtFrom == old(builtFrom) else builtFrom == st.links)
                && var g := routeAdj.value.graph;
                && (r.found <==> Reachable(g, f, from, to))
                && (!r.found ==> r == NOT_FOUND)
                && (r.found ==> IsOptimal(g, f, from, w, to) && AllDistinct(Visits(from, w)) && r == Report(from, w))
      ensures from != to ==> (r.found <==> exists nodes :: IsChain(builtFrom, f, from, nodes, to))
      ensures from != to ==> forall i :: 0 <= i < |r.hops| ==>
                OverStored(r.hops[i], builtFrom, routeAdj.value.builtAt, pricing.retain)
      ensures f.since > 0 ==> forall i :: 0 <= i < |r.hops| ==> f.since <= r.hops[i].lastSeen
      ensures f.networks != map[] ==> forall i :: 0 <= i < |r.hops| ==> Selected(r.hops[i].networks, f.networks)
      ensures from != to ==> forall k ::
                && k in builtFrom && ((k.a == from && k.b == to) || (k.a == to && k.b == from))
                && (f.since > 0 ==> f.since <= builtFrom[k].lastSeen)
                && (f.networks != map[] ==>
                      exists n :: n in builtFrom[k].networks && n.id in f.networks && f.networks[n.id])
                ==> r.found
    {
      if from == to {
        return RouteResult(true, [HexOf(from)], []), [];
      }
      hide Valid;
      var g := Adjacency(now);
      GraphOfLinks(g, builtFrom, builtFrom.Keys, routeAdj.value.builtAt, pricing);
      hide *;
      r, w := RouteInGraph(g, from, to, f);
      OptimalIsWalk(g, f, from, w, to);
      AnswerIsOverLinks(g, builtFrom, routeAdj.value.builtAt, pricing, f, from, to, r, w);
    }
  }

  /** After visiting the links `seen`: exactly the dirty ones among them are in the batch,
      and only their flags are cleared. */
  ghost predicate TakingFrom(st: State, now: State, seen: set<LinkKey>, taken: set<LinkKey>, out: seq<Rec>) {
    && seen <= st.links.Keys && taken == (set k | k in seen && st.links[k].dirty)
    && IsBatchOf(out, st.links, taken) && now == st.(links := SetDirty(st.links, taken, false))
  }

  /** The dirty links of the first `n` shards. */
  ghost function DirtyBelow(st: State, n: nat): set<LinkKey> {
    set k | k in st.links && ShardOf(k) < n && st.links[k].dirty
  }

  /** `out` shows each link in `which` once, from the side of `node`. */
  ghost predicate ViewsOf(out: seq<Neighbor>, keys: seq<LinkKey>, links: map<LinkKey, Rec>, which: set<LinkKey>,
                          node: PubKey, now: int, retain: real) {
    && |out| == |keys| && which <= links.Keys
    && (forall k :: k in keys <==> k in which)
    && (forall i, j :: 0 <= i < j < |keys| ==> keys[i] != keys[j])
    && (forall i :: 0 <= i < |out| ==>
          keys[i] in links && out[i] == ViewFrom(links[keys[i]], keys[i].a == node, now, retain))
  }

  /** The links among `keys` that have `node` as an endpoint. */
  ghost function LinksOf(keys: set<LinkKey>, node: PubKey): set<LinkKey> {
    set k | k in keys && (k.a == node || k.b == node)
  }

  lemma NoViews(links: map<LinkKey, Rec>, node: PubKey, now: int, retain: real)
    ensures ViewsOf([], [], links, {}, node, now, retain) && LinksOf({}, node) == {}
  {
  }

  lemma AddView(out: seq<Neighbor>, keys: seq<LinkKey>, links: map<LinkKey, Rec>, visited: set<LinkKey>, k: LinkKey,
                node: PubKey, now: int, retain: real)
    requires ViewsOf(out, keys, links, LinksOf(visited, node), node, now, retain) && k in links && k !in visited
    ensures k.a == node || k.b == node ==>
              ViewsOf(out + [ViewFrom(links[k], k.a == node, now, retain)], keys + [k], links,
                      LinksOf(visited + {k}, node), node, now, retain)
    ensures k.a != node && k.b != node ==> ViewsOf(out, keys, links, LinksOf(visited + {k}, node), node, now, retain)
  {
    hide ViewFrom;
    assert k !in keys;
    if k.a != node && k.b != node {
      assert LinksOf(visited + {k}, node) == LinksOf(visited, node);
    }
  }

  /** The links of `node` in the first `n` shards. */
  ghost function LinksBelow(st: State, node: PubKey, n: nat): set<LinkKey> {
    set k | k in st.links && ShardOf(k) < n && (k.a == node || k.b == node)
  }

  lemma LinksBelowEnds(st: State, node: PubKey)
    ensures LinksBelow(st, node, 0) == {}
    ensures LinksBelow(st, node, LINK_SHARDS) == LinksOf(st.links.Keys, node)
  {
  }

  lemma JoinViews(st: State, i: nat, a: seq<Neighbor>, ka: seq<LinkKey>, b: seq<Neighbor>, kb: seq<LinkKey>,
                  node: PubKey, now: int, retain: real)
    requires ViewsOf(a, ka, st.links, LinksBelow(st, node, i), node, now, retain)
    requires ViewsOf(b, kb, st.links, LinksOf(LinkKeysIn(st, i), node), node, now, retain)
    ensures ViewsOf(a + b, ka + kb, st.links, LinksBelow(st, node, i + 1), node, now, retain)
  {
    hide ViewFrom;
    forall x, y | 0 <= x < |ka| && 0 <= y < |kb| ensures ka[x] != kb[y] {
      assert ka[x] in ka && kb[y] in kb;
    }
  }

  /** The stored links of the first `n` shards. */
  ghost function StoredBelow(st: State, n: nat): set<LinkKey> {
    set k | k in st.links && ShardOf(k) < n
  }

  lemma StoredBelowEnds(st: State)
    ensures StoredBelow(st, 0) == {} && StoredBelow(st, LINK_SHARDS) == st.links.Keys
  {
  }

  lemma StoredBelowNext(st: State, i: nat)
    ensures StoredBelow(st, i + 1) == StoredBelow(st, i) + LinkKeysIn(st, i)
  {
  }

  lemma NotBelow(st: State, i: nat)
    ensures StoredBelow(st, i) <= st.links.Keys && StoredBelow(st, i) !! LinkKeysIn(st, i)
  {
  }

  /** The links of the shards before `i`, and the first `n` of its own. */
  ghost function Added(st: State, i: nat, order: seq<LinkKey>, n: nat): set<LinkKey>
    requires n <= |order|
  {
    StoredBelow(st, i) + Firsts(order, n)
  }

  lemma AddedEnds(st: State, i: nat, order: seq<LinkKey>)
    requires Enumerates(order, LinkKeysIn(st, i))
    ensures Added(st, i, order, 0) == StoredBelow(st, i)
    ensures Added(st, i, order, |order|) == StoredBelow(st, i) + LinkKeysIn(st, i)
  {
    hide StoredBelow, LinkKeysIn;
    FirstsEnds(order, LinkKeysIn(st, i));
  }

  lemma AddedNext(st: State, i: nat, order: seq<LinkKey>, n: nat)
    requires Enumerates(order, LinkKeysIn(st, i)) && n < |order|
    ensures order[n] in LinkKeysIn(st, i) && order[n] !in Added(st, i, order, n)
    ensures Added(st, i, order, n + 1) == Added(st, i, order, n) + {order[n]}
  {
    NotBelow(st, i);
    FirstsNext(order, LinkKeysIn(st, i), n);
    hide StoredBelow;
    forall k | k in Firsts(order, n) ensures k in LinkKeysIn(st, i) {
      assert k in order;
    }
  }

  lemma EmptyGraph(links: map<LinkKey, Rec>, now: int, p: Pricing)
    ensures GraphOver(map[], links, {}, now, p)
  {
  }

  lemma KeyFromPairIsCanonical(x: string, y: string)
    ensures KeyFromPair(x, y).Some? ==> IsCanonical(KeyFromPair(x, y).value)
  {
    var a, b := NormalizePub(x), NormalizePub(y);
    if a.Some? && b.Some? {
      CanonicalKeyCorrect(a.value, b.value);
    }
  }

  lemma CanonicalKept(rec: Rec, k: LinkKey)
    ensures Canonical(rec, k).key == k
  {
  }

  lemma MergeKeepsKey(e: Rec, r: Rec, cfg: Config)
    ensures MergeRestored(e, r, cfg).key == e.key
  {
  }

  lemma MarkOne(links: map<LinkKey, Rec>, k: LinkKey)
    ensures SetDirty(links, {k}, true) == if k in links then links[k := links[k].(dirty := true)] else links
  {
  }

  /** The links changed since the last flush. */
  ghost function DirtyKeys(st: State): set<LinkKey> {
    set k | k in st.links && st.links[k].dirty
  }

  lemma DirtyBelowEnds(st: State)
    ensures DirtyBelow(st, 0) == {} && DirtyBelow(st, LINK_SHARDS) == DirtyKeys(st)
  {
  }

  /** The stored links that select shard `i`. */
  ghost function LinkKeysIn(st: State, i: nat): set<LinkKey> {
    set k | k in st.links && ShardOf(k) == i
  }

  lemma NothingTaken(st: State)
    ensures TakingFrom(st, st, {}, {}, []) && IsBatchOf([], st.links, {})
  {
    assert SetDirty(st.links, {}, false) == st.links;
  }

  /** Visiting one more link of the batch under way. */
  lemma TakeStep(st: State, now: State, seen: set<LinkKey>, taken: set<LinkKey>, out: seq<Rec>, k: LinkKey)
    requires TakingFrom(st, now, seen, taken, out) && k !in seen
    requires k in now.links && now.links[k].key == k
    ensures k in st.links && now.links[k] == st.links[k]
    ensures st.links[k].dirty ==>
              TakingFrom(st, now.(links := now.links[k := st.links[k].(dirty := false)]), seen + {k}, taken + {k},
                         out + [st.links[k]])
    ensures !st.links[k].dirty ==> TakingFrom(st, now, seen + {k}, taken, out)
  {
    assert k !in taken;
    if st.links[k].dirty {
      ClearOneMore(st.links, taken, k);
      SingleBatch(st.links, k);
      JoinBatches(st.links, out, taken, [st.links[k]], {k});
    }
  }

  lemma TakenAll(st: State, now: State, i: nat, seen: set<LinkKey>, taken: set<LinkKey>, out: seq<Rec>)
    requires TakingFrom(st, now, seen, taken, out) && seen == LinkKeysIn(st, i)
    ensures now == TakeShard(st, i) && IsBatchOf(out, st.links, DirtyIn(st, i))
  {
    assert taken == DirtyIn(st, i);
  }

  /** Taking from the first `n` shards leaves the other shards' records as they were. */
  lemma {:induction false} TakenSoFar(st: State, n: nat)
    ensures var now := TakeUpTo(st, n);
            && now.links.Keys == st.links.Keys
            && (forall k {:trigger now.links[k]} :: k in now.links && ShardOf(k) >= n ==> now.links[k] == st.links[k])
    ensures DirtyIn(TakeUpTo(st, n), n) == DirtyIn(st, n)
  {
    if n > 0 { TakenSoFar(st, n - 1); }
  }

  lemma JoinShardBatch(st: State, i: nat, out: seq<Rec>, part: seq<Rec>)
    requires IsBatchOf(out, st.links, DirtyBelow(st, i))
    requires IsBatchOf(part, TakeUpTo(st, i).links, DirtyIn(TakeUpTo(st, i), i))
    ensures IsBatchOf(out + part, st.links, DirtyBelow(st, i + 1))
  {
    TakenSoFar(st, i);
    forall r | r in part ensures r == st.links[r.key] {
      assert r.key in KeysOf(part);
    }
    JoinBatches(st.links, out, DirtyBelow(st, i), part, DirtyIn(st, i));
    assert DirtyBelow(st, i) + DirtyIn(st, i) == DirtyBelow(st, i + 1);
  }

  lemma ObserveOneMore(st: State, obs: seq<Obs>, o: Obs, cfg: Config)
    ensures ObserveAll(st, obs + [o], cfg) == LinkModel.ObserveLink(ObserveAll(st, obs, cfg), o, cfg)
  {
    assert (obs + [o])[..|obs|] == obs;
  }

  lemma ObserveNothing(st: State, cfg: Config)
    ensures ObserveAll(st, [], cfg) == st
  {
  }

  /** Noting an event changes the tables of its own shard only. */
  lemma NetEventStored(recs: map<LinkKey, LinkRecord>, st: State, n: NetDedupKey, t: int)
    ensures forall j :: 0 <= j < LINK_SHARDS ==>
              var sh := ShardOfTables(recs, st.dedup, st.netDedup, j);
              ShardOfTables(recs, st.dedup, st.netDedup[n := t], j)
              == if j == ShardOf(n.event.key) then sh.(netDedup := sh.netDedup[n := t]) else sh
  {
    forall j | 0 <= j < LINK_SHARDS
      ensures NetEventsIn(st.netDedup[n := t], j)
              == if ShardOf(n.event.key) == j then NetEventsIn(st.netDedup, j)[n := t] else NetEventsIn(st.netDedup, j)
    {
      NetEventsInUpdate(st.netDedup, n, t, j);
    }
  }

  lemma EventStored(recs: map<LinkKey, LinkRecord>, st: State, d: DedupKey, t: int)
    ensures forall j :: 0 <= j < LINK_SHARDS ==>
              var sh := ShardOfTables(recs, st.dedup, st.netDedup, j);
              ShardOfTables(recs, st.dedup[d := t], st.netDedup, j)
              == if j == ShardOf(d.key) then sh.(dedup := sh.dedup[d := t]) else sh
  {
    forall j | 0 <= j < LINK_SHARDS
      ensures EventsIn(st.dedup[d := t], j)
              == if ShardOf(d.key) == j then EventsIn(st.dedup, j)[d := t] else EventsIn(st.dedup, j)
    {
      EventsInUpdate(st.dedup, d, t, j);
    }
  }

  lemma TouchNetworkKey(rec: Rec, o: Obs, isNew: bool)
    ensures TouchNetwork(rec, o, isNew).key == rec.key
  {
  }

  lemma CountEventKey(rec: Rec, o: Obs, cfg: Config)
    ensures CountEvent(rec, o, cfg).key == rec.key
  {
  }

  lemma StoreKeepsKeys(links: map<LinkKey, Rec>, k: LinkKey, r: Rec)
    requires WellKeyed(links) && r.key == k && IsCanonical(k)
    ensures WellKeyed(links[k := r])
  {
  }

  lemma SameEntry<K, V>(m: map<K, V>, k: K)
    requires k in m
    ensures m[k := m[k]] == m
  {
  }

  /** Storing a link changes its own shard only. */
  lemma AddLink(recs: map<LinkKey, LinkRecord>, st: State, k: LinkKey, rec: LinkRecord)
    ensures forall j :: 0 <= j < LINK_SHARDS ==>
              var sh := ShardOfTables(recs, st.dedup, st.netDedup, j);
              ShardOfTables(recs[k := rec], st.dedup, st.netDedup, j)
              == if j == ShardOf(k) then sh.(links := sh.links[k := rec]) else sh
  {
    forall j | 0 <= j < LINK_SHARDS
      ensures LinksIn(recs[k := rec], j) == if ShardOf(k) == j then LinksIn(recs, j)[k := rec] else LinksIn(recs, j)
    {
      LinksInUpdate(recs, k, rec, j);
    }
  }
}
