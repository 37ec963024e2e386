/** Mesh nodes as values: their overview rows, rolling advert lists and the buffer of adverts
    that still have to be persisted. */
module NodeModel {
  datatype Advert = Advert(hash: string, rawHex: string, pubKey: string, name: string, nodeType: int, hasGps: bool,
                           lat: real, lon: real, advertTime: int, at: int, networkId: string, analyzerName: string,
                           observerId: string, observerName: string)

  /** A node; its `latest` adverts are newest first. */
  datatype Node = Node(pubKey: string, name: string, nodeType: int, hasGps: bool, lat: real, lon: real,
                       firstAdvertAt: int, lastAdvertAt: int, advertCount: nat, networks: seq<string>,
                       observerId: string, observerName: string, latest: seq<Advert>, flags: seq<string>)

  /** `dirty` are the nodes changed since the last flush; `pending` the adverts not yet persisted. */
  datatype Registry = Registry(nodes: map<string, Node>, dirty: set<string>, pending: seq<Advert>)

  const DEFAULT_ADVERTS_PER_NODE := 10

  function NewNode(a: Advert): Node {
    Node(a.pubKey, "", 0, false, 0.0, 0.0, a.at, 0, 0, [], "", "", [], [])
  }

  function Trim(adverts: seq<Advert>, cap: nat): seq<Advert> {
    if |adverts| > cap then adverts[..cap] else adverts
  }

  /** A node after one more advert. */
  function Advertised(n: Node, a: Advert, cap: nat): Node {
    n.(name := if a.name != "" then a.name else n.name,
       nodeType := a.nodeType,
       hasGps := n.hasGps || a.hasGps,
       lat := if a.hasGps then a.lat else n.lat,
       lon := if a.hasGps then a.lon else n.lon,
       lastAdvertAt := a.at,
       advertCount := n.advertCount + 1,
       networks := if a.networkId != "" && a.networkId !in n.networks then n.networks + [a.networkId] else n.networks,
       observerId := a.observerId,
       observerName := a.observerName,
       latest := Trim([a] + n.latest, cap))
  }

  function NodeOf(r: Registry, a: Advert): Node {
    if a.pubKey in r.nodes then r.nodes[a.pubKey] else NewNode(a)
  }

  /** Observe; an advert without a public key is ignored. */
  function Heard(r: Registry, a: Advert, cap: nat): Registry {
    if a.pubKey == "" then r
    else Registry(r.nodes[a.pubKey := Advertised(NodeOf(r, a), a, cap)], r.dirty + {a.pubKey}, r.pending + [a])
  }

  /** ClearPending */
  function Cleared(r: Registry, n: nat): Registry {
    r.(pending := if n >= |r.pending| then [] else r.pending[n..])
  }

  /** What the nodes table stores of a node. */
  function Overview(n: Node): Node {
    n.(latest := [])
  }

  /** The copies TakeDirty hands out. */
  function DirtyNodes(r: Registry): map<string, Node> {
    map k | k in r.dirty && k in r.nodes :: Overview(r.nodes[k])
  }

  /** Requeue */
  function Requeued(r: Registry, keys: set<string>): Registry {
    r.(dirty := r.dirty + set k | k in keys && k in r.nodes)
  }

  /** Whether a backfill fills the node's list. */
  predicate Fills(n: Node, adverts: seq<Advert>) {
    n.latest == [] && adverts != []
  }

  /** AttachRecentAdverts */
  function Attached(r: Registry, recent: map<string, seq<Advert>>, cap: nat): Registry {
    r.(nodes := map k | k in r.nodes ::
                  if k in recent && Fills(r.nodes[k], recent[k]) then r.nodes[k].(latest := Trim(recent[k], cap))
                  else r.nodes[k])
  }

  function FlaggedNode(n: Node, desired: map<string, seq<string>>, k: string): Node {
    if k in desired then n.(flags := desired[k]) else n
  }

  /** The nodes once the flags of those in `done` are set. */
  function SomeFlagged(nodes: map<string, Node>, desired: map<string, seq<string>>, done: set<string>)
    : map<string, Node>
  {
    map k | k in nodes :: if k in done then FlaggedNode(nodes[k], desired, k) else nodes[k]
  }

  /** The nodes among them whose flags really change. */
  function Reflagged(nodes: map<string, Node>, desired: map<string, seq<string>>, done: set<string>): set<string> {
    set k | k in done && k in desired && k in nodes && nodes[k].flags != desired[k]
  }

  lemma FlagChanges(nodes: map<string, Node>, desired: map<string, seq<string>>, done: set<string>, k: string)
    requires k in desired && k !in done && k in nodes && nodes[k].flags != desired[k]
    ensures k !in Reflagged(nodes, desired, done)
    ensures Reflagged(nodes, desired, done + {k}) == Reflagged(nodes, desired, done) + {k}
    ensures SomeFlagged(nodes, desired, done + {k})
            == SomeFlagged(nodes, desired, done)[k := nodes[k].(flags := desired[k])]
  {
  }

  lemma FlagStays(nodes: map<string, Node>, desired: map<string, seq<string>>, done: set<string>, k: string)
    requires k in desired && k !in done && (k in nodes ==> nodes[k].flags == desired[k])
    ensures Reflagged(nodes, desired, done + {k}) == Reflagged(nodes, desired, done)
    ensures SomeFlagged(nodes, desired, done + {k}) == SomeFlagged(nodes, desired, done)
  {
  }

  lemma NotFlaggedYet(nodes: map<string, Node>, desired: map<string, seq<string>>, done: set<string>, k: string)
    requires k !in done
    ensures k in SomeFlagged(nodes, desired, done) <==> k in nodes
    ensures k in nodes ==> SomeFlagged(nodes, desired, done)[k] == nodes[k]
  {
  }

  lemma MarkOneMore(dirty: set<string>, before: set<string>, k: string)
    requires k !in before
    ensures dirty + before + {k} == dirty + (before + {k}) && |before + {k}| == |before| + 1
  {
  }

  /** The flags of the nodes in `done` have been set. */
  ghost predicate Flagging(was: Registry, desired: map<string, seq<string>>, done: set<string>,
                           nodes: map<string, Node>, dirty: set<string>, changed: nat)
  {
    var touched := Reflagged(was.nodes, desired, done);
    nodes == SomeFlagged(was.nodes, desired, done) && dirty == was.dirty + touched && changed == |touched|
  }

  lemma FlagNext(was: Registry, desired: map<string, seq<string>>, done: set<string>, k: string,
                 nodes: map<string, Node>, dirty: set<string>, changed: nat)
    requires Flagging(was, desired, done, nodes, dirty, changed) && k in desired && k !in done
    ensures if k in nodes && nodes[k].flags != desired[k] then
              Flagging(was, desired, done + {k}, nodes[k := nodes[k].(flags := desired[k])], dirty + {k}, changed + 1)
            else Flagging(was, desired, done + {k}, nodes, dirty, changed)
  {
    hide SomeFlagged, Reflagged;
    NotFlaggedYet(was.nodes, desired, done, k);
    if k in nodes && nodes[k].flags != desired[k] {
      FlagChanges(was.nodes, desired, done, k);
      MarkOneMore(was.dirty, Reflagged(was.nodes, desired, done), k);
    } else {
      FlagStays(was.nodes, desired, done, k);
    }
  }

  lemma FlaggedAll(r: Registry, desired: map<string, seq<string>>)
    ensures SomeFlagged(r.nodes, desired, {}) == r.nodes && Reflagged(r.nodes, desired, {}) == {}
    ensures Flagged(r, desired)
            == r.(nodes := SomeFlagged(r.nodes, desired, desired.Keys),
                  dirty := r.dirty + Reflagged(r.nodes, desired, desired.Keys))
  {
    assert Flagged(r, desired).nodes == SomeFlagged(r.nodes, desired, desired.Keys);
  }

  /** ApplyFlags */
  function Flagged(r: Registry, desired: map<string, seq<string>>): Registry {
    r.(nodes := map k | k in r.nodes :: FlaggedNode(r.nodes[k], desired, k),
       dirty := r.dirty + set k | k in desired && k in r.nodes && r.nodes[k].flags != desired[k])
  }

  lemma FlaggedFields(r: Registry, desired: map<string, seq<string>>)
    ensures var r' := Flagged(r, desired);
            && r'.nodes.Keys == r.nodes.Keys
            && (forall k :: k in r'.nodes ==>
                  r'.nodes[k] == r.nodes[k].(flags := if k in desired then desired[k] else r.nodes[k].flags))
            && (forall k :: k in r'.dirty <==>
                  k in r.dirty || (k in desired && k in r.nodes && r.nodes[k].flags != desired[k]))
  {
  }

  lemma FlaggingStarts(was: Registry, desired: map<string, seq<string>>)
    ensures Flagging(was, desired, {}, was.nodes, was.dirty, 0)
  {
    FlaggedAll(was, desired);
  }

  lemma FlaggingDone(was: Registry, desired: map<string, seq<string>>, nodes: map<string, Node>, dirty: set<string>,
                     changed: nat)
    requires Flagging(was, desired, desired.Keys, nodes, dirty, changed)
    ensures Registry(nodes, dirty, was.pending) == Flagged(was, desired)
    ensures changed == |Reflagged(was.nodes, desired, desired.Keys)|
  {
    hide SomeFlagged, Reflagged, Flagged;
    FlaggedAll(was, desired);
  }

  /** Restore, of one persisted node. */
  function RestoredNode(n: Node, recent: map<string, seq<Advert>>, cap: nat): Node {
    if n.pubKey in recent && recent[n.pubKey] != [] then n.(latest := Trim(recent[n.pubKey], cap)) else n
  }

  function RestoredAll(nodes: map<string, Node>, records: seq<Node>, recent: map<string, seq<Advert>>,
                       cap: nat): map<string, Node> {
    if records == [] then nodes
    else
      var n := records[|records| - 1];
      RestoredAll(nodes, records[..|records| - 1], recent, cap)[n.pubKey := RestoredNode(n, recent, cap)]
  }

  /** Record `i` is the last one of node `k`. */
  ghost predicate LastOf(records: seq<Node>, k: string, i: int) {
    0 <= i < |records| && records[i].pubKey == k && forall j :: i < j < |records| ==> records[j].pubKey != k
  }

  /** The node is the record, its list the newest adverts read for it, up to the cap, if there
      are any. */
  predicate Reads(n: Node, rec: Node, recent: map<string, seq<Advert>>, cap: nat) {
    var k := rec.pubKey;
    n == rec.(latest := if k !in recent || recent[k] == [] then rec.latest
                        else if |recent[k]| > cap then recent[k][..cap] else recent[k])
  }

  lemma RestoredReads(rec: Node, recent: map<string, seq<Advert>>, cap: nat)
    ensures Reads(RestoredNode(rec, recent, cap), rec, recent, cap)
  {
  }

  lemma LastIsInside(records: seq<Node>, k: string, i: int)
    ensures LastOf(records, k, i) ==> 0 <= i < |records|
  {
  }

  lemma LastSnoc(records: seq<Node>, k: string, i: int)
    requires records != []
    ensures var n := |records| - 1;
            LastOf(records, k, i) <==> if records[n].pubKey == k then i == n else LastOf(records[..n], k, i)
  {
    assert forall j :: 0 <= j < |records| - 1 ==> records[..|records| - 1][j] == records[j];
  }

  /** A restored node is read from the last record of its key. Nodes without a record stay as
      they are. */
  lemma {:induction false} RestoredIsLast(nodes: map<string, Node>, records: seq<Node>,
                                          recent: map<string, seq<Advert>>, cap: nat, k: string)
    ensures var r := RestoredAll(nodes, records, recent, cap);
            && (forall i :: LastOf(records, k, i) ==> k in r && Reads(r[k], records[i], recent, cap))
            && ((forall i :: 0 <= i < |records| ==> records[i].pubKey != k) ==>
                  (k in r <==> k in nodes) && (k in r ==> r[k] == nodes[k]))
  {
    hide RestoredNode, Reads, LastOf;
    if records == [] {
      forall i ensures !LastOf(records, k, i) {
        LastIsInside(records, k, i);
      }
    } else {
      var n := |records| - 1;
      RestoredIsLast(nodes, records[..n], recent, cap, k);
      RestoredReads(records[n], recent, cap);
      forall i
        ensures LastOf(records, k, i) <==> if records[n].pubKey == k then i == n else LastOf(records[..n], k, i)
      {
        LastSnoc(records, k, i);
      }
      forall i | LastOf(records[..n], k, i) ensures 0 <= i < n && records[..n][i] == records[i] {
        LastIsInside(records[..n], k, i);
      }
      assert forall i :: 0 <= i < n ==> records[..n][i] == records[i];
    }
  }

  /** The adverts of one node, in order. */
  function Of(adverts: seq<Advert>, k: string): seq<Advert> {
    if adverts == [] then []
    else
      var last := adverts[|adverts| - 1];
      Of(adverts[..|adverts| - 1], k) + if last.pubKey == k then [last] else []
  }

  /** The newest adverts of one node in the history table, newest first. */
  function Newest(adverts: seq<Advert>, k: string, limit: nat): seq<Advert> {
    if adverts == [] || limit == 0 then []
    else
      var last, init := adverts[|adverts| - 1], adverts[..|adverts| - 1];
      if last.pubKey == k then [last] + Newest(init, k, limit - 1) else Newest(init, k, limit)
  }

  /** `list` shows the end of `history`, newest first. */
  ghost predicate NewestFirst(list: seq<Advert>, history: seq<Advert>) {
    |list| <= |history| && forall i :: 0 <= i < |list| ==> list[i] == history[|history| - 1 - i]
  }

  lemma {:induction false} NewestIsNewestFirst(adverts: seq<Advert>, k: string, limit: nat)
    ensures var r, h := Newest(adverts, k, limit), Of(adverts, k);
            NewestFirst(r, h) && |r| == if |h| < limit then |h| else limit
  {
    if adverts != [] && limit > 0 {
      var last, init := adverts[|adverts| - 1], adverts[..|adverts| - 1];
      NewestIsNewestFirst(init, k, if last.pubKey == k then limit - 1 else limit);
    }
  }

  /** Pushing an advert onto a rolling list keeps it the newest part of the history. */
  lemma PushKeepsNewestFirst(list: seq<Advert>, history: seq<Advert>, a: Advert, cap: nat)
    requires NewestFirst(list, history)
    ensures NewestFirst(Trim([a] + list, cap), history + [a])
  {
  }

  lemma OfSnoc(adverts: seq<Advert>, a: Advert, k: string)
    ensures Of(adverts + [a], k) == Of(adverts, k) + if a.pubKey == k then [a] else []
  {
    assert (adverts + [a])[..|adverts|] == adverts;
  }

  lemma {:induction false} OfConcat(a: seq<Advert>, b: seq<Advert>, k: string)
    ensures Of(a + b, k) == Of(a, k) + Of(b, k)
  {
    if b == [] {
      assert a + b == a;
    } else {
      OfConcat(a, b[..|b| - 1], k);
      assert (a + b)[..|a + b| - 1] == a + b[..|b| - 1];
    }
  }
}
