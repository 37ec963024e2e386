/** The life of adverts and node rows between memory and disk: live adverts, the advert flush
    with its failures, the node flush with its retries, and the background backfill. One event
    is one locked section, one transaction or one query. */
module Adverts {
  import opened NodeModel

  /** The advert flush: idle, holding a copy of the buffer, or saved but not yet cleared. */
  datatype AdvertFlush = Idle | Holding(batch: seq<Advert>) | Saved(n: nat)

  /** The node flush: idle, saving what it took, or marking it dirty again. */
  datatype NodeFlush = Resting | Saving(batch: map<string, Node>) | Failed(batch: map<string, Node>)

  /** `history` is the append-only table, `rows` the nodes table, `recent` what the backfill
      has read so far, `heard` the adverts observed since the start. */
  datatype World = World(reg: Registry, history: seq<Advert>, rows: map<string, Node>, adverts: AdvertFlush,
                         overview: NodeFlush, recent: map<string, seq<Advert>>, heard: seq<Advert>)

  datatype Event =
    | Hear(a: Advert)
    | TakePending
    | Append
    | AppendFails
    | Clear
    | ReadRecent(key: string)
    | Attach
    | Flag(desired: map<string, seq<string>>)
    | TakeNodes
    | SaveNodes
    | SaveNodesFails
    | RequeueNodes

  /** The start of a process: the node rows are restored at once, without their lists. */
  function Start(history: seq<Advert>, rows: map<string, Node>): World {
    World(Registry(rows, {}, []), history, rows, Idle, Resting, map[], [])
  }

  predicate Enabled(w: World, e: Event) {
    match e
    case TakePending => w.adverts == Idle && w.reg.pending != []
    case Append => w.adverts.Holding?
    case AppendFails => w.adverts.Holding?
    case Clear => w.adverts.Saved?
    case TakeNodes => w.overview == Resting && w.reg.dirty != {}
    case SaveNodes => w.overview.Saving?
    case SaveNodesFails => w.overview.Saving?
    case RequeueNodes => w.overview.Failed?
    case _ => true
  }

  function Next(w: World, e: Event, cap: nat): World
    requires Enabled(w, e)
  {
    match e
    case Hear(a) => w.(reg := Heard(w.reg, a, cap), heard := if a.pubKey == "" then w.heard else w.heard + [a])
    case TakePending => w.(adverts := Holding(w.reg.pending))
    case Append => w.(history := w.history + w.adverts.batch, adverts := Saved(|w.adverts.batch|))
    case AppendFails => w.(adverts := Idle)
    case Clear => w.(reg := Cleared(w.reg, w.adverts.n), adverts := Idle)
    case ReadRecent(k) => w.(recent := w.recent[k := Newest(w.history, k, DEFAULT_ADVERTS_PER_NODE)])
    case Attach => w.(reg := Attached(w.reg, w.recent, cap))
    case Flag(desired) => w.(reg := Flagged(w.reg, desired))
    case TakeNodes => w.(reg := w.reg.(dirty := {}), overview := Saving(DirtyNodes(w.reg)))
    case SaveNodes => w.(rows := w.rows + w.overview.batch, overview := Resting)
    case SaveNodesFails => w.(overview := Failed(w.overview.batch))
    case RequeueNodes => w.(reg := Requeued(w.reg, w.overview.batch.Keys), overview := Resting)
  }

  function Step(w: World, e: Event, cap: nat): World {
    if Enabled(w, e) then Next(w, e, cap) else w
  }

  function Run(w: World, events: seq<Event>, cap: nat): World {
    if events == [] then w else Step(Run(w, events[..|events| - 1], cap), events[|events| - 1], cap)
  }

  // ---------------------------------------------------------------- exactly once

  /** The durable adverts followed by the buffer are all adverts, each once, in order. Only
      between the commit and the clear the first `n` of the buffer are durable already. */
  ghost predicate ExactlyOnce(w: World, base: seq<Advert>) {
    base <= w.history &&
    match w.adverts
    case Idle => w.history + w.reg.pending == base + w.heard
    case Holding(batch) => w.history + w.reg.pending == base + w.heard && batch <= w.reg.pending
    case Saved(n) =>
      && n <= |w.reg.pending| && n <= |w.history|
      && w.history[|w.history| - n..] == w.reg.pending[..n]
      && w.history + w.reg.pending[n..] == base + w.heard
  }

  lemma StepKeepsExactlyOnce(w: World, base: seq<Advert>, e: Event, cap: nat)
    requires ExactlyOnce(w, base)
    ensures ExactlyOnce(Step(w, e, cap), base)
  {
    hide Advertised, Newest;
    match e
    case Hear(a) =>
      if a.pubKey != "" {
        var p := w.reg.pending;
        assert base + (w.heard + [a]) == (base + w.heard) + [a];
        assert w.history + (p + [a]) == (w.history + p) + [a];
        if w.adverts.Saved? {
          var n := w.adverts.n;
          assert (p + [a])[n..] == p[n..] + [a] && (p + [a])[..n] == p[..n];
          assert w.history + (p[n..] + [a]) == (w.history + p[n..]) + [a];
        }
      }
    case Append =>
      if w.adverts.Holding? {
        var b, p := w.adverts.batch, w.reg.pending;
        assert p == b + p[|b|..];
        assert (w.history + b) + p[|b|..] == w.history + p;
      }
    case _ =>
  }

  lemma {:induction false} AdvertsExactlyOnce(history: seq<Advert>, rows: map<string, Node>, events: seq<Event>,
                                              cap: nat)
    ensures ExactlyOnce(Run(Start(history, rows), events, cap), history)
  {
    if events != [] {
      AdvertsExactlyOnce(history, rows, events[..|events| - 1], cap);
      StepKeepsExactlyOnce(Run(Start(history, rows), events[..|events| - 1], cap), history, events[|events| - 1], cap);
    }
  }

  // ---------------------------------------------------------------- rolling lists

  /** Node `k`'s list is the newest part of its whole history, within the cap, and holds at
      least what was heard since the start, as far as the cap allows. */
  ghost predicate ListOk(w: World, base: seq<Advert>, rows: map<string, Node>, k: string, cap: nat) {
    var live := Of(w.heard, k);
    if k in w.reg.nodes then
      var n := w.reg.nodes[k];
      && NewestFirst(n.latest, Of(base, k) + live)
      && (if |live| < cap then |live| else cap) <= |n.latest| <= cap
      && n.advertCount == |live| + (if k in rows then rows[k].advertCount else 0)
    else live == [] && k !in rows
  }

  /** What the backfill has read of a node that has not been heard is its history's end. */
  ghost predicate RecentOk(w: World, base: seq<Advert>, k: string)
    requires k in w.recent
  {
    Of(w.heard, k) == [] ==> NewestFirst(w.recent[k], Of(base, k))
  }

  ghost predicate ListsOk(w: World, base: seq<Advert>, rows: map<string, Node>, cap: nat) {
    && (forall k {:trigger ListOk(w, base, rows, k, cap)} :: ListOk(w, base, rows, k, cap))
    && (forall k {:trigger w.recent[k]} :: k in w.recent ==> RecentOk(w, base, k))
  }

  lemma NothingIsNewest(h: seq<Advert>)
    ensures NewestFirst([], h + [])
  {
  }

  lemma AdvertisedList(n: Node, h: seq<Advert>, a: Advert, cap: nat)
    ensures var n' := Advertised(n, a, cap);
            && (NewestFirst(n.latest, h) ==> NewestFirst(n'.latest, h + [a]))
            && |n'.latest| == (if |n.latest| < cap then |n.latest| + 1 else cap) && n'.advertCount == n.advertCount + 1
  {
    if NewestFirst(n.latest, h) { PushKeepsNewestFirst(n.latest, h, a, cap); }
  }

  lemma HeardList(w: World, base: seq<Advert>, rows: map<string, Node>, a: Advert, cap: nat)
    requires ListOk(w, base, rows, a.pubKey, cap) && 0 < cap && a.pubKey != ""
    ensures ListOk(Next(w, Hear(a), cap), base, rows, a.pubKey, cap)
  {
    HeardNode(w, a, cap);
    hide Advertised, NewestFirst, Next, NodeOf, Of;
    var k := a.pubKey;
    var h := Of(base, k) + Of(w.heard, k);
    OfSnoc(w.heard, a, k);
    NothingIsNewest(Of(base, k));
    AdvertisedList(NodeOf(w.reg, a), h, a, cap);
    assert h + [a] == Of(base, k) + (Of(w.heard, k) + [a]);
  }

  lemma HeardNode(w: World, a: Advert, cap: nat)
    requires a.pubKey != ""
    ensures var w', n := Next(w, Hear(a), cap), NodeOf(w.reg, a);
            && a.pubKey in w'.reg.nodes && w'.reg.nodes[a.pubKey] == Advertised(n, a, cap) && w'.heard == w.heard + [a]
            && if a.pubKey in w.reg.nodes then n == w.reg.nodes[a.pubKey] else n.latest == [] && n.advertCount == 0
  {
    hide Advertised;
  }

  lemma UnheardList(w: World, base: seq<Advert>, rows: map<string, Node>, a: Advert, cap: nat, k: string)
    requires ListOk(w, base, rows, k, cap) && a.pubKey != "" && k != a.pubKey
    ensures ListOk(Next(w, Hear(a), cap), base, rows, k, cap)
  {
    hide Advertised, NewestFirst;
    OfSnoc(w.heard, a, k);
    assert Of(w.heard, k) + [] == Of(w.heard, k);
  }

  lemma HearKeepsLists(w: World, base: seq<Advert>, rows: map<string, Node>, a: Advert, cap: nat)
    requires ListsOk(w, base, rows, cap) && 0 < cap && a.pubKey != ""
    ensures ListsOk(Next(w, Hear(a), cap), base, rows, cap)
  {
    hide ListOk, NewestFirst, Heard;
    var w' := Next(w, Hear(a), cap);
    forall k ensures ListOk(w', base, rows, k, cap) {
      assert ListOk(w, base, rows, k, cap);
      if k == a.pubKey { HeardList(w, base, rows, a, cap); } else { UnheardList(w, base, rows, a, cap, k); }
    }
    forall k | k in w'.recent ensures RecentOk(w', base, k) {
      assert RecentOk(w, base, k);
      OfSnoc(w.heard, a, k);
    }
  }

  /** What is durable of a node that has not been heard since the start was durable then. */
  lemma UnheardHistory(w: World, base: seq<Advert>, k: string)
    requires ExactlyOnce(w, base) && Of(w.heard, k) == []
    ensures Of(w.history, k) == Of(base, k)
  {
    var rest := if w.adverts.Saved? then w.reg.pending[w.adverts.n..] else w.reg.pending;
    OfConcat(w.history, rest, k);
    OfConcat(base, w.heard, k);
    OfConcat(base, w.history[|base|..], k);
    assert w.history == base + w.history[|base|..];
  }

  lemma ReadKeepsLists(w: World, base: seq<Advert>, rows: map<string, Node>, k: string, cap: nat)
    requires ListsOk(w, base, rows, cap) && ExactlyOnce(w, base)
    ensures ListsOk(Next(w, ReadRecent(k), cap), base, rows, cap)
  {
    var w' := Next(w, ReadRecent(k), cap);
    NewestIsNewestFirst(w.history, k, DEFAULT_ADVERTS_PER_NODE);
    if Of(w.heard, k) == [] { UnheardHistory(w, base, k); }
    forall x ensures ListOk(w', base, rows, x, cap) {
      assert ListOk(w, base, rows, x, cap);
    }
    forall x | x in w'.recent ensures RecentOk(w', base, x) {
      if x != k { assert RecentOk(w, base, x); }
    }
  }

  lemma AttachKeepsLists(w: World, base: seq<Advert>, rows: map<string, Node>, cap: nat)
    requires ListsOk(w, base, rows, cap) && 0 < cap
    ensures ListsOk(Next(w, Attach, cap), base, rows, cap)
  {
    var w' := Next(w, Attach, cap);
    forall k ensures ListOk(w', base, rows, k, cap) {
      assert ListOk(w, base, rows, k, cap);
      if k in w.reg.nodes && k in w.recent && Fills(w.reg.nodes[k], w.recent[k]) {
        assert RecentOk(w, base, k);
        assert Of(base, k) + [] == Of(base, k);
      }
    }
    forall k | k in w'.recent ensures RecentOk(w', base, k) {
      assert RecentOk(w, base, k);
    }
  }

  /** Events that touch neither the lists nor what was read. */
  lemma OthersKeepLists(w: World, base: seq<Advert>, rows: map<string, Node>, e: Event, cap: nat)
    requires ListsOk(w, base, rows, cap) && !e.Hear? && !e.ReadRecent? && !e.Attach?
    ensures ListsOk(Step(w, e, cap), base, rows, cap)
  {
    hide NewestFirst;
    var w' := Step(w, e, cap);
    forall k ensures ListOk(w', base, rows, k, cap) {
      assert ListOk(w, base, rows, k, cap);
    }
    forall k | k in w'.recent ensures RecentOk(w', base, k) {
      assert RecentOk(w, base, k);
    }
  }

  lemma StepKeepsLists(w: World, base: seq<Advert>, rows: map<string, Node>, e: Event, cap: nat)
    requires ListsOk(w, base, rows, cap) && ExactlyOnce(w, base) && 0 < cap
    ensures ListsOk(Step(w, e, cap), base, rows, cap)
  {
    hide ListsOk, ExactlyOnce, Heard, Attached, Newest;
    match e
    case Hear(a) => if a.pubKey != "" { HearKeepsLists(w, base, rows, a, cap); } else { EmptyKeyIgnored(w, a, cap); }
    case ReadRecent(k) => ReadKeepsLists(w, base, rows, k, cap);
    case Attach => AttachKeepsLists(w, base, rows, cap);
    case _ => OthersKeepLists(w, base, rows, e, cap);
  }

  lemma EmptyKeyIgnored(w: World, a: Advert, cap: nat)
    requires a.pubKey == ""
    ensures Step(w, Hear(a), cap) == w
  {
  }

  /** The nodes table before the start: every row under its key, without a list. */
  ghost predicate RowsOk(rows: map<string, Node>) {
    forall k {:trigger rows[k]} :: k in rows ==> rows[k].latest == []
  }

  /** In every run every node's list is the newest part of that node's whole history, persisted
      and live, within the cap, and its count covers both. */
  lemma {:induction false} ListsShowNewest(history: seq<Advert>, rows: map<string, Node>, events: seq<Event>, cap: nat)
    requires RowsOk(rows) && 0 < cap
    ensures ListsOk(Run(Start(history, rows), events, cap), history, rows, cap)
  {
    if events == [] {
      var w := Start(history, rows);
      forall k ensures ListOk(w, history, rows, k, cap) {
      }
    } else {
      hide ListsOk, ExactlyOnce, Step;
      var init := events[..|events| - 1];
      ListsShowNewest(history, rows, init, cap);
      AdvertsExactlyOnce(history, rows, init, cap);
      StepKeepsLists(Run(Start(history, rows), init, cap), history, rows, events[|events| - 1], cap);
    }
  }

  // ---------------------------------------------------------------- node rows

  /** The node rows on their way to disk. */
  function Batch(w: World): map<string, Node> {
    if w.overview.Resting? then map[] else w.overview.batch
  }

  /** The row is the node in every field but its list. */
  predicate ShowsNode(row: Node, n: Node) {
    row == n.(latest := row.latest)
  }

  /** A node is dirty, or on its way to disk, or shown by its row; what is on its way shows a
      node that is not dirty again. */
  ghost predicate RowInv(w: World, k: string) {
    && (k in w.reg.dirty || k in Batch(w) || k in w.rows ==> k in w.reg.nodes)
    && (k in w.reg.nodes ==>
          && (k in w.reg.dirty || k in Batch(w) || (k in w.rows && ShowsNode(w.rows[k], w.reg.nodes[k])))
          && (k in Batch(w) ==> k in w.reg.dirty || ShowsNode(Batch(w)[k], w.reg.nodes[k])))
  }

  lemma StepKeepsRow(w: World, e: Event, cap: nat, k: string)
    requires RowInv(w, k)
    ensures RowInv(Step(w, e, cap), k)
  {
    hide Newest, Advertised, Trim;
  }

  /** Every change of a node reaches its row: in every run each node is dirty, in the batch
      being saved or retried, or exactly shown by its row. */
  lemma {:induction false} NodesAreNeverLost(history: seq<Advert>, rows: map<string, Node>, events: seq<Event>,
                                             cap: nat, k: string)
    requires RowsOk(rows)
    ensures RowInv(Run(Start(history, rows), events, cap), k)
  {
    if events != [] {
      NodesAreNeverLost(history, rows, events[..|events| - 1], cap, k);
      StepKeepsRow(Run(Start(history, rows), events[..|events| - 1], cap), events[|events| - 1], cap, k);
    }
  }
}
