/** The durable link tables of db.go: one row per link, one row per link and network. */
module LinkStores {
  import opened Keys
  import opened LinkModel

  /** A link's row together with its network rows. */
  datatype Row = Row(link: Rec, nets: map<string, Net>)

  type Rows = map<LinkKey, Row>

  /** What the links table stores of a record. */
  function Strip(rec: Rec): Rec {
    rec.(networks := [], dirty := false)
  }

  function ById(nets: seq<Net>): map<string, Net> {
    if nets == [] then map[] else ById(nets[1..])[nets[0].id := nets[0]]
  }

  /** The row that shows a record in full. */
  function RowOf(rec: Rec): Row {
    Row(Strip(rec), ById(rec.networks))
  }

  ghost predicate DistinctIds(nets: seq<Net>) {
    forall i, j :: 0 <= i < j < |nets| ==> nets[i].id != nets[j].id
  }

  function Min(x: int, y: int): int {
    if y < x then y else x
  }

  /** ON CONFLICT for a link: the first sighting only moves back, the last only forward,
      the rest is overwritten. */
  function UpsertLink(was: Rec, rec: Rec): Rec {
    Strip(rec).(firstSeen := Min(was.firstSeen, rec.firstSeen), lastSeen := Later(was.lastSeen, rec.lastSeen))
  }

  function UpsertNet(was: Net, n: Net): Net {
    n.(firstSeen := Min(was.firstSeen, n.firstSeen), lastSeen := Later(was.lastSeen, n.lastSeen))
  }

  /** The network rows of a link after saving its networks one by one. */
  function UpsertNets(was: map<string, Net>, nets: seq<Net>): map<string, Net>
    decreases nets
  {
    if nets == [] then was
    else
      var n := nets[0];
      UpsertNets(was[n.id := if n.id in was then UpsertNet(was[n.id], n) else n], nets[1..])
  }

  /** The row of one saved record. */
  function Upsert(rows: Rows, k: LinkKey, rec: Rec): Row {
    if k in rows then Row(UpsertLink(rows[k].link, rec), UpsertNets(rows[k].nets, rec.networks))
    else Row(Strip(rec), UpsertNets(map[], rec.networks))
  }

  /** The tables after one committed transaction. */
  function Saved(rows: Rows, batch: map<LinkKey, Rec>): Rows {
    map k | k in rows.Keys + batch.Keys :: if k in batch then Upsert(rows, k, batch[k]) else rows[k]
  }

  // ---------------------------------------------------------------- later states of a row

  ghost predicate NetExtends(n: Net, was: Net, ordered: bool) {
    n.id == was.id && n.firstSeen <= was.firstSeen && (ordered ==> n.lastSeen >= was.lastSeen)
  }

  ghost predicate NetsExtend(nets: map<string, Net>, was: map<string, Net>, ordered: bool) {
    forall id {:trigger was[id]} :: id in was ==> id in nets && NetExtends(nets[id], was[id], ordered)
  }

  /** `row` knows every network of `was` and all first sightings are at least as early; if
      observations came in order, the last sightings are at least as late. */
  ghost predicate Extends(row: Row, was: Row, ordered: bool) {
    && row.link.firstSeen <= was.link.firstSeen && (ordered ==> row.link.lastSeen >= was.link.lastSeen)
    && NetsExtend(row.nets, was.nets, ordered)
  }

  lemma ExtendsTransitive(a: Row, b: Row, c: Row, ordered: bool)
    requires Extends(a, b, ordered) && Extends(b, c, ordered)
    ensures Extends(a, c, ordered)
  {
    forall id | id in c.nets ensures id in a.nets && NetExtends(a.nets[id], c.nets[id], ordered) {
      assert NetExtends(b.nets[id], c.nets[id], ordered);
      assert NetExtends(a.nets[id], b.nets[id], ordered);
    }
  }

  lemma ExtendsWeaker(a: Row, b: Row, ordered: bool, ordered': bool)
    requires Extends(a, b, ordered) && (ordered' ==> ordered)
    ensures Extends(a, b, ordered')
  {
  }

  /** `net` is `n` except that its last sighting may be later. */
  ghost predicate NetShows(net: Net, n: Net) {
    net == n.(lastSeen := net.lastSeen) && n.lastSeen <= net.lastSeen
  }

  ghost predicate NetsShow(nets: map<string, Net>, full: map<string, Net>) {
    nets.Keys == full.Keys && forall id {:trigger nets[id]} :: id in nets ==> NetShows(nets[id], full[id])
  }

  /** The row is exactly `full` if observations came in order; otherwise it may remember later
      last sightings, and nothing else. */
  ghost predicate Shows(row: Row, full: Row, ordered: bool) {
    && row.link == full.link.(lastSeen := row.link.lastSeen) && full.link.lastSeen <= row.link.lastSeen
    && NetsShow(row.nets, full.nets)
    && (ordered ==> row == full)
  }

  lemma ShowsWeaker(row: Row, full: Row, ordered: bool, ordered': bool)
    requires Shows(row, full, ordered) && (ordered' ==> ordered)
    ensures Shows(row, full, ordered')
  {
    hide NetsShow;
  }

  /** What extends a record extends a row that shows it. */
  lemma ExtendsShown(a: Row, full: Row, row: Row, ordered: bool)
    requires Extends(a, full, ordered) && Shows(row, full, ordered)
    ensures Extends(a, row, ordered)
  {
    forall id | id in row.nets ensures id in a.nets && NetExtends(a.nets[id], row.nets[id], ordered) {
      assert NetShows(row.nets[id], full.nets[id]);
      assert NetExtends(a.nets[id], full.nets[id], ordered);
    }
  }

  lemma ShowsItself(row: Row, ordered: bool)
    ensures Shows(row, row, ordered) && Extends(row, row, ordered)
  {
  }

  lemma {:induction false} ByIdHas(nets: seq<Net>, i: nat)
    requires i < |nets|
    ensures nets[i].id in ById(nets) && (DistinctIds(nets) ==> ById(nets)[nets[i].id] == nets[i])
  {
    if i > 0 { ByIdHas(nets[1..], i - 1); }
  }

  lemma {:induction false} ByIdFrom(nets: seq<Net>, id: string) returns (i: nat)
    requires id in ById(nets)
    ensures i < |nets| && nets[i].id == id && ById(nets)[id] == nets[i]
  {
    if nets[0].id == id {
      i := 0;
    } else {
      var j := ByIdFrom(nets[1..], id);
      i := j + 1;
    }
  }

  /** A network row after its network is saved. */
  function SavedNet(was: map<string, Net>, n: Net): Net {
    if n.id in was then UpsertNet(was[n.id], n) else n
  }

  /** Saving networks touches exactly their rows, each as if it were saved alone. */
  lemma {:induction false} UpsertEach(was: map<string, Net>, nets: seq<Net>)
    requires DistinctIds(nets)
    ensures UpsertNets(was, nets) == was + map id | id in ById(nets) :: SavedNet(was, ById(nets)[id])
    decreases nets
  {
    if nets != [] {
      var n, t := nets[0], nets[1..];
      var next := was[n.id := SavedNet(was, n)];
      assert DistinctIds(t);
      UpsertEach(next, t);
      forall id | id in ById(t) ensures id != n.id && ById(t)[id].id == id {
        var j := ByIdFrom(t, id);
        assert t[j] == nets[j + 1];
      }
    }
  }

  /** A network that extends its row is shown by it once saved. */
  lemma SavedNetShows(was: map<string, Net>, n: Net, ordered: bool)
    requires n.id in was ==> NetExtends(n, was[n.id], ordered)
    ensures NetShows(SavedNet(was, n), n) && (ordered ==> SavedNet(was, n) == n)
  {
  }

  lemma UpsertShows(was: map<string, Net>, nets: seq<Net>, ordered: bool)
    requires DistinctIds(nets) && NetsExtend(ById(nets), was, ordered)
    ensures NetsShow(UpsertNets(was, nets), ById(nets)) && (ordered ==> UpsertNets(was, nets) == ById(nets))
  {
    hide NetShows, SavedNet;
    UpsertEach(was, nets);
    var full, saved := ById(nets), UpsertNets(was, nets);
    assert saved.Keys == full.Keys;
    forall id | id in full ensures NetShows(saved[id], full[id]) && (ordered ==> saved[id] == full[id]) {
      var i := ByIdFrom(nets, id);
      if id in was { assert NetExtends(full[id], was[id], ordered); }
      SavedNetShows(was, full[id], ordered);
    }
  }

  /** A saved record that extends its row is shown by it: nothing is lost and nothing of the
      old row is left but, at most, a later last sighting. */
  lemma SavedIsRecord(rows: Rows, k: LinkKey, rec: Rec, ordered: bool)
    requires DistinctIds(rec.networks) && (k in rows ==> Extends(RowOf(rec), rows[k], ordered))
    ensures Shows(Upsert(rows, k, rec), RowOf(rec), ordered)
  {
    hide NetExtends, NetShows, ById, UpsertNets;
    UpsertShows(if k in rows then rows[k].nets else map[], rec.networks, ordered);
  }

  /** The network rows hold exactly these networks; if observations came out of order, a last
      sighting may be later in its row. */
  ghost predicate NetsHeld(rows: map<string, Net>, nets: seq<Net>, ordered: bool) {
    && (forall n :: n in nets ==>
          && n.id in rows && rows[n.id].(lastSeen := n.lastSeen) == n && n.lastSeen <= rows[n.id].lastSeen
          && (ordered ==> rows[n.id] == n))
    && (forall id :: id in rows ==> exists n :: n in nets && n.id == id)
  }

  /** A row that shows a record holds it field by field, whatever the row stores of it. */
  lemma ShownIsHeld(row: Row, rec: Rec, ordered: bool)
    requires Shows(row, RowOf(rec), ordered) && DistinctIds(rec.networks)
    ensures row.link.(networks := rec.networks, dirty := rec.dirty, lastSeen := rec.lastSeen) == rec
    ensures rec.lastSeen <= row.link.lastSeen && (ordered ==> row.link.lastSeen == rec.lastSeen)
    ensures NetsHeld(row.nets, rec.networks, ordered)
  {
    hide ById, DistinctIds;
    var nets := rec.networks;
    forall n | n in nets ensures n.id in row.nets && NetShows(row.nets[n.id], n) && (ordered ==> row.nets[n.id] == n) {
      var i :| 0 <= i < |nets| && nets[i] == n;
      ByIdHas(nets, i);
      assert n.id in row.nets && NetShows(row.nets[n.id], ById(nets)[n.id]);
    }
    forall id | id in row.nets ensures exists n :: n in nets && n.id == id {
      var i := ByIdFrom(nets, id);
      assert nets[i] in nets;
    }
  }

  /** The record is no older than the row: it was first seen no later and last seen no
      earlier, and so was each network that has a row. */
  ghost predicate Follows(rec: Rec, row: Row) {
    && rec.firstSeen <= row.link.firstSeen && row.link.lastSeen <= rec.lastSeen
    && forall id :: id in row.nets ==>
         exists n :: n in rec.networks && n.id == id == row.nets[id].id
                     && n.firstSeen <= row.nets[id].firstSeen && row.nets[id].lastSeen <= n.lastSeen
  }

  lemma FollowsExtends(rec: Rec, row: Row)
    requires Follows(rec, row) && DistinctIds(rec.networks)
    ensures Extends(RowOf(rec), row, true)
  {
    hide ById, DistinctIds;
    var nets := rec.networks;
    forall id | id in row.nets ensures id in ById(nets) && NetExtends(ById(nets)[id], row.nets[id], true) {
      var n :| n in nets && n.id == id == row.nets[id].id && n.firstSeen <= row.nets[id].firstSeen
               && row.nets[id].lastSeen <= n.lastSeen;
      var i :| 0 <= i < |nets| && nets[i] == n;
      ByIdHas(nets, i);
    }
  }

  /** Whatever a save brings, a row's first sighting only moves back and its last only forward,
      in the link's row and in those of its networks; rows of other networks stay. The rest of
      the link's row is the record's. */
  lemma SavedSightings(rows: Rows, k: LinkKey, rec: Rec)
    requires DistinctIds(rec.networks)
    ensures var was, now := if k in rows then rows[k] else Row(rec, map[]), Upsert(rows, k, rec);
            && now.link.(networks := rec.networks, dirty := rec.dirty, firstSeen := rec.firstSeen,
                         lastSeen := rec.lastSeen) == rec
            && now.link.firstSeen <= was.link.firstSeen && now.link.firstSeen <= rec.firstSeen
            && now.link.firstSeen in {was.link.firstSeen, rec.firstSeen}
            && now.link.lastSeen >= was.link.lastSeen && now.link.lastSeen >= rec.lastSeen
            && now.link.lastSeen in {was.link.lastSeen, rec.lastSeen}
    ensures var was, now := if k in rows then rows[k].nets else map[], Upsert(rows, k, rec).nets;
            && (forall id :: id in was && (forall n :: n in rec.networks ==> n.id != id) ==>
                  id in now && now[id] == was[id])
            && (forall n :: n in rec.networks ==>
                  && n.id in now && now[n.id].(firstSeen := n.firstSeen, lastSeen := n.lastSeen) == n
                  && now[n.id].firstSeen == (if n.id in was && was[n.id].firstSeen < n.firstSeen
                                             then was[n.id].firstSeen else n.firstSeen)
                  && now[n.id].lastSeen == if n.id in was && was[n.id].lastSeen > n.lastSeen
                                           then was[n.id].lastSeen else n.lastSeen)
  {
    hide ById, DistinctIds, UpsertNets;
    var was, nets := if k in rows then rows[k].nets else map[], rec.networks;
    UpsertEach(was, nets);
    forall id | id in ById(nets) ensures exists n :: n in nets && n.id == id {
      var i := ByIdFrom(nets, id);
      assert nets[i] in nets;
    }
    forall n | n in nets ensures n.id in ById(nets) && ById(nets)[n.id] == n {
      var i :| 0 <= i < |nets| && nets[i] == n;
      ByIdHas(nets, i);
    }
  }

  // ---------------------------------------------------------------- loading

  /** `rec` is row `row` of link `k` as it is read back, its networks in any order. */
  ghost predicate LoadOf(k: LinkKey, row: Row, rec: Rec) {
    && KeyFromPair(rec.nodeA, rec.nodeB) == Some(k)
    && Strip(Canonical(rec, k)) == row.link
    && ById(rec.networks) == row.nets && DistinctIds(rec.networks)
  }

  /** A link record as the program can have written it, on a clock that reads `clock`. */
  ghost predicate RecOk(k: LinkKey, rec: Rec, clock: int) {
    && rec.key == k && IsCanonical(k) && rec.nodeA == HexOf(k.a) && rec.nodeB == HexOf(k.b)
    && 0 < rec.firstSeen && rec.lastSeen <= clock
    && NetsOk(ById(rec.networks), clock) && DistinctIds(rec.networks)
  }

  ghost predicate NetsOk(nets: map<string, Net>, clock: int) {
    forall id {:trigger nets[id]} :: id in nets ==>
      nets[id].id == id && 0 < nets[id].firstSeen && nets[id].lastSeen <= clock
  }

  ghost predicate RowOk(k: LinkKey, row: Row, clock: int) {
    RecOk(k, row.link, clock) && row.link == Strip(row.link) && NetsOk(row.nets, clock)
  }

  /** Tables as the program leaves them behind. */
  ghost predicate RowsOk(rows: Rows, clock: int) {
    forall k {:trigger rows[k]} :: k in rows ==> RowOk(k, rows[k], clock)
  }

  /** Saving keeps rows well-formed. */
  lemma SavedRowOk(rows: Rows, k: LinkKey, rec: Rec, clock: int)
    requires RecOk(k, rec, clock) && (k in rows ==> RowOk(k, rows[k], clock))
    ensures RowOk(k, Upsert(rows, k, rec), clock)
  {
    hide HexOf, IsCanonical, UpsertNets, ById, UpsertLink, Strip;
    SavedNetsOk(if k in rows then rows[k].nets else map[], rec.networks, clock);
    SavedLinkOk(rows, k, rec, clock);
  }

  lemma SavedLinkOk(rows: Rows, k: LinkKey, rec: Rec, clock: int)
    requires RecOk(k, rec, clock) && (k in rows ==> RowOk(k, rows[k], clock))
    ensures var link := Upsert(rows, k, rec).link; RecOk(k, link, clock) && link == Strip(link)
  {
    hide HexOf, IsCanonical, UpsertNets;
  }

  lemma SavedNetsOk(was: map<string, Net>, nets: seq<Net>, clock: int)
    requires NetsOk(was, clock) && NetsOk(ById(nets), clock) && DistinctIds(nets)
    ensures NetsOk(UpsertNets(was, nets), clock)
  {
    UpsertEach(was, nets);
    hide ById, DistinctIds, UpsertNets;
    var saved := UpsertNets(was, nets);
    forall id | id in saved ensures saved[id].id == id && 0 < saved[id].firstSeen && saved[id].lastSeen <= clock {
      if id in ById(nets) { assert ById(nets)[id].id == id; }
    }
  }

  /** A loaded record, put under its key, shows exactly its row. */
  lemma LoadedIsRow(k: LinkKey, row: Row, rec: Rec, clock: int)
    requires LoadOf(k, row, rec) && RowOk(k, row, clock)
    ensures RowOf(Canonical(rec, k)) == row && RecOk(k, Canonical(rec, k), clock)
  {
  }
}
