/** SaveLinks and LoadLinks of db.go, on the two tables they use. */
module LinkTables {
  import opened Keys
  import opened Collections
  import opened LinkModel
  import opened LinkStores
  import opened LinkHistories
  import LinkRegistries

  /** The primary key of a network row. */
  datatype NetKey = NetKey(link: LinkKey, id: string)

  /** The network rows of one link. */
  function NetsAt(nets: map<NetKey, Net>, k: LinkKey): map<string, Net> {
    map n | n in nets && n.link == k :: n.id := nets[n]
  }

  function RowsOf(links: map<LinkKey, Rec>, nets: map<NetKey, Net>): Rows {
    map k | k in links :: Row(links[k], NetsAt(nets, k))
  }

  ghost predicate DistinctKeys(records: seq<Rec>) {
    forall i, j :: 0 <= i < j < |records| ==> records[i].key != records[j].key
  }

  function ByKey(records: seq<Rec>): map<LinkKey, Rec> {
    if records == [] then map[]
    else ByKey(records[..|records| - 1])[records[|records| - 1].key := records[|records| - 1]]
  }

  lemma {:induction false} ByKeyHas(records: seq<Rec>, k: LinkKey)
    requires DistinctKeys(records)
    ensures k in ByKey(records) <==> exists i :: 0 <= i < |records| && records[i].key == k
    ensures forall i :: 0 <= i < |records| && records[i].key == k ==>
              k in ByKey(records) && ByKey(records)[k] == records[i]
  {
    if records != [] {
      ByKeyHas(records[..|records| - 1], k);
    }
  }

  /** Every network row is stored under its id. */
  ghost predicate WellIdentified(nets: map<NetKey, Net>) {
    forall n {:trigger nets[n]} :: n in nets ==> nets[n].id == n.id
  }

  /** Only network rows of link `k` have changed. */
  ghost predicate OthersKept(nets': map<NetKey, Net>, nets: map<NetKey, Net>, k: LinkKey) {
    && (forall j {:trigger NetsAt(nets', j)} :: j != k ==> NetsAt(nets', j) == NetsAt(nets, j))
    && (forall n {:trigger n in nets'} :: n in nets' ==> n in nets || n.link == k)
    && (WellIdentified(nets) ==> WellIdentified(nets'))
  }

  lemma NetRowStored(before: map<NetKey, Net>, nets: map<NetKey, Net>, k: LinkKey, n: Net)
    requires OthersKept(nets, before, k)
    ensures NetsAt(nets[NetKey(k, n.id) := n], k) == NetsAt(nets, k)[n.id := n]
    ensures OthersKept(nets[NetKey(k, n.id) := n], before, k)
    ensures n.id in NetsAt(nets, k) <==> NetKey(k, n.id) in nets
    ensures NetKey(k, n.id) in nets ==> NetsAt(nets, k)[n.id] == nets[NetKey(k, n.id)]
  {
    var nets' := nets[NetKey(k, n.id) := n];
    forall j ensures NetsAt(nets', j) == if j == k then NetsAt(nets, k)[n.id := n] else NetsAt(nets, j) {
      NetRowAt(nets, k, n, j);
    }
    NetRowAt(nets, k, n, k);
    hide NetsAt;
    forall j | j != k ensures NetsAt(nets', j) == NetsAt(before, j) {
      assert NetsAt(nets', j) == NetsAt(nets, j);
    }
  }

  lemma NetRowAt(nets: map<NetKey, Net>, k: LinkKey, n: Net, j: LinkKey)
    ensures NetsAt(nets[NetKey(k, n.id) := n], j) == if j == k then NetsAt(nets, k)[n.id := n] else NetsAt(nets, j)
    ensures n.id in NetsAt(nets, k) <==> NetKey(k, n.id) in nets
    ensures NetKey(k, n.id) in nets ==> NetsAt(nets, k)[n.id] == nets[NetKey(k, n.id)]
  {
  }

  /** The link rows once the rows in `links` and `nets` replace those of link `k`. */
  lemma RowReplaced(links: map<LinkKey, Rec>, nets: map<NetKey, Net>, k: LinkKey, link: Rec, nets': map<NetKey, Net>)
    requires OthersKept(nets', nets, k)
    ensures RowsOf(links[k := link], nets') == RowsOf(links, nets)[k := Row(link, NetsAt(nets', k))]
  {
    hide NetsAt;
    var rows, rows' := RowsOf(links, nets)[k := Row(link, NetsAt(nets', k))], RowsOf(links[k := link], nets');
    forall j | j in rows' ensures rows'[j] == rows[j] {
      if j != k { assert rows'[j] == Row(links[j], NetsAt(nets', j)); }
    }
  }

  lemma SavedMore(rows: Rows, done: map<LinkKey, Rec>, k: LinkKey, rec: Rec)
    ensures Saved(rows, done[k := rec]) == Saved(rows, done)[k := Upsert(rows, k, rec)]
  {
    hide Upsert;
  }

  /** The tables after saving the records one after the other. */
  function SavedInTurn(rows: Rows, records: seq<Rec>): Rows {
    if records == [] then rows
    else
      var before, rec := SavedInTurn(rows, records[..|records| - 1]), records[|records| - 1];
      before[rec.key := Upsert(before, rec.key, rec)]
  }

  /** One link's row and its network rows saved: exactly that link's row changes. */
  lemma RecordSaved(k: LinkKey, rec: Rec, links: map<LinkKey, Rec>, nets: map<NetKey, Net>, nets': map<NetKey, Net>)
    requires k !in links ==> NetsAt(nets, k) == map[]
    requires NetsAt(nets', k) == UpsertNets(NetsAt(nets, k), rec.networks) && OthersKept(nets', nets, k)
    ensures RowsOf(links[k := if k in links then UpsertLink(links[k], rec) else Strip(rec)], nets')
            == RowsOf(links, nets)[k := Upsert(RowsOf(links, nets), k, rec)]
  {
    hide NetsAt, UpsertNets, UpsertLink, Strip, OthersKept;
    assert k in links ==> RowsOf(links, nets)[k] == Row(links[k], NetsAt(nets, k));
    RowReplaced(links, nets, k, if k in links then UpsertLink(links[k], rec) else Strip(rec), nets');
  }

  lemma ByKeyNext(records: seq<Rec>, i: nat)
    requires DistinctKeys(records) && i < |records|
    ensures records[i].key !in ByKey(records[..i])
    ensures ByKey(records[..i + 1]) == ByKey(records[..i])[records[i].key := records[i]]
  {
    assert records[..i + 1][..i] == records[..i];
    ByKeyHas(records[..i], records[i].key);
  }

  /** What TakeDirty hands out can be saved, and is saved under its links. */
  lemma TakenBatch(batch: seq<Rec>, links: map<LinkKey, Rec>, keys: set<LinkKey>)
    requires LinkRegistries.IsBatchOf(batch, links, keys)
    ensures DistinctKeys(batch) && ByKey(batch) == map k | k in keys :: links[k]
  {
    forall i | 0 <= i < |batch| ensures batch[i].key in keys {
      assert batch[i] in batch;
      assert batch[i].key in LinkRegistries.KeysOf(batch);
    }
    forall k ensures k in ByKey(batch) <==> k in keys
      ensures k in keys ==> ByKey(batch)[k] == links[k]
    {
      ByKeyHas(batch, k);
      if k in keys {
        assert k in LinkRegistries.KeysOf(batch);
        var r :| r in batch && r.key == k;
        var i :| 0 <= i < |batch| && batch[i] == r;
      }
    }
  }

  /** Records of different links can be saved in any order, and as one batch. */
  lemma {:induction false} SavedTogether(rows: Rows, records: seq<Rec>)
    requires DistinctKeys(records)
    ensures SavedInTurn(rows, records) == Saved(rows, ByKey(records))
  {
    if records != [] {
      var n := |records| - 1;
      var init, rec := records[..n], records[n];
      SavedTogether(rows, init);
      ByKeyNext(records, n);
      assert records[..n + 1] == records;
      SavedMore(rows, ByKey(init), rec.key, rec);
      hide Upsert, ByKey;
      UpsertUnsaved(rows, ByKey(init), rec.key, rec);
    } else {
      assert Saved(rows, map[]) == rows;
    }
  }

  lemma UpsertUnsaved(rows: Rows, done: map<LinkKey, Rec>, k: LinkKey, rec: Rec)
    requires k !in done
    ensures Upsert(Saved(rows, done), k, rec) == Upsert(rows, k, rec)
  {
  }

  lemma KeptAtFirst(nets: map<NetKey, Net>, k: LinkKey)
    ensures OthersKept(nets, nets, k)
  {
  }

  lemma NoNets(nets: map<NetKey, Net>, links: map<LinkKey, Rec>, k: LinkKey)
    requires Owned(nets, links) && k !in links
    ensures NetsAt(nets, k) == map[]
  {
  }

  /** Every network row belongs to a link row. */
  ghost predicate Owned(nets: map<NetKey, Net>, links: map<LinkKey, Rec>) {
    (forall n {:trigger n in nets} :: n in nets ==> n.link in links) && WellIdentified(nets)
  }

  class LinkDb {
    var links: map<LinkKey, Rec>
    var nets: map<NetKey, Net>

    ghost function Rows(): Rows
      reads this
    {
      RowsOf(links, nets)
    }

    ghost predicate Valid()
      reads this
    {
      Owned(nets, links)
    }

    /** Saves the networks of one record. */
    method SaveNets(nets: map<NetKey, Net>, rec: Rec) returns (nets': map<NetKey, Net>)
      ensures NetsAt(nets', rec.key) == UpsertNets(NetsAt(nets, rec.key), rec.networks)
      ensures OthersKept(nets', nets, rec.key)
    {
      hide NetsAt, OthersKept;
      nets' := nets;
      KeptAtFirst(nets, rec.key);
      for i := 0 to |rec.networks|
        invariant UpsertNets(NetsAt(nets', rec.key), rec.networks[i..])
                == UpsertNets(NetsAt(nets, rec.key), rec.networks)
        invariant OthersKept(nets', nets, rec.key)
      {
        var n := rec.networks[i];
        var k := NetKey(rec.key, n.id);
        var stored := if k in nets' then UpsertNet(nets'[k], n) else n;
        NetRowStored(nets, nets', rec.key, stored);
        assert rec.networks[i..][1..] == rec.networks[i + 1..];
        nets' := nets'[k := stored];
      }
    }

    /** SaveLinks: saves all records in one transaction, which commits or changes nothing.
        `commits` stands for the database's answer. */
    method SaveLinks(records: seq<Rec>, commits: bool) returns (ok: bool)
      requires Valid()
      modifies this
      ensures Valid() && ok == (commits || records == [])
      ensures Rows() == if ok then SavedInTurn(old(Rows()), records) else old(Rows())
    {
      if |records| == 0 {
        return true;
      }
      var links', nets' := links, nets;
      ghost var rows := Rows();
      hide RowsOf, Upsert, UpsertLink, Strip, NetsAt, UpsertNets;
      for i := 0 to |records|
        invariant Owned(nets', links')
        invariant RowsOf(links', nets') == SavedInTurn(rows, records[..i])
        modifies {}
      {
        assert records[..i + 1][..i] == records[..i];
        links', nets' := SaveRecord(links', nets', records[i]);
      }
      assert records[..|records|] == records;
      if !commits {
        return false;
      }
      links, nets := links', nets';
      return true;
    }

    /** Saves one record and its networks. */
    method SaveRecord(links: map<LinkKey, Rec>, nets: map<NetKey, Net>, rec: Rec)
      returns (links': map<LinkKey, Rec>, nets': map<NetKey, Net>)
      requires Owned(nets, links)
      ensures Owned(nets', links')
      ensures RowsOf(links', nets') == RowsOf(links, nets)[rec.key := Upsert(RowsOf(links, nets), rec.key, rec)]
    {
      hide RowsOf, Upsert, UpsertLink, Strip, NetsAt, UpsertNets;
      if rec.key !in links { NoNets(nets, links, rec.key); }
      nets' := SaveNets(nets, rec);
      RecordSaved(rec.key, rec, links, nets, nets');
      links' := links[rec.key := if rec.key in links then UpsertLink(links[rec.key], rec) else Strip(rec)];
    }

    /** LoadLinks: every link row, once, with its networks. */
    method LoadLinks() returns (out: seq<Rec>)
      requires Valid()
      ensures exists keys :: ReadsAll(Rows(), keys, out)
    {
      hide ReadsAll, Valid;
      ghost var keys: seq<LinkKey>;
      out, keys := LoadRows();
    }

    /** LoadLinks, with the links of the records in their order. */
    method LoadRows() returns (out: seq<Rec>, ghost keys: seq<LinkKey>)
      requires Valid()
      ensures ReadsAll(Rows(), keys, out)
    {
      var byPair: map<LinkKey, nat>;
      out, keys, byPair := ReadLinks();
      hide Lists, NetsRead, Loading, ReadsAll, RowsOf, Attach, Owned, Firsts, Enumerates;
      var order := Enumerate(nets);
      FirstsEnds(order, nets.Keys);
      for i := 0 to |order|
        invariant Loading(out, keys, links, nets, Firsts(order, i))
      {
        var n := order[i];
        FirstsNext(order, nets.Keys, i);
        AddNext(out, keys, byPair, links, nets, Firsts(order, i), n);
        out := Attach(out, byPair[n.link], nets[n]);
      }
      AllRead(out, keys, byPair, links, nets);
    }

    /** The link rows, and where each is in the result. */
    method ReadLinks() returns (out: seq<Rec>, ghost keys: seq<LinkKey>, byPair: map<LinkKey, nat>)
      ensures Lists(keys, byPair, links.Keys)
      ensures Loading(out, keys, links, nets, {})
    {
      out, keys, byPair := [], [], map[];
      NothingListed(links, nets);
      hide Lists, Loading, Firsts, Enumerates;
      var order := Enumerate(links);
      FirstsEnds(order, links.Keys);
      for i := 0 to |order|
        invariant |keys| == |out| && Lists(keys, byPair, Firsts(order, i)) && Loading(out, keys, links, nets, {})
      {
        var k := order[i];
        FirstsNext(order, links.Keys, i);
        ListNext(keys, byPair, Firsts(order, i), k);
        LoadNext(out, keys, links, nets, k);
        byPair := byPair[k := |out|];
        out, keys := out + [links[k].(networks := [])], keys + [k];
      }
    }
  }

  /** `rec` is read back from `row`. */
  ghost predicate Reads(row: Row, rec: Rec) {
    rec.(networks := []) == row.link.(networks := []) && ById(rec.networks) == row.nets && DistinctIds(rec.networks)
  }

  lemma KeyOfEnds(k: LinkKey)
    requires IsCanonical(k)
    ensures CanonicalKey(k.a, k.b) == Some(k)
  {
    CanonicalKeyCorrect(k.a, k.b);
    assert {k.a, k.b} == {k.a, k.b};
  }

  /** The records read are the rows, one record each; `keys` are their links. */
  ghost predicate ReadsAll(rows: Rows, keys: seq<LinkKey>, out: seq<Rec>) {
    && |keys| == |out| && (forall k :: k in keys <==> k in rows)
    && (forall i, j :: 0 <= i < j < |keys| ==> keys[i] != keys[j])
    && (forall i :: 0 <= i < |out| ==> keys[i] in rows && Reads(rows[keys[i]], out[i]))
  }

  /** What is read from a row the program wrote restores that row's link. */
  lemma ReadsIsLoad(k: LinkKey, row: Row, rec: Rec, clock: int)
    requires RowOk(k, row, clock) && Reads(row, rec)
    ensures LoadOf(k, row, rec)
  {
    NormalizePubRoundTrip(k.a, rec.nodeA);
    NormalizePubRoundTrip(k.b, rec.nodeB);
    CanonicalKeyCorrect(k.a, k.b);
    KeyOfEnds(k);
    hide NormalizePub, CanonicalKey, IsCanonical, HexOf, ById, DistinctIds;
  }

  /** One saved record that follows its row, in the tables after the save and as read back. */
  lemma SavedIsRead(rows: Rows, records: seq<Rec>, rec: Rec, x: Rec)
    requires DistinctKeys(records) && rec in records && DistinctIds(rec.networks)
    requires rec.key in rows ==> Follows(rec, rows[rec.key])
    requires rec.key in SavedInTurn(rows, records) ==> Reads(SavedInTurn(rows, records)[rec.key], x)
    ensures rec.key in SavedInTurn(rows, records)
    ensures x.(networks := rec.networks, dirty := rec.dirty) == rec
    ensures forall n :: n in x.networks <==> n in rec.networks
  {
    hide Upsert, ById, DistinctIds, Follows, Shows, NetsHeld, Extends, RowOf, Reads;
    var k, i :| 0 <= i < |records| && records[i] == rec && k == rec.key;
    SavedTogether(rows, records);
    ByKeyHas(records, k);
    hide SavedInTurn, ByKey;
    if k in rows { FollowsExtends(rec, rows[k]); }
    SavedIsRecord(rows, k, rec, true);
    ShownIsHeld(Upsert(rows, k, rec), rec, true);
    HeldIsRead(Upsert(rows, k, rec), rec, x);
  }

  /** What is read from a row that holds a record. */
  lemma HeldIsRead(row: Row, rec: Rec, x: Rec)
    requires row.link.(networks := rec.networks, dirty := rec.dirty, lastSeen := rec.lastSeen) == rec
    requires row.link.lastSeen == rec.lastSeen && NetsHeld(row.nets, rec.networks, true) && Reads(row, x)
    ensures x.(networks := rec.networks, dirty := rec.dirty) == rec
    ensures forall n :: n in x.networks <==> n in rec.networks
  {
    hide ById, DistinctIds;
    forall n ensures n in x.networks <==> n in rec.networks {
      if n in x.networks {
        var i :| 0 <= i < |x.networks| && x.networks[i] == n;
        assert DistinctIds(x.networks);
        ByIdHas(x.networks, i);
        assert n.id in row.nets && row.nets[n.id] == n;
      }
      if n in rec.networks {
        var i := ByIdFrom(x.networks, n.id);
        assert x.networks[i] in x.networks;
      }
    }
  }

  /** The round trip: once records of different links, each no older than its row, have been
      saved, loading gives one record per link of the tables. For a link that was saved it is
      the saved record, with the same networks; for any other it is what its row read as
      before. */
  lemma SavedThenLoaded(rows: Rows, records: seq<Rec>, keys: seq<LinkKey>, out: seq<Rec>)
    requires DistinctKeys(records)
    requires forall rec :: rec in records ==>
               DistinctIds(rec.networks) && (rec.key in rows ==> Follows(rec, rows[rec.key]))
    requires ReadsAll(SavedInTurn(rows, records), keys, out)
    ensures |keys| == |out| && forall i, j :: 0 <= i < j < |keys| ==> keys[i] != keys[j]
    ensures forall k :: k in keys <==> k in rows || exists rec :: rec in records && rec.key == k
    ensures forall i, rec :: 0 <= i < |keys| && rec in records && rec.key == keys[i] ==>
              && out[i].(networks := rec.networks, dirty := rec.dirty) == rec
              && forall n :: n in out[i].networks <==> n in rec.networks
    ensures forall i :: 0 <= i < |keys| && (forall rec :: rec in records ==> rec.key != keys[i]) ==>
              keys[i] in rows && Reads(rows[keys[i]], out[i])
  {
    hide Reads, Upsert, DistinctIds, Follows;
    SavedTogether(rows, records);
    SavedLinks(rows, records);
    hide SavedInTurn, ByKey, DistinctKeys;
    forall i, rec | 0 <= i < |keys| && rec in records && rec.key == keys[i]
      ensures out[i].(networks := rec.networks, dirty := rec.dirty) == rec
      ensures forall n :: n in out[i].networks <==> n in rec.networks
    {
      SavedIsRead(rows, records, rec, out[i]);
    }
  }

  lemma SavedLinks(rows: Rows, records: seq<Rec>)
    requires DistinctKeys(records)
    ensures forall k :: k in ByKey(records) <==> exists rec :: rec in records && rec.key == k
  {
    forall k ensures k in ByKey(records) <==> exists rec :: rec in records && rec.key == k {
      ByKeyHas(records, k);
      if i :| 0 <= i < |records| && records[i].key == k { assert records[i] in records; }
      if rec :| rec in records && rec.key == k {
        var i :| 0 <= i < |records| && records[i] == rec;
      }
    }
  }

  /** The records read, by link. */
  ghost function ByLink(keys: seq<LinkKey>, out: seq<Rec>): map<LinkKey, Rec>
    requires |keys| == |out|
  {
    map i | 0 <= i < |keys| && (forall j :: 0 <= j < |keys| && keys[j] == keys[i] ==> j == i) :: keys[i] := out[i]
  }

  /** What LoadLinks reads is what the restore of the durability machine may start from. */
  lemma LoadedByLink(rows: Rows, keys: seq<LinkKey>, out: seq<Rec>, clock: int)
    requires RowsOk(rows, clock) && ReadsAll(rows, keys, out)
    ensures var recs := ByLink(keys, out);
            recs.Keys == rows.Keys && forall k :: k in recs ==> LoadOf(k, rows[k], recs[k])
  {
    hide LoadOf, Reads, RowOk, ByLink;
    ByLinkHas(keys, out);
    var recs := ByLink(keys, out);
    forall k | k in rows ensures k in recs && LoadOf(k, rows[k], recs[k]) {
      var i :| 0 <= i < |keys| && keys[i] == k;
      assert Reads(rows[keys[i]], out[i]) && RowOk(k, rows[k], clock);
      ReadsIsLoad(k, rows[k], out[i], clock);
    }
  }

  lemma ByLinkHas(keys: seq<LinkKey>, out: seq<Rec>)
    requires |keys| == |out| && forall i, j :: 0 <= i < j < |keys| ==> keys[i] != keys[j]
    ensures forall i :: 0 <= i < |keys| ==> keys[i] in ByLink(keys, out) && ByLink(keys, out)[keys[i]] == out[i]
    ensures forall k :: k in ByLink(keys, out) ==> k in keys
  {
  }

  /** `keys` lists the links in `which`, each once, and `byPair` tells where. */
  ghost predicate Lists(keys: seq<LinkKey>, byPair: map<LinkKey, nat>, which: set<LinkKey>) {
    && byPair.Keys == which
    && (forall k {:trigger byPair[k]} :: k in byPair ==> byPair[k] < |keys| && keys[byPair[k]] == k)
    && (forall i :: 0 <= i < |keys| ==> keys[i] in byPair && byPair[keys[i]] == i)
  }

  lemma ListsAt(keys: seq<LinkKey>, byPair: map<LinkKey, nat>, which: set<LinkKey>, k: LinkKey)
    requires Lists(keys, byPair, which) && k in which
    ensures k in byPair && byPair[k] < |keys| && keys[byPair[k]] == k
    ensures forall i :: 0 <= i < |keys| && keys[i] == k ==> i == byPair[k]
  {
  }

  /** The network rows of a link that have been read so far. */
  ghost function NetsRead(nets: map<NetKey, Net>, done: set<NetKey>, k: LinkKey): map<string, Net> {
    map n | n in done && n in nets && n.link == k :: n.id := nets[n]
  }

  ghost predicate Loading(out: seq<Rec>, keys: seq<LinkKey>, links: map<LinkKey, Rec>, nets: map<NetKey, Net>,
                          done: set<NetKey>) {
    && |out| == |keys|
    && forall i :: 0 <= i < |out| ==>
         && keys[i] in links && out[i].(networks := []) == links[keys[i]].(networks := [])
         && DistinctIds(out[i].networks) && ById(out[i].networks) == NetsRead(nets, done, keys[i])
  }

  lemma {:induction false} ByIdSnoc(nets: seq<Net>, n: Net)
    requires DistinctIds(nets) && n.id !in ById(nets)
    ensures DistinctIds(nets + [n]) && ById(nets + [n]) == ById(nets)[n.id := n]
  {
    forall i | 0 <= i < |nets| ensures nets[i].id != n.id {
      ByIdHas(nets, i);
    }
    if nets == [] {
      assert nets + [n] == [n] && [n][1..] == [];
    } else {
      DistinctTail(nets);
      assert n.id !in ById(nets[1..]);
      ByIdSnoc(nets[1..], n);
      assert (nets + [n])[1..] == nets[1..] + [n];
    }
  }

  lemma ReadOneMore(nets: map<NetKey, Net>, done: set<NetKey>, n: NetKey, k: LinkKey)
    requires n in nets && n !in done
    ensures NetsRead(nets, done + {n}, k)
            == if n.link == k then NetsRead(nets, done, k)[n.id := nets[n]] else NetsRead(nets, done, k)
    ensures n.link == k ==> n.id !in NetsRead(nets, done, k)
  {
  }

  /** Appends a network to the record at `i`. */
  function Attach(out: seq<Rec>, i: nat, n: Net): (r: seq<Rec>)
    requires i < |out|
    ensures |r| == |out|
  {
    out[i := out[i].(networks := out[i].networks + [n])]
  }

  lemma AddNet(out: seq<Rec>, keys: seq<LinkKey>, links: map<LinkKey, Rec>, nets: map<NetKey, Net>, done: set<NetKey>,
               n: NetKey, i: nat)
    requires Loading(out, keys, links, nets, done)
    requires n in nets && n !in done && nets[n].id == n.id
    requires |out| == |keys| && i < |keys| && keys[i] == n.link
    requires forall j :: 0 <= j < |keys| && keys[j] == n.link ==> j == i
    ensures |out| == |keys| && Loading(Attach(out, i, nets[n]), keys, links, nets, done + {n})
  {
    hide NetsRead, DistinctIds, ById;
    ReadOneMore(nets, done, n, n.link);
    ByIdSnoc(out[i].networks, nets[n]);
    forall j | 0 <= j < |keys| && j != i ensures NetsRead(nets, done + {n}, keys[j]) == NetsRead(nets, done, keys[j]) {
      ReadOneMore(nets, done, n, keys[j]);
    }
  }

  lemma NothingListed(links: map<LinkKey, Rec>, nets: map<NetKey, Net>)
    ensures Lists([], map[], {}) && Loading([], [], links, nets, {})
  {
  }

  lemma ListNext(keys: seq<LinkKey>, byPair: map<LinkKey, nat>, which: set<LinkKey>, k: LinkKey)
    requires Lists(keys, byPair, which) && k !in which
    ensures Lists(keys + [k], byPair[k := |keys|], which + {k})
  {
  }

  lemma LoadNext(out: seq<Rec>, keys: seq<LinkKey>, links: map<LinkKey, Rec>, nets: map<NetKey, Net>, k: LinkKey)
    requires Loading(out, keys, links, nets, {}) && k in links
    ensures Loading(out + [links[k].(networks := [])], keys + [k], links, nets, {})
  {
    assert NetsRead(nets, {}, k) == map[];
    hide NetsRead;
  }

  lemma AddNext(out: seq<Rec>, keys: seq<LinkKey>, byPair: map<LinkKey, nat>, links: map<LinkKey, Rec>,
                nets: map<NetKey, Net>, done: set<NetKey>, n: NetKey)
    requires Lists(keys, byPair, links.Keys) && Loading(out, keys, links, nets, done)
    requires Owned(nets, links) && n in nets && n !in done
    ensures n.link in byPair && byPair[n.link] < |out|
    ensures Loading(Attach(out, byPair[n.link], nets[n]), keys, links, nets, done + {n})
  {
    assert |out| == |keys|;
    hide Lists, Loading, Attach;
    assert n.link in links && nets[n].id == n.id;
    ListsAt(keys, byPair, links.Keys, n.link);
    AddNet(out, keys, links, nets, done, n, byPair[n.link]);
  }

  lemma ListsAll(keys: seq<LinkKey>, byPair: map<LinkKey, nat>, which: set<LinkKey>)
    requires Lists(keys, byPair, which)
    ensures forall k :: k in keys <==> k in which
    ensures forall i, j :: 0 <= i < j < |keys| ==> keys[i] != keys[j]
  {
    forall k | k in which ensures k in keys {
      assert keys[byPair[k]] == k;
    }
  }

  lemma RowsOfKeys(links: map<LinkKey, Rec>, nets: map<NetKey, Net>)
    ensures RowsOf(links, nets).Keys == links.Keys
  {
  }

  lemma ReadOf(rec: Rec, links: map<LinkKey, Rec>, nets: map<NetKey, Net>, k: LinkKey)
    requires k in links && rec.(networks := []) == links[k].(networks := []) && DistinctIds(rec.networks)
    requires ById(rec.networks) == NetsRead(nets, nets.Keys, k)
    ensures Reads(RowsOf(links, nets)[k], rec)
  {
    hide ById, DistinctIds;
    assert NetsRead(nets, nets.Keys, k) == NetsAt(nets, k);
  }

  lemma AllRead(out: seq<Rec>, keys: seq<LinkKey>, byPair: map<LinkKey, nat>, links: map<LinkKey, Rec>,
                nets: map<NetKey, Net>)
    requires Lists(keys, byPair, links.Keys) && Loading(out, keys, links, nets, nets.Keys)
    ensures ReadsAll(RowsOf(links, nets), keys, out)
  {
    hide ById, DistinctIds, NetsRead, NetsAt, Reads, RowsOf;
    ListsAll(keys, byPair, links.Keys);
    RowsOfKeys(links, nets);
    forall i | 0 <= i < |out| ensures keys[i] in links && Reads(RowsOf(links, nets)[keys[i]], out[i]) {
      ReadOf(out[i], links, nets, keys[i]);
    }
  }
}
