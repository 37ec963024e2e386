/** What an observation and a merge do to the row a record would be saved as. */
module LinkHistories {
  import opened Keys
  import opened LinkModel
  import opened LinkStores

  lemma DistinctTail(nets: seq<Net>)
    requires DistinctIds(nets) && nets != []
    ensures DistinctIds(nets[1..]) && nets[0].id !in ById(nets[1..])
  {
    forall id | id in ById(nets[1..]) ensures id != nets[0].id {
      var j := ByIdFrom(nets[1..], id);
      assert nets[j + 1].id == id;
    }
  }

  lemma DistinctCons(n: Net, nets: seq<Net>)
    requires DistinctIds(nets) && n.id !in ById(nets)
    ensures DistinctIds([n] + nets) && ById([n] + nets) == ById(nets)[n.id := n]
  {
    assert ([n] + nets)[1..] == nets;
    forall j | 0 <= j < |nets| ensures nets[j].id != n.id {
      ByIdHas(nets, j);
    }
  }

  lemma {:induction false} AddedNets(nets: seq<Net>, id: string, now: int)
    requires DistinctIds(nets)
    ensures var m, r := ById(nets), AddNetwork(nets, id, now);
            && DistinctIds(r)
            && ById(r) == m[id := if id in m then m[id].(lastSeen := now) else Net(id, now, now, 0, 0, 0, "", "", 0)]
  {
    if nets == [] {
      DistinctCons(Net(id, now, now, 0, 0, 0, "", "", 0), []);
    } else {
      var h, t := nets[0], nets[1..];
      DistinctTail(nets);
      if h.id == id {
        DistinctCons(h.(lastSeen := now), t);
      } else {
        AddedNets(t, id, now);
        DistinctCons(h, AddNetwork(t, id, now));
      }
    }
  }

  lemma {:induction false} CountedNets(nets: seq<Net>, o: Obs)
    requires DistinctIds(nets)
    ensures var m, r, id := ById(nets), CountNetwork(nets, o), o.networkId;
            DistinctIds(r) && ById(r) == if id in m then m[id := CountNet(m[id], o)] else m
  {
    if nets != [] {
      var h, t := nets[0], nets[1..];
      DistinctTail(nets);
      if h.id == o.networkId {
        DistinctCons(CountNet(h, o), t);
      } else {
        CountedNets(t, o);
        DistinctCons(h, CountNetwork(t, o));
      }
    }
  }

  lemma {:induction false} MergedNet(nets: seq<Net>, n: Net)
    requires DistinctIds(nets)
    ensures var m, r := ById(nets), MergeNetwork(nets, n);
            DistinctIds(r) && ById(r) == m[n.id := if n.id in m then MergeNet(m[n.id], n) else n]
  {
    if nets == [] {
      DistinctCons(n, []);
    } else {
      var h, t := nets[0], nets[1..];
      DistinctTail(nets);
      if h.id == n.id {
        DistinctCons(MergeNet(h, n), t);
      } else {
        MergedNet(t, n);
        DistinctCons(h, MergeNetwork(t, n));
      }
    }
  }

  /** Merged networks span the sightings of the networks merged in. */
  lemma {:induction false} MergedNets(nets: seq<Net>, add: seq<Net>, clock: int)
    requires DistinctIds(nets) && NetsOk(ById(nets), clock)
    requires forall i :: 0 <= i < |add| ==> 0 < add[i].firstSeen && add[i].lastSeen <= clock
    ensures var r := MergeNetworks(nets, add);
            && DistinctIds(r) && NetsOk(ById(r), clock)
            && forall i :: 0 <= i < |add| ==> add[i].id in ById(r) && NetExtends(ById(r)[add[i].id], add[i], true)
  {
    if add != [] {
      var init, n := add[..|add| - 1], add[|add| - 1];
      MergedNets(nets, init, clock);
      var m := MergeNetworks(nets, init);
      MergedNet(m, n);
      var r := ById(MergeNetwork(m, n));
      forall i | 0 <= i < |add| ensures add[i].id in r && NetExtends(r[add[i].id], add[i], true) {
        if i < |init| {
          assert init[i] == add[i];
          assert NetExtends(ById(m)[add[i].id], add[i], true);
        }
      }
    }
  }

  lemma NewRecOk(o: Obs, clock: int)
    requires 0 < o.now && 0 < clock && IsCanonical(o.key)
    ensures RecOk(o.key, NewRec(o), clock)
  {
  }

  /** A network's entry after an observation through it. */
  function TouchedNet(m: map<string, Net>, o: Obs, isNew: bool): Net {
    var id := o.networkId;
    var n := if id in m then m[id].(lastSeen := o.now) else Net(id, o.now, o.now, 0, 0, 0, "", "", 0);
    if isNew then CountNet(n, o) else n
  }

  lemma TouchedNets(nets: seq<Net>, o: Obs, isNew: bool)
    requires DistinctIds(nets)
    ensures var added := AddNetwork(nets, o.networkId, o.now);
            var r := if isNew then CountNetwork(added, o) else added;
            DistinctIds(r) && ById(r) == ById(nets)[o.networkId := TouchedNet(ById(nets), o, isNew)]
  {
    AddedNets(nets, o.networkId, o.now);
    CountedNets(AddNetwork(nets, o.networkId, o.now), o);
  }

  lemma TouchedNetExtends(m: map<string, Net>, o: Obs, isNew: bool, clock: int)
    requires NetsOk(m, clock) && 0 < o.now
    ensures var r := m[o.networkId := TouchedNet(m, o, isNew)];
            NetsOk(r, Later(clock, o.now)) && NetsExtend(r, m, clock <= o.now)
  {
  }

  lemma TouchedOk(k: LinkKey, rec: Rec, o: Obs, isNew: bool, clock: int)
    requires RecOk(k, rec, clock) && 0 < o.now
    ensures var r := TouchNetwork(rec, o, isNew);
            && RecOk(k, r, Later(clock, o.now)) && Extends(RowOf(r), RowOf(rec), clock <= o.now)
            && r == rec.(networks := r.networks, dirty := r.dirty)
            && (r == rec || r.dirty) && (rec.dirty ==> r.dirty)
  {
    TouchedNets(rec.networks, o, isNew);
    TouchedNetExtends(ById(rec.networks), o, isNew, clock);
    hide IsCanonical, DistinctIds, ById, TouchedNet, NetExtends, AddNetwork, CountNetwork;
  }

  /** A counted event keeps the networks and the first sighting, and moves the last one. */
  lemma CountedOk(k: LinkKey, rec: Rec, o: Obs, cfg: Config, clock: int)
    requires RecOk(k, rec, clock) && o.now <= clock
    ensures var r := CountEvent(rec, o, cfg);
            && RecOk(k, r, clock) && r.dirty && r.packetCount == rec.packetCount + 1
            && Extends(RowOf(r), RowOf(rec), rec.lastSeen <= o.now)
  {
    hide CountEvent, IsCanonical, HexOf, ById, DistinctIds;
    CountedFields(rec, o, cfg);
  }

  /** An observation keeps a record well-formed, extends the row it would be saved as, and
      marks it dirty if it changes it. */
  lemma ObservedOk(k: LinkKey, rec: Rec, o: Obs, countsNet: bool, counts: bool, cfg: Config, clock: int)
    requires RecOk(k, rec, clock) && 0 < o.now
    ensures var r := ObservedRec(rec, o, countsNet, counts, cfg);
            && RecOk(k, r, Later(clock, o.now)) && Extends(RowOf(r), RowOf(rec), clock <= o.now)
            && r.packetCount == rec.packetCount + (if counts then 1 else 0)
            && (r == rec || r.dirty) && (counts ==> r.dirty) && (rec.dirty ==> r.dirty)
  {
    hide CountEvent, TouchNetwork, Extends, RowOf;
    var t := TouchNetwork(rec, o, countsNet);
    TouchedOk(k, rec, o, countsNet, clock);
    if counts {
      CountedOk(k, t, o, cfg, Later(clock, o.now));
      assert clock <= o.now ==> rec.lastSeen <= o.now;
      hide RecOk;
      var r := CountEvent(t, o, cfg);
      ExtendsWeaker(RowOf(r), RowOf(t), t.lastSeen <= o.now, clock <= o.now);
      ExtendsTransitive(RowOf(r), RowOf(t), RowOf(rec), clock <= o.now);
    }
  }

  lemma MergedParts(e: Rec, r: Rec, cfg: Config)
    ensures var m := MergeRestored(e, r, cfg);
            && m.key == e.key && m.nodeA == e.nodeA && m.nodeB == e.nodeB && m.dirty == e.dirty
            && m.firstSeen == MergeFirst(e.firstSeen, r.firstSeen) && m.lastSeen == Later(e.lastSeen, r.lastSeen)
            && m.networks == MergeNetworks(e.networks, r.networks) && m.packetCount == e.packetCount + r.packetCount
  {
  }

  /** A merge extends the restored row, adds the counts up, and leaves the flag alone. */
  lemma MergedOk(k: LinkKey, e: Rec, r: Rec, cfg: Config, clock: int)
    requires RecOk(k, e, clock) && RecOk(k, r, clock)
    ensures var m := MergeRestored(e, r, cfg);
            && RecOk(k, m, clock) && Extends(RowOf(m), RowOf(r), true)
            && m.packetCount == e.packetCount + r.packetCount && m.dirty == e.dirty
  {
    MergedParts(e, r, cfg);
    hide MergeRestored, IsCanonical;
    forall i | 0 <= i < |r.networks| ensures 0 < r.networks[i].firstSeen && r.networks[i].lastSeen <= clock {
      ByIdHas(r.networks, i);
      assert ById(r.networks)[r.networks[i].id] == r.networks[i];
    }
    MergedNets(e.networks, r.networks, clock);
    var m := ById(MergeNetworks(e.networks, r.networks));
    forall id | id in ById(r.networks) ensures id in m && NetExtends(m[id], ById(r.networks)[id], true) {
      var i := ByIdFrom(r.networks, id);
    }
  }
}
