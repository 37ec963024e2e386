/** The live link record: the object the registry updates in place. */
module LinkRecords {
  import opened Keys
  import opened LinkModel

  // ---------------------------------------------------------------- searching the networks

  predicate NoneBefore(nets: seq<Net>, i: nat, id: string)
    requires i <= |nets|
  {
    forall j :: 0 <= j < i ==> nets[j].id != id
  }

  lemma TailSlices(nets: seq<Net>, i: nat)
    requires 0 < i <= |nets|
    ensures nets[1..][i - 1..] == nets[i..] && [nets[0]] + nets[1..][..i - 1] == nets[..i]
  {
  }

  lemma Joined(a: seq<Net>, b: seq<Net>, c: seq<Net>)
    ensures a + (b + c) == a + b + c
  {
  }

  /** The first entry of a network is the one that is refreshed, counted or merged; the
      entries before it stay as they are. */
  lemma {:induction false} AddSkipsOthers(nets: seq<Net>, i: nat, id: string, now: int)
    requires i <= |nets| && NoneBefore(nets, i, id)
    ensures AddNetwork(nets, id, now) == nets[..i] + AddNetwork(nets[i..], id, now)
  {
    if i == 0 {
      assert nets[0..] == nets && nets[..0] == [];
    } else {
      AddSkipsOthers(nets[1..], i - 1, id, now);
      TailSlices(nets, i);
      Joined([nets[0]], nets[1..][..i - 1], AddNetwork(nets[i..], id, now));
    }
  }

  lemma {:induction false} CountSkipsOthers(nets: seq<Net>, i: nat, o: Obs)
    requires i <= |nets| && NoneBefore(nets, i, o.networkId)
    ensures CountNetwork(nets, o) == nets[..i] + CountNetwork(nets[i..], o)
  {
    if i == 0 {
      assert nets[0..] == nets && nets[..0] == [];
    } else {
      CountSkipsOthers(nets[1..], i - 1, o);
      TailSlices(nets, i);
      Joined([nets[0]], nets[1..][..i - 1], CountNetwork(nets[i..], o));
    }
  }

  lemma NoneYet(nets: seq<Net>, id: string)
    ensures NoneBefore(nets, 0, id)
  {
  }

  lemma NoneNext(nets: seq<Net>, i: nat, id: string)
    requires i < |nets| && NoneBefore(nets, i, id) && nets[i].id != id
    ensures NoneBefore(nets, i + 1, id)
  {
  }

  lemma CountedAt(nets: seq<Net>, i: nat, o: Obs)
    requires i < |nets| && NoneBefore(nets, i, o.networkId) && nets[i].id == o.networkId
    ensures CountNetwork(nets, o) == nets[i := CountNet(nets[i], o)]
  {
    hide CountNet;
    CountSkipsOthers(nets, i, o);
    UpdateAt(nets, i, CountNet(nets[i], o));
  }

  lemma CountedNowhere(nets: seq<Net>, o: Obs)
    requires NoneBefore(nets, |nets|, o.networkId)
    ensures CountNetwork(nets, o) == nets
  {
    CountSkipsOthers(nets, |nets|, o);
  }

  lemma {:induction false} MergeSkipsOthers(nets: seq<Net>, i: nat, n: Net)
    requires i <= |nets| && NoneBefore(nets, i, n.id)
    ensures MergeNetwork(nets, n) == nets[..i] + MergeNetwork(nets[i..], n)
  {
    if i == 0 {
      assert nets[0..] == nets && nets[..0] == [];
    } else {
      MergeSkipsOthers(nets[1..], i - 1, n);
      TailSlices(nets, i);
      Joined([nets[0]], nets[1..][..i - 1], MergeNetwork(nets[i..], n));
    }
  }

  lemma UpdateAt(nets: seq<Net>, i: nat, x: Net)
    requires i < |nets|
    ensures nets[i := x] == nets[..i] + ([x] + nets[i..][1..])
  {
  }

  /** A live record. Its fields are those of Rec, and every method below updates some of
      them in place. */
  class LinkRecord {
    var data: Rec

    constructor (r: Rec)
      ensures data == r
    {
      data := r;
    }

    /** Folds an observed position into the live segment, or freezes it and opens a new one. */
    method UpdatePosition(ends: Ends, now: int, far: (Pos, Pos) -> bool)
      modifies this
      ensures data == LinkModel.UpdatePosition(old(data), ends, now, far)
    {
      if !data.hasPos {
        data := data.(hasPos := true);
        data := data.(ends := ends);
        data := data.(segFirstSeen := now);
        data := data.(segCount := 1);
        return;
      }
      var moved := far(data.ends.a, ends.a) || far(data.ends.b, ends.b);
      if moved {
        var frozen := Segment(data.ends, data.segFirstSeen, data.lastSeen, data.segCount);
        data := data.(segments := data.segments + [frozen]);
        data := data.(ends := ends);
        data := data.(segFirstSeen := now);
        data := data.(segCount := 1);
        return;
      }
      data := data.(segCount := data.segCount + 1);
    }

    /** Records or refreshes the network association. */
    method AddNetwork(id: string, now: int)
      modifies this
      ensures data == old(data).(networks := LinkModel.AddNetwork(old(data).networks, id, now))
    {
      var nets := data.networks;
      for i := 0 to |nets|
        invariant data == old(data)
        invariant NoneBefore(nets, i, id)
      {
        if nets[i].id == id {
          AddSkipsOthers(nets, i, id, now);
          UpdateAt(nets, i, nets[i].(lastSeen := now));
          data := data.(networks := nets[i := nets[i].(lastSeen := now)]);
          return;
        }
      }
      AddSkipsOthers(nets, |nets|, id, now);
      data := data.(networks := nets + [Net(id, now, now, 0, 0, 0, "", "", 0)]);
    }

    method CountNetwork(o: Obs)
      modifies this
      ensures data == old(data).(networks := LinkModel.CountNetwork(old(data).networks, o))
    {
      var nets := data.networks;
      hide LinkModel.CountNetwork, NoneBefore;
      NoneYet(nets, o.networkId);
      for i := 0 to |nets|
        invariant data == old(data)
        invariant NoneBefore(nets, i, o.networkId)
      {
        if nets[i].id != o.networkId {
          NoneNext(nets, i, o.networkId);
          continue;
        }
        var n := Counted(nets[i], o);
        CountedAt(nets, i, o);
        data := data.(networks := nets[i := n]);
        return;
      }
      CountedNowhere(nets, o);
    }

    /** Counts an event on a network. */
    method Counted(net: Net, o: Obs) returns (n: Net)
      ensures n == CountNet(net, o)
    {
      n := net.(packetCount := net.packetCount + 1);
      if o.fromIsA {
        n := n.(dirAB := n.dirAB + 1, lastHashAB := o.hash);
      } else {
        n := n.(dirBA := n.dirBA + 1, lastHashBA := o.hash);
      }
      if o.lowConf {
        n := n.(lowConf := n.lowConf + 1);
      }
    }

    /** The network part of an observation that names its network. */
    method TouchNetwork(o: Obs, isNew: bool)
      requires o.networkId != ""
      modifies this
      ensures data == LinkModel.TouchNetwork(old(data), o, isNew)
    {
      AddNetwork(o.networkId, o.now);
      data := data.(dirty := true);
      if isNew {
        CountNetwork(o);
        data := data.(dirty := true);
      }
    }

    /** Decays the stored score to `now`. */
    method DecayScore(now: int, retain: real)
      modifies this
      ensures data == DecayTo(old(data), now, retain)
    {
      if data.scoreAt == 0 {
        data := data.(scoreAt := now);
        return;
      }
      var dt := now - data.scoreAt;
      if dt > 0 {
        data := data.(score := data.score * Pow(retain, dt));
      }
      data := data.(scoreAt := now);
    }

    /** The part of observeLink that runs for a globally counted event. */
    method CountEvent(o: Obs, cfg: Config)
      modifies this
      ensures data == LinkModel.CountEvent(old(data), o, cfg)
    {
      if o.ends.Some? {
        UpdatePosition(o.ends.value, o.now, cfg.far);
      }
      ghost var placed := data;
      data := data.(packetCount := data.packetCount + 1);
      data := data.(lastSeen := o.now);
      DecayScore(o.now, cfg.retain);
      data := data.(score := data.score + 1.0);
      if o.lowConf {
        data := data.(lowConf := data.lowConf + 1);
      }
      assert data == ScoreEvent(placed, o, cfg.retain);
      CountDirection(o);
      var rt := o.routeType;
      if rt == "" {
        rt := "unknown";
      }
      data := data.(sources := Bump(data.sources, rt, 1));
      data := data.(dirty := true);
    }

    method CountDirection(o: Obs)
      modifies this
      ensures data == LinkModel.CountDirection(old(data), o)
    {
      if o.fromIsA {
        data := data.(dirAB := data.dirAB + 1);
        data := data.(lastHashAB := o.hash);
        if o.snr.Some? {
          data := data.(snrsAB := AppendCapped(data.snrsAB, o.snr.value));
        }
      } else {
        data := data.(dirBA := data.dirBA + 1);
        data := data.(lastHashBA := o.hash);
        if o.snr.Some? {
          data := data.(snrsBA := AppendCapped(data.snrsBA, o.snr.value));
        }
      }
    }

    method MergeNetwork(n: Net)
      modifies this
      ensures data == old(data).(networks := LinkModel.MergeNetwork(old(data).networks, n))
    {
      var nets := data.networks;
      for i := 0 to |nets|
        invariant data == old(data)
        invariant NoneBefore(nets, i, n.id)
      {
        if nets[i].id == n.id {
          var e := nets[i];
          var existingLast := e.lastSeen;
          if e.firstSeen == 0 || (n.firstSeen > 0 && n.firstSeen < e.firstSeen) {
            e := e.(firstSeen := n.firstSeen);
          }
          if n.lastSeen > e.lastSeen {
            e := e.(lastSeen := n.lastSeen);
          }
          e := e.(packetCount := e.packetCount + n.packetCount);
          e := e.(dirAB := e.dirAB + n.dirAB);
          e := e.(dirBA := e.dirBA + n.dirBA);
          e := e.(lowConf := e.lowConf + n.lowConf);
          if n.lastSeen >= existingLast {
            if n.lastHashAB != "" {
              e := e.(lastHashAB := n.lastHashAB);
            }
            if n.lastHashBA != "" {
              e := e.(lastHashBA := n.lastHashBA);
            }
          }
          assert e == MergeNet(nets[i], n);
          MergeSkipsOthers(nets, i, n);
          UpdateAt(nets, i, e);
          data := data.(networks := nets[i := e]);
          return;
        }
      }
      MergeSkipsOthers(nets, |nets|, n);
      data := data.(networks := nets + [n]);
    }

    method MergeNetworks(add: seq<Net>)
      modifies this
      ensures data == old(data).(networks := LinkModel.MergeNetworks(old(data).networks, add))
    {
      for i := 0 to |add|
        invariant data == old(data).(networks := LinkModel.MergeNetworks(old(data).networks, add[..i]))
      {
        assert add[..i + 1][..i] == add[..i];
        MergeNetwork(add[i]);
      }
      assert add[..|add|] == add;
    }

    /** Folds restored geometry into history; the live segment, if any, stays current. */
    method MergeGeometry(r: Rec)
      modifies this
      ensures data == LinkModel.MergeGeometry(old(data), r)
    {
      ghost var past := data.segments + r.segments;
      data := data.(segments := data.segments + r.segments);
      if r.hasPos {
        data := data.(segments := data.segments + [Segment(r.ends, r.segFirstSeen, r.lastSeen, r.segCount)]);
      }
      if !data.hasPos && r.hasPos {
        data := data.(hasPos := true);
        data := data.(ends := r.ends);
        data := data.(segFirstSeen := r.segFirstSeen, segCount := r.segCount);
        data := data.(segments := data.segments[..|data.segments| - 1]); // the duplicate just appended
        assert data.segments == past;
      }
    }

    /** mergeRestoredLink: adds a restored record to this live one. */
    method MergeRestored(r: Rec, cfg: Config)
      modifies this
      ensures data == LinkModel.MergeRestored(old(data), r, cfg)
    {
      var existingLast := data.lastSeen; // before it advances
      MergeCounters(r, cfg.retain);
      MergeNetworks(r.networks);
      MergeTraces(r, r.lastSeen >= existingLast);
      data := data.(sources := MergeCounts(data.sources, r.sources));
      MergeGeometry(r);
    }

    method MergeCounters(r: Rec, retain: real)
      modifies this
      ensures data == LinkModel.MergeCounters(old(data), r, retain)
    {
      data := data.(packetCount := data.packetCount + r.packetCount);
      data := data.(dirAB := data.dirAB + r.dirAB);
      data := data.(dirBA := data.dirBA + r.dirBA);
      data := data.(lowConf := data.lowConf + r.lowConf);
      if data.firstSeen == 0 || (r.firstSeen > 0 && r.firstSeen < data.firstSeen) {
        data := data.(firstSeen := r.firstSeen);
      }
      if r.lastSeen > data.lastSeen {
        data := data.(lastSeen := r.lastSeen);
      }
      data := data.(score := CombinedScore(data.score, data.scoreAt, r.score, r.scoreAt, retain));
      if r.scoreAt > data.scoreAt {
        data := data.(scoreAt := r.scoreAt);
      }
    }

    method MergeTraces(r: Rec, restoredNewer: bool)
      modifies this
      ensures data == LinkModel.MergeTraces(old(data), r, restoredNewer)
    {
      if restoredNewer {
        if r.lastHashAB != "" {
          data := data.(lastHashAB := r.lastHashAB);
        }
        if r.lastHashBA != "" {
          data := data.(lastHashBA := r.lastHashBA);
        }
      }
      data := data.(snrsAB := MergeSnrs(data.snrsAB, r.snrsAB, restoredNewer));
      data := data.(snrsBA := MergeSnrs(data.snrsBA, r.snrsBA, restoredNewer));
    }
  }
}
