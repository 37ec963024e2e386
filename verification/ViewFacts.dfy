/** What the view of a link tells one of its ends, read off the events of the link. */
module ViewFacts {
  import opened Keys
  import opened LinkModel
  import opened LinkRuns
  import opened LinkGeometry
  import opened LinkTraces
  import opened LinkViews

  /** The events that a node sent. */
  function SentBy(events: seq<Obs>, node: PubKey): seq<Obs> {
    if events == [] then []
    else
      var last := events[|events| - 1];
      var sender := if last.fromIsA then last.key.a else last.key.b;
      SentBy(events[..|events| - 1], node) + if sender == node then [last] else []
  }

  lemma {:induction false} CountedEventsAreOfLink(ops: seq<Op>, k: LinkKey, cfg: Config)
    ensures forall e :: e in CountedEvents(ops, k, cfg) ==> e.key == k
  {
    if ops != [] { CountedEventsAreOfLink(ops[..|ops| - 1], k, cfg); }
  }

  lemma {:induction false} SentIsDirected(events: seq<Obs>, k: LinkKey)
    requires k.a != k.b && forall e :: e in events ==> e.key == k
    ensures SentBy(events, k.a) == Directed(events, true) && SentBy(events, k.b) == Directed(events, false)
    ensures |SentBy(events, k.a)| + |SentBy(events, k.b)| == |events|
  {
    if events != [] {
      var n := |events| - 1;
      assert events[n] in events && forall e :: e in events[..n] ==> e in events;
      SentIsDirected(events[..n], k);
    }
  }

  lemma ViewFields(rec: Rec, node: PubKey, now: int, retain: real)
    requires node == rec.key.a || node == rec.key.b
    ensures var v, isA := ViewFrom(rec, rec.key.a == node, now, retain), rec.key.a == node;
            && v.sentByNode == (if isA then rec.dirAB else rec.dirBA)
            && v.recvByNode == (if isA then rec.dirBA else rec.dirAB)
            && v.lastHashSentByNode == (if isA then rec.lastHashAB else rec.lastHashBA)
            && v.lastHashRecvByNode == (if isA then rec.lastHashBA else rec.lastHashAB)
            && v.snrSentByNode == (if isA then rec.snrsAB else rec.snrsBA)
            && v.snrRecvByNode == (if isA then rec.snrsBA else rec.snrsAB)
            && v.packetCount == rec.packetCount && v.neighbor == HexOf(if isA then rec.key.b else rec.key.a)
            && v.lastSnrSentByNode == LastOf(v.snrSentByNode) && v.lastSnrRecvByNode == LastOf(v.snrRecvByNode)
  {
    hide HexOf;
  }

  /** In every run, what a node is shown as sent over a link is what it sent, and what it is
      shown as received is what its neighbor sent: how many packets, the last hash, and the
      last five SNRs. */
  lemma ViewShowsSent(ops: seq<Op>, k: LinkKey, cfg: Config, node: PubKey, other: PubKey, now: int)
    requires NeverRestored(ops, k) && k in Run(EMPTY, ops, cfg).links && Run(EMPTY, ops, cfg).links[k].key == k
    requires node != other && ((k.a == node && k.b == other) || (k.a == other && k.b == node))
    ensures var v := ViewFrom(Run(EMPTY, ops, cfg).links[k], k.a == node, now, cfg.retain);
            var events := CountedEvents(ops, k, cfg);
            var sent, received := SentBy(events, node), SentBy(events, other);
            && v.neighbor == HexOf(other)
            && v.sentByNode == |sent| && v.recvByNode == |received| && v.packetCount == |sent| + |received|
            && v.lastHashSentByNode == LastHash(sent) && v.lastHashRecvByNode == LastHash(received)
            && v.snrSentByNode == LastFive(Snrs(sent)) && v.snrRecvByNode == LastFive(Snrs(received))
            && v.lastSnrSentByNode == LastOf(v.snrSentByNode) && v.lastSnrRecvByNode == LastOf(v.snrRecvByNode)
  {
    var rec, events := Run(EMPTY, ops, cfg).links[k], CountedEvents(ops, k, cfg);
    CountedEventsAreOfLink(ops, k, cfg);
    RecordSummarizesEvents(ops, k, cfg);
    hide Run, CountedEvents, ViewFrom, HexOf, LastFive, Snrs, LastHash, SourcesMatch, SentBy, Directed, LastOf;
    SentIsDirected(events, k);
    ViewFields(rec, node, now, cfg.retain);
  }

  lemma {:induction false} LowConfidenceIs(events: seq<Obs>)
    ensures LowConfidence(events) <= |events|
    ensures LowConfidence(events) == 0 <==> forall e :: e in events ==> !e.lowConf
    ensures LowConfidence(events) == |events| <==> forall e :: e in events ==> e.lowConf
  {
    if events != [] {
      var n := |events| - 1;
      LowConfidenceIs(events[..n]);
      assert events == events[..n] + [events[n]];
    }
  }

  /** The quality of a link is high when no event of it was of low confidence, low when all
      were, and mixed otherwise. */
  lemma ViewShowsQuality(ops: seq<Op>, k: LinkKey, cfg: Config, nodeIsA: bool, now: int)
    requires NeverRestored(ops, k) && k in Run(EMPTY, ops, cfg).links
    ensures var v := ViewFrom(Run(EMPTY, ops, cfg).links[k], nodeIsA, now, cfg.retain);
            var events := CountedEvents(ops, k, cfg);
            && (v.quality == "high" <==> forall e :: e in events ==> !e.lowConf)
            && (v.quality == "low" <==> forall e :: e in events ==> e.lowConf)
            && (v.quality == "mixed" <==> v.quality != "high" && v.quality != "low")
            && (v.lowConfidence <==> exists e :: e in events && e.lowConf)
  {
    var rec, events := Run(EMPTY, ops, cfg).links[k], CountedEvents(ops, k, cfg);
    RecordSummarizesEvents(ops, k, cfg);
    LowConfidenceIs(events);
    hide Run, CountedEvents, SourcesMatch, Directed, Snrs, LastFive, LastHash, DetailsOf, NetworkIds, HexOf;
    hide LowConfidence;
    assert events[0] in events;
    QualityOf(rec, nodeIsA, now, cfg.retain);
  }

  lemma QualityOf(rec: Rec, nodeIsA: bool, now: int, retain: real)
    requires 0 < rec.packetCount && rec.lowConf <= rec.packetCount
    ensures var v := ViewFrom(rec, nodeIsA, now, retain);
            && (v.quality == "high" <==> rec.lowConf == 0) && (v.quality == "low" <==> rec.lowConf == rec.packetCount)
            && (v.quality == "mixed" <==> 0 < rec.lowConf < rec.packetCount)
            && (v.lowConfidence <==> 0 < rec.lowConf)
  {
    hide HexOf, DecayedScore;
    var names := ["high", "low", "mixed"];
    assert names[0][0] == 'h' && names[1][0] == 'l' && names[2][0] == 'm';
  }

  /** Network by network the view shows the same. */
  lemma ViewShowsNetworks(rec: Rec, node: PubKey, now: int, retain: real, i: nat)
    requires (node == rec.key.a || node == rec.key.b) && i < |rec.networks|
    ensures var v, n, isA := ViewFrom(rec, rec.key.a == node, now, retain), rec.networks[i], rec.key.a == node;
            && |v.details| == |v.networks| == |rec.networks| && v.networks[i] == n.id && v.details[i].networkId == n.id
            && v.details[i].sentByNode == (if isA then n.dirAB else n.dirBA)
            && v.details[i].recvByNode == (if isA then n.dirBA else n.dirAB)
            && v.details[i].lastHashSentByNode == (if isA then n.lastHashAB else n.lastHashBA)
            && v.details[i].lastHashRecvByNode == (if isA then n.lastHashBA else n.lastHashAB)
            && v.nodePos == (if isA then rec.ends.a else rec.ends.b)
            && v.neighborPos == (if isA then rec.ends.b else rec.ends.a)
  {
    hide HexOf;
  }
}
