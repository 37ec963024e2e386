/** A link as one of its endpoints sees it, for the links endpoint. */
module LinkViews {
  import opened Keys
  import opened LinkModel

  datatype NetworkDetail = NetworkDetail(networkId: string, packetCount: nat, sentByNode: nat, recvByNode: nat,
                                         firstSeen: int, lastSeen: int, quality: string, lowConfidence: bool,
                                         lowConfidenceCount: nat, lastHashSentByNode: string,
                                         lastHashRecvByNode: string)

  datatype Neighbor = Neighbor(neighbor: string, packetCount: nat, recentActivity: real, firstSeen: int, lastSeen: int,
                               networks: seq<string>, details: seq<NetworkDetail>, quality: string, lowConfidence: bool,
                               lowConfidenceCount: nat, sentByNode: nat, recvByNode: nat, lastHashSentByNode: string,
                               lastHashRecvByNode: string, snrSentByNode: seq<real>, snrRecvByNode: seq<real>,
                               lastSnrSentByNode: Option<real>, lastSnrRecvByNode: Option<real>,
                               sources: map<string, nat>, hasPos: bool, nodePos: Pos, neighborPos: Pos, moved: bool,
                               segmentCount: nat)

  function LinkQuality(packetCount: nat, lowConfidence: nat): string {
    if packetCount == 0 then "unknown"
    else if lowConfidence == 0 then "high"
    else if lowConfidence >= packetCount then "low"
    else "mixed"
  }

  function NetworkIds(nets: seq<Net>): (r: seq<string>)
    ensures |r| == |nets|
  {
    seq(|nets|, i requires 0 <= i < |nets| => nets[i].id)
  }

  function DetailOf(n: Net, nodeIsA: bool): NetworkDetail {
    NetworkDetail(n.id, n.packetCount, if nodeIsA then n.dirAB else n.dirBA, if nodeIsA then n.dirBA else n.dirAB,
                  n.firstSeen, n.lastSeen, LinkQuality(n.packetCount, n.lowConf), n.lowConf > 0, n.lowConf,
                  if nodeIsA then n.lastHashAB else n.lastHashBA, if nodeIsA then n.lastHashBA else n.lastHashAB)
  }

  function DetailsOf(nets: seq<Net>, nodeIsA: bool): (r: seq<NetworkDetail>)
    ensures |r| == |nets|
  {
    seq(|nets|, i requires 0 <= i < |nets| => DetailOf(nets[i], nodeIsA))
  }

  function LastOf(snrs: seq<real>): Option<real> {
    if snrs == [] then None else Some(snrs[|snrs| - 1])
  }

  /** The view of a link from its canonical A end, or from its B end. */
  function ViewFrom(rec: Rec, nodeIsA: bool, now: int, retain: real): Neighbor {
    var sent, recv := if nodeIsA then rec.snrsAB else rec.snrsBA, if nodeIsA then rec.snrsBA else rec.snrsAB;
    Neighbor(HexOf(if nodeIsA then rec.key.b else rec.key.a), rec.packetCount,
             DecayedScore(rec.score, rec.scoreAt, now, retain), rec.firstSeen, rec.lastSeen, NetworkIds(rec.networks),
             DetailsOf(rec.networks, nodeIsA), LinkQuality(rec.packetCount, rec.lowConf), rec.lowConf > 0, rec.lowConf,
             if nodeIsA then rec.dirAB else rec.dirBA, if nodeIsA then rec.dirBA else rec.dirAB,
             if nodeIsA then rec.lastHashAB else rec.lastHashBA, if nodeIsA then rec.lastHashBA else rec.lastHashAB,
             sent, recv, LastOf(sent), LastOf(recv), rec.sources, rec.hasPos,
             if nodeIsA then rec.ends.a else rec.ends.b, if nodeIsA then rec.ends.b else rec.ends.a,
             rec.segments != [], |rec.segments|)
  }

  function MirrorDetail(d: NetworkDetail): NetworkDetail {
    d.(sentByNode := d.recvByNode, recvByNode := d.sentByNode,
       lastHashSentByNode := d.lastHashRecvByNode, lastHashRecvByNode := d.lastHashSentByNode)
  }

  function MirrorDetails(ds: seq<NetworkDetail>): (r: seq<NetworkDetail>)
    ensures |r| == |ds|
  {
    seq(|ds|, i requires 0 <= i < |ds| => MirrorDetail(ds[i]))
  }

  /** A view with the two ends exchanged, as seen by the former neighbor. */
  function Mirror(v: Neighbor, self: PubKey): Neighbor {
    v.(neighbor := HexOf(self), details := MirrorDetails(v.details),
       sentByNode := v.recvByNode, recvByNode := v.sentByNode,
       lastHashSentByNode := v.lastHashRecvByNode, lastHashRecvByNode := v.lastHashSentByNode,
       snrSentByNode := v.snrRecvByNode, snrRecvByNode := v.snrSentByNode,
       lastSnrSentByNode := v.lastSnrRecvByNode, lastSnrRecvByNode := v.lastSnrSentByNode,
       nodePos := v.neighborPos, neighborPos := v.nodePos)
  }

  /** The two endpoints see the same link in exact mirror image. */
  lemma ViewsMirror(rec: Rec, now: int, retain: real)
    ensures ViewFrom(rec, false, now, retain) == Mirror(ViewFrom(rec, true, now, retain), rec.key.a)
    ensures ViewFrom(rec, true, now, retain) == Mirror(ViewFrom(rec, false, now, retain), rec.key.b)
  {
    assert DetailsOf(rec.networks, false) == MirrorDetails(DetailsOf(rec.networks, true));
    assert DetailsOf(rec.networks, true) == MirrorDetails(DetailsOf(rec.networks, false));
  }
}
