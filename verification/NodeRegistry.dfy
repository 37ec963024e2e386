/** The node registry of nodes.go. */
module NodeRegistries {
  import opened Collections
  import opened NodeModel

  class NodeRegistry {
    const maxAdverts: nat
    var nodes: map<string, Node>
    var dirty: set<string>
    var pending: seq<Advert>

    ghost function Value(): Registry
      reads this
    {
      Registry(nodes, dirty, pending)
    }

    constructor (maxAdverts: int)
      ensures Value() == Registry(map[], {}, [])
      ensures this.maxAdverts == if maxAdverts <= 0 then 10 else maxAdverts
    {
      this.maxAdverts := if maxAdverts <= 0 then DEFAULT_ADVERTS_PER_NODE else maxAdverts;
      nodes, dirty, pending := map[], {}, [];
    }

    method Observe(a: Advert)
      modifies this
      ensures Value() == Heard(old(Value()), a, maxAdverts)
    {
      if a.pubKey == "" {
        return;
      }
      var n := if a.pubKey in nodes then nodes[a.pubKey] else NewNode(a);
      if a.name != "" {
        n := n.(name := a.name);
      }
      n := n.(nodeType := a.nodeType);
      if a.hasGps {
        n := n.(hasGps := true, lat := a.lat, lon := a.lon);
      }
      n := n.(lastAdvertAt := a.at, advertCount := n.advertCount + 1, observerId := a.observerId,
              observerName := a.observerName);
      if a.networkId != "" && a.networkId !in n.networks {
        n := n.(networks := n.networks + [a.networkId]);
      }
      n := n.(latest := [a] + n.latest);
      if |n.latest| > maxAdverts {
        n := n.(latest := n.latest[..maxAdverts]);
      }
      nodes := nodes[a.pubKey := n];
      pending := pending + [a];
      dirty := dirty + {a.pubKey};
    }

    /** A copy of the buffer, which stays as it is. */
    method PendingAdverts() returns (out: seq<Advert>)
      ensures out == pending
    {
      return pending;
    }

    /** Drops the first `n` buffered adverts. */
    method ClearPending(n: nat)
      modifies this`pending
      ensures Value() == Cleared(old(Value()), n)
    {
      if n >= |pending| {
        pending := [];
        return;
      }
      pending := pending[n..];
    }

    /** The changed nodes, each once; nothing is dirty afterwards. */
    method TakeDirty() returns (out: seq<Node>, ghost keys: seq<string>)
      modifies this`dirty
      ensures Value() == old(Value()).(dirty := {})
      ensures |keys| == |out| && (forall k :: k in keys <==> k in DirtyNodes(old(Value())))
      ensures forall i, j :: 0 <= i < j < |keys| ==> keys[i] != keys[j]
      ensures forall i :: 0 <= i < |out| ==> keys[i] in nodes && out[i] == nodes[keys[i]].(latest := [])
    {
      out, keys := [], [];
      var todo := dirty;
      while todo != {}
        invariant todo <= dirty
        invariant |keys| == |out| && (forall k :: k in keys <==> k in nodes && k in dirty && k !in todo)
        invariant forall i, j :: 0 <= i < j < |keys| ==> keys[i] != keys[j]
        invariant forall i :: 0 <= i < |out| ==> keys[i] in nodes && out[i] == nodes[keys[i]].(latest := [])
        decreases |todo|
      {
        var k :| k in todo;
        todo := todo - {k};
        if k in nodes {
          out, keys := out + [nodes[k].(latest := [])], keys + [k];
        }
      }
      dirty := {};
    }

    /** Marks the nodes of a failed flush dirty again. */
    method Requeue(records: seq<Node>)
      modifies this`dirty
      ensures Value() == Requeued(old(Value()), set n | n in records :: n.pubKey)
    {
      for i := 0 to |records|
        invariant dirty == old(dirty) + set n | n in records[..i] && n.pubKey in nodes :: n.pubKey
      {
        if records[i].pubKey in nodes {
          dirty := dirty + {records[i].pubKey};
        }
      }
    }

    /** Fills the lists that are still empty from the history table. */
    method AttachRecentAdverts(recent: map<string, seq<Advert>>)
      modifies this`nodes
      ensures Value() == Attached(old(Value()), recent, maxAdverts)
    {
      var todo := recent.Keys;
      ghost var was := nodes;
      hide Trim;
      while todo != {}
        invariant todo <= recent.Keys && nodes.Keys == was.Keys
        invariant forall k {:trigger nodes[k]} :: k in nodes ==>
                    nodes[k] == if k in recent && k !in todo && Fills(was[k], recent[k])
                                then was[k].(latest := Trim(recent[k], maxAdverts)) else was[k]
        decreases |todo|
      {
        var k :| k in todo;
        todo := todo - {k};
        if k !in nodes || |nodes[k].latest| > 0 || |recent[k]| == 0 {
          continue;
        }
        nodes := nodes[k := nodes[k].(latest := Trim(recent[k], maxAdverts))];
      }
    }

    /** Sets the flags of one node, if that changes them. */
    method SetFlags(k: string, flags: seq<string>) returns (did: bool)
      modifies this`nodes, this`dirty
      ensures did == (k in old(nodes) && old(nodes)[k].flags != flags)
      ensures did ==> nodes == old(nodes)[k := old(nodes)[k].(flags := flags)] && dirty == old(dirty) + {k}
      ensures !did ==> nodes == old(nodes) && dirty == old(dirty)
    {
      if k !in nodes || nodes[k].flags == flags {
        return false;
      }
      nodes := nodes[k := nodes[k].(flags := flags)];
      dirty := dirty + {k};
      return true;
    }

    /** Sets flags; only nodes whose flags really change become dirty. */
    method ApplyFlags(desired: map<string, seq<string>>) returns (changed: nat)
      modifies this`nodes, this`dirty
      ensures Value() == Flagged(old(Value()), desired)
      ensures nodes.Keys == old(nodes).Keys && forall k :: k in nodes ==>
                nodes[k] == old(nodes)[k].(flags := if k in desired then desired[k] else old(nodes)[k].flags)
      ensures forall k :: k in dirty <==>
                k in old(dirty) || (k in desired && k in nodes && old(nodes)[k].flags != desired[k])
      ensures changed == |Reflagged(old(nodes), desired, desired.Keys)|
    {
      changed := 0;
      ghost var was := Value();
      hide Flagging, Reflagged, SomeFlagged, Flagged, Firsts, Enumerates;
      FlaggingStarts(was, desired);
      var keys := Enumerate(desired);
      FirstsEnds(keys, desired.Keys);
      for n := 0 to |keys|
        invariant Flagging(was, desired, Firsts(keys, n), nodes, dirty, changed)
      {
        var k := keys[n];
        FirstsNext(keys, desired.Keys, n);
        FlagNext(was, desired, Firsts(keys, n), k, nodes, dirty, changed);
        var did := SetFlags(k, desired[k]);
        if did {
          changed := changed + 1;
        }
      }
      FlaggingDone(was, desired, nodes, dirty, changed);
      FlaggedFields(was, desired);
    }

    /** Takes over the persisted nodes. */
    method Restore(records: seq<Node>, recent: map<string, seq<Advert>>)
      modifies this`nodes
      ensures Value() == old(Value()).(nodes := RestoredAll(old(nodes), records, recent, maxAdverts))
    {
      hide Trim;
      for i := 0 to |records|
        invariant nodes == RestoredAll(old(nodes), records[..i], recent, maxAdverts)
      {
        assert records[..i + 1][..i] == records[..i];
        var n := records[i];
        if n.pubKey in recent && |recent[n.pubKey]| > 0 {
          n := n.(latest := Trim(recent[n.pubKey], maxAdverts));
        }
        nodes := nodes[n.pubKey := n];
      }
      assert records[..|records|] == records;
    }
  }
}
