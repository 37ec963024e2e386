/** What observing a path records, told by the entries of the path themselves. */
module PathRecords {
  import opened Keys
  import opened LinkModel
  import opened PathWalk

  /** Entry `i` reads as `p`, entry `j` as another key `q`, and all entries between are blank. */
  predicate Neighbors(path: seq<string>, p: PubKey, q: PubKey, i: int, j: int) {
    && 0 <= i < j < |path| && p != q && NormalizePub(path[i]) == Some(p) && NormalizePub(path[j]) == Some(q)
    && forall x :: i < x < j ==> Clean(path[x]) == ""
  }

  ghost predicate AreNeighbors(path: seq<string>, p: PubKey, q: PubKey) {
    exists i, j :: Neighbors(path, p, q, i, j)
  }

  /** Entry `i` is the last one that is not blank, and reads as `p`. */
  predicate EndsAt(path: seq<string>, p: PubKey, i: int) {
    && 0 <= i < |path| && NormalizePub(path[i]) == Some(p)
    && forall x :: i < x < |path| ==> Clean(path[x]) == ""
  }

  ghost predicate EndsWithKey(path: seq<string>, p: PubKey) {
    exists i :: EndsAt(path, p, i)
  }

  lemma KeysAreNotBlank(raw: string)
    ensures NormalizePub(raw).Some? ==> Clean(raw) != ""
  {
    if NormalizePub(raw).Some? { NormalizePubRoundTrip(NormalizePub(raw).value, raw); }
  }

  lemma EndsSnoc(path: seq<string>, raw: string, p: PubKey)
    ensures EndsWithKey(path + [raw], p)
            <==> if Clean(raw) == "" then EndsWithKey(path, p) else NormalizePub(raw) == Some(p)
  {
    hide NormalizePub, Clean;
    KeysAreNotBlank(raw);
    var all := path + [raw];
    assert all[|path|] == raw && forall x :: 0 <= x < |path| ==> path[x] == all[x];
    if i :| EndsAt(all, p, i) {
      if i < |path| { assert EndsAt(path, p, i); }
    }
    if Clean(raw) == "" {
      if i :| EndsAt(path, p, i) { assert EndsAt(all, p, i); }
    } else if NormalizePub(raw) == Some(p) {
      assert EndsAt(all, p, |path|);
    }
  }

  lemma NeighborsSnoc(path: seq<string>, raw: string, p: PubKey, q: PubKey)
    ensures AreNeighbors(path + [raw], p, q)
            <==> AreNeighbors(path, p, q) || (p != q && EndsWithKey(path, p) && NormalizePub(raw) == Some(q))
  {
    hide NormalizePub, Clean;
    var all := path + [raw];
    assert all[|path|] == raw && forall x :: 0 <= x < |path| ==> path[x] == all[x];
    if i, j :| Neighbors(all, p, q, i, j) {
      if j < |path| { assert Neighbors(path, p, q, i, j); } else { assert EndsAt(path, p, i); }
    }
    if i, j :| Neighbors(path, p, q, i, j) { assert Neighbors(all, p, q, i, j); }
    if p != q && EndsWithKey(path, p) && NormalizePub(raw) == Some(q) {
      var i :| EndsAt(path, p, i);
      assert Neighbors(all, p, q, i, |path|);
    }
  }

  lemma TokensNext(path: seq<string>, raw: string)
    ensures Tokens(path + [raw]) == if Clean(raw) == "" then Tokens(path) else Tokens(path) + [TokenOf(raw)]
    ensures forall p :: NormalizePub(raw) == Some(p) <==> TokenOf(raw) == Key(p)
  {
    hide NormalizePub, Clean;
    assert (path + [raw])[..|path|] == path;
  }

  lemma FollowsNext(tokens: seq<Token>, t: Token, p: PubKey, q: PubKey)
    ensures Follows(tokens + [t], p, q)
            <==> Follows(tokens, p, q) || (p != q && tokens != [] && tokens[|tokens| - 1] == Key(p) && t == Key(q))
  {
    FollowsSnoc(tokens + [t], p, q);
    assert (tokens + [t])[..|tokens|] == tokens;
  }

  lemma NoTokens(p: PubKey, q: PubKey)
    ensures Tokens([]) == [] && !EndsWithKey([], p) && !AreNeighbors([], p, q) && !Follows([], p, q)
  {
  }

  lemma {:induction false} TokensOfPath(path: seq<string>, p: PubKey, q: PubKey)
    ensures var t := Tokens(path);
            && (EndsWithKey(path, p) <==> t != [] && t[|t| - 1] == Key(p))
            && (AreNeighbors(path, p, q) <==> Follows(t, p, q))
  {
    hide NormalizePub, Clean, EndsWithKey, AreNeighbors, Follows, Tokens, TokenOf;
    if path == [] {
      NoTokens(p, q);
    } else {
      var n := |path| - 1;
      var init, raw := path[..n], path[n];
      assert path == init + [raw];
      TokensOfPath(init, p, q);
      EndsSnoc(init, raw, p);
      NeighborsSnoc(init, raw, p, q);
      KeysAreNotBlank(raw);
      TokensNext(init, raw);
      FollowsNext(Tokens(init), TokenOf(raw), p, q);
    }
  }

  // ---------------------------------------------------------------- the events

  /** The end an event was sent from, and the one it was received at. */
  function Sender(e: Obs): PubKey {
    if e.fromIsA then e.key.a else e.key.b
  }

  function Receiver(e: Obs): PubKey {
    if e.fromIsA then e.key.b else e.key.a
  }

  /** The event of a leg goes the way of the leg; its positions are those of the two ends of
      its link, if both are known. */
  lemma EventOfLeg(o: PathObservation, l: Leg)
    requires l.from != l.to
    ensures var e := ObsOf(o, l);
            && IsCanonical(e.key) && Sender(e) == l.from && Receiver(e) == l.to
            && e.hash == Clean(o.hash) && e.networkId == o.networkId && e.routeType == o.routeType
            && e.now == o.now && e.lowConf == o.lowConf
            && e.ends == (if o.posOf.None? then None
                          else
                            var a, b := o.posOf.value(HexOf(e.key.a)), o.posOf.value(HexOf(e.key.b));
                            if a.Some? && b.Some? then Some(Ends(a.value, b.value)) else None)
  {
    CanonicalKeyCorrect(l.from, l.to);
  }

  /** The events are those of the legs the walk emits, in its order. */
  lemma EventsOfLegs(o: PathObservation)
    requires Clean(o.hash) != "" && |o.path| >= 2
    ensures var events, legs := PathEvents(o), Walk(o.path);
            && |events| == |legs|
            && forall i :: 0 <= i < |legs| ==> Sender(events[i]) == legs[i].from && Receiver(events[i]) == legs[i].to
  {
    hide Clean, FirstLegs, Legs, Collapse, Tokens, Sender, Receiver;
    var events, legs := PathEvents(o), Walk(o.path);
    WalkHasNoSelfLegs(Collapse(Tokens(o.path)));
    forall i | 0 <= i < |legs| ensures Sender(events[i]) == legs[i].from && Receiver(events[i]) == legs[i].to {
      assert legs[i] in legs;
      EventOfLeg(o, legs[i]);
    }
  }

  /** What a path records: one event for each pair of different keys that stand next to each
      other in it, blank entries aside, in the direction they stand; and no other. A path of
      fewer than two entries, or a packet without a hash, records nothing. */
  lemma PathRecordsNeighbors(o: PathObservation, p: PubKey, q: PubKey)
    ensures (exists e :: e in PathEvents(o) && Sender(e) == p && Receiver(e) == q)
            <==> Clean(o.hash) != "" && |o.path| >= 2 && AreNeighbors(o.path, p, q)
    ensures forall i, j :: 0 <= i < j < |PathEvents(o)| ==>
              Sender(PathEvents(o)[i]) != Sender(PathEvents(o)[j])
              || Receiver(PathEvents(o)[i]) != Receiver(PathEvents(o)[j])
  {
    hide Clean, AreNeighbors, Follows, Walk, Sender, Receiver, PathEvents, ObsOf;
    TokensOfPath(o.path, p, q);
    WalkEmitsEveryWayOnce(o.path, p, q);
    var legs, events := Walk(o.path), PathEvents(o);
    if Clean(o.hash) == "" || |o.path| < 2 {
      NothingRecorded(o);
    } else {
      EventsOfLegs(o);
      forall i, j | 0 <= i < j < |legs|
        ensures Sender(events[i]) != Sender(events[j]) || Receiver(events[i]) != Receiver(events[j])
      {
        assert !SameWay(legs[i], legs[j]);
      }
      if AreNeighbors(o.path, p, q) {
        var l :| l in legs && (l.from, l.to) == (p, q);
        var i :| 0 <= i < |legs| && legs[i] == l;
        assert events[i] in events && Sender(events[i]) == p;
      }
      if e :| e in events && Sender(e) == p && Receiver(e) == q {
        var i :| 0 <= i < |events| && events[i] == e;
        assert legs[i] in legs && (legs[i].from, legs[i].to) == (p, q);
      }
    }
  }

  lemma NothingRecorded(o: PathObservation)
    requires Clean(o.hash) == "" || |o.path| < 2
    ensures PathEvents(o) == []
  {
  }
}
