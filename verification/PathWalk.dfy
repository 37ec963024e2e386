/** The walk that turns one packet's resolved path into directed adjacencies. */
module PathWalk {
  import opened Keys
  import opened Collections
  import opened LinkModel

  /** One packet's resolved path and its context. `posOf` looks up a node's position by
      its hex key; None when positions are not stamped. */
  datatype PathObservation = PathObservation(hash: string, networkId: string, routeType: string, path: seq<string>,
                                             lowConf: bool, snrs: seq<real>, now: int,
                                             posOf: Option<string -> Option<Pos>>)

  /** A directed adjacency, and the index of its receiver among the accepted nodes. */
  datatype Leg = Leg(from: PubKey, to: PubKey, hop: nat)

  /** A path entry, read: a valid key, or something that breaks adjacency. */
  datatype Token = Key(key: PubKey) | Bad(text: string)

  // ---------------------------------------------------------------- the path, tidied

  function TokenOf(raw: string): Token {
    var k := NormalizePub(raw);
    if k.Some? then Key(k.value) else Bad(Clean(raw))
  }

  /** Entries read the same exactly when their cleaned texts are the same. */
  lemma SameTokenSameText(x: string, y: string)
    ensures TokenOf(x) == TokenOf(y) <==> Clean(x) == Clean(y)
    ensures TokenOf(Clean(x)) == TokenOf(x)
    ensures TokenOf(x).Key? ==> Clean(x) == HexOf(TokenOf(x).key)
  {
    CleanIdempotent(x);
    if NormalizePub(x).Some? { NormalizePubRoundTrip(NormalizePub(x).value, x); }
    if NormalizePub(y).Some? { NormalizePubRoundTrip(NormalizePub(y).value, y); }
  }

  /** The path entries, read, without the blank ones. */
  function Tokens(path: seq<string>): seq<Token> {
    if path == [] then []
    else
      var rest, raw := Tokens(path[..|path| - 1]), path[|path| - 1];
      if Clean(raw) == "" then rest else rest + [TokenOf(raw)]
  }

  /** Consecutive repeats collapsed. */
  function Collapse(tokens: seq<Token>): seq<Token> {
    if tokens == [] then []
    else
      var rest, t := Collapse(tokens[..|tokens| - 1]), tokens[|tokens| - 1];
      if rest != [] && rest[|rest| - 1] == t then rest else rest + [t]
  }

  /** How many entries are valid keys. */
  function Accepted(nodes: seq<Token>): nat {
    if nodes == [] then 0
    else Accepted(nodes[..|nodes| - 1]) + (if nodes[|nodes| - 1].Key? then 1 else 0)
  }

  /** Every pair of neighbouring valid keys, in path order. */
  function Legs(nodes: seq<Token>): seq<Leg> {
    if |nodes| <= 1 then []
    else
      var n := |nodes| - 1;
      var rest, p, q := Legs(nodes[..n]), nodes[n - 1], nodes[n];
      if p.Key? && q.Key? && p != q then rest + [Leg(p.key, q.key, Accepted(nodes[..n]))] else rest
  }

  function Ways(legs: seq<Leg>): set<(PubKey, PubKey)> {
    set l | l in legs :: (l.from, l.to)
  }

  /** The first leg in each direction of each link. */
  function FirstLegs(legs: seq<Leg>): seq<Leg> {
    if legs == [] then []
    else
      var init, last := legs[..|legs| - 1], legs[|legs| - 1];
      if (last.from, last.to) in Ways(init) then FirstLegs(init) else FirstLegs(init) + [last]
  }

  function Walk(path: seq<string>): seq<Leg> {
    FirstLegs(Legs(Collapse(Tokens(path))))
  }

  function SnrAt(snrs: seq<real>, hop: nat): Option<real> {
    if hop < |snrs| then Some(snrs[hop]) else None
  }

  function ObsOf(o: PathObservation, l: Leg): Obs
    requires l.from != l.to
  {
    var key := CanonicalKey(l.from, l.to).value;
    var fromIsA := key.a == l.from;
    Obs(key, fromIsA, Clean(o.hash), o.networkId, o.routeType, o.now,
        EndsFor(o.posOf, HexOf(l.from), HexOf(l.to), fromIsA),
        SnrAt(o.snrs, l.hop), o.lowConf)
  }

  ghost predicate NoSelfLegs(legs: seq<Leg>) {
    forall l :: l in legs ==> l.from != l.to
  }

  function ObsOfAll(o: PathObservation, legs: seq<Leg>): (r: seq<Obs>)
    requires NoSelfLegs(legs)
    ensures |r| == |legs|
    ensures forall i :: 0 <= i < |r| ==> r[i] == ObsOf(o, legs[i])
  {
    seq(|legs|, i requires 0 <= i < |legs| => ObsOf(o, legs[i]))
  }

  /** What the walk has recorded after the entries that collapse to `nodes`. */
  function Emitted(o: PathObservation, nodes: seq<Token>): seq<Obs> {
    WalkHasNoSelfLegs(nodes);
    ObsOfAll(o, FirstLegs(Legs(nodes)))
  }

  /** What observing a path records. */
  function PathEvents(o: PathObservation): seq<Obs> {
    if Clean(o.hash) == "" || |o.path| < 2 then [] else Emitted(o, Collapse(Tokens(o.path)))
  }

  lemma {:induction false} LegsHaveNoSelfLegs(nodes: seq<Token>)
    ensures NoSelfLegs(Legs(nodes))
  {
    if |nodes| > 1 { LegsHaveNoSelfLegs(nodes[..|nodes| - 1]); }
  }

  lemma {:induction false} FirstLegsSubset(legs: seq<Leg>)
    ensures forall l :: l in FirstLegs(legs) ==> l in legs
  {
    if legs != [] {
      FirstLegsSubset(legs[..|legs| - 1]);
      assert legs == legs[..|legs| - 1] + [legs[|legs| - 1]];
    }
  }

  /** No self-link is ever emitted. */
  lemma WalkHasNoSelfLegs(nodes: seq<Token>)
    ensures NoSelfLegs(FirstLegs(Legs(nodes)))
  {
    LegsHaveNoSelfLegs(nodes);
    FirstLegsSubset(Legs(nodes));
  }

  // ---------------------------------------------------------------- what is emitted

  lemma {:induction false} FirstLegsWays(legs: seq<Leg>)
    ensures Ways(FirstLegs(legs)) == Ways(legs)
  {
    if legs != [] {
      var init, last := legs[..|legs| - 1], legs[|legs| - 1];
      assert legs == init + [last];
      FirstLegsWays(init);
      WaysSnoc(init, last);
      WaysSnoc(FirstLegs(init), last);
    }
  }

  predicate SameWay(x: Leg, y: Leg) {
    x.from == y.from && x.to == y.to
  }

  lemma {:induction false} FirstLegsOnce(legs: seq<Leg>)
    ensures forall i, j :: 0 <= i < j < |FirstLegs(legs)| ==> !SameWay(FirstLegs(legs)[i], FirstLegs(legs)[j])
  {
    if legs != [] {
      var init, last := legs[..|legs| - 1], legs[|legs| - 1];
      var first := FirstLegs(init);
      FirstLegsOnce(init);
      FirstLegsWays(init);
      if (last.from, last.to) !in Ways(init) {
        forall i | 0 <= i < |first| ensures !SameWay(first[i], last) {
          assert first[i] in first && (first[i].from, first[i].to) in Ways(first);
        }
      }
    }
  }

  /** The leg that goes some way first is the one that is emitted. */
  lemma {:induction false} FirstLegEmitted(legs: seq<Leg>, k: nat)
    requires k < |legs| && (legs[k].from, legs[k].to) !in Ways(legs[..k])
    ensures legs[k] in FirstLegs(legs)
  {
    var init := legs[..|legs| - 1];
    if k < |init| {
      assert init[..k] == legs[..k];
      FirstLegEmitted(init, k);
    }
  }

  /** Read off the tokens alone: the valid key `p` is directly followed by a different
      valid key `q`. */
  ghost predicate Follows(tokens: seq<Token>, p: PubKey, q: PubKey) {
    exists i :: FollowsAt(tokens, p, q, i)
  }

  predicate FollowsAt(tokens: seq<Token>, p: PubKey, q: PubKey, i: int) {
    0 < i < |tokens| && tokens[i - 1] == Key(p) && tokens[i] == Key(q) && p != q
  }

  lemma {:induction false} CollapseKeepsLast(tokens: seq<Token>)
    ensures var c := Collapse(tokens);
            (c == [] <==> tokens == []) && (c != [] ==> c[|c| - 1] == tokens[|tokens| - 1])
  {
    if tokens != [] { CollapseKeepsLast(tokens[..|tokens| - 1]); }
  }

  lemma FollowsSnoc(tokens: seq<Token>, p: PubKey, q: PubKey)
    requires tokens != []
    ensures Follows(tokens, p, q) <==> Follows(tokens[..|tokens| - 1], p, q) || FollowsAt(tokens, p, q, |tokens| - 1)
  {
    var init := tokens[..|tokens| - 1];
    if i :| FollowsAt(tokens, p, q, i) {
      if i < |init| { assert FollowsAt(init, p, q, i); }
    }
    if i :| FollowsAt(init, p, q, i) {
      assert FollowsAt(tokens, p, q, i);
    }
  }

  /** Collapsing keeps exactly the ways between different neighbours. */
  lemma {:induction false} WaysOfCollapsed(tokens: seq<Token>, p: PubKey, q: PubKey)
    ensures (p, q) in Ways(Legs(Collapse(tokens))) <==> Follows(tokens, p, q)
  {
    if tokens != [] {
      var n := |tokens| - 1;
      var init, t := tokens[..n], tokens[n];
      WaysOfCollapsed(init, p, q);
      FollowsSnoc(tokens, p, q);
      CollapseKeepsLast(init);
      var c := Collapse(init);
      if c == [] || c[|c| - 1] != t { LegsSnoc(c, t); }
    }
  }

  predicate Connects(c: seq<Token>, t: Token) {
    c != [] && c[|c| - 1].Key? && t.Key? && c[|c| - 1] != t
  }

  lemma WaysSnoc(legs: seq<Leg>, l: Leg)
    ensures Ways(legs + [l]) == Ways(legs) + {(l.from, l.to)}
  {
  }

  /** What one more entry adds to the legs. */
  lemma LegsSnoc(c: seq<Token>, t: Token)
    ensures Accepted(c + [t]) == Accepted(c) + (if t.Key? then 1 else 0)
    ensures !Connects(c, t) ==> Legs(c + [t]) == Legs(c)
    ensures Connects(c, t) ==>
              && Legs(c + [t]) == Legs(c) + [Leg(c[|c| - 1].key, t.key, Accepted(c))]
              && Ways(Legs(c + [t])) == Ways(Legs(c)) + {(c[|c| - 1].key, t.key)}
  {
    assert (c + [t])[..|c|] == c;
    if Connects(c, t) {
      WaysSnoc(Legs(c), Leg(c[|c| - 1].key, t.key, Accepted(c)));
    }
  }

  /** The walk emits each way between different neighbouring valid keys of the path, blanks
      dropped, exactly once, and nothing else. */
  lemma WalkEmitsEveryWayOnce(path: seq<string>, p: PubKey, q: PubKey)
    ensures (p, q) in Ways(Walk(path)) <==> Follows(Tokens(path), p, q)
    ensures forall i, j :: 0 <= i < j < |Walk(path)| ==> !SameWay(Walk(path)[i], Walk(path)[j])
  {
    WaysOfCollapsed(Tokens(path), p, q);
    FirstLegsWays(Legs(Collapse(Tokens(path))));
    FirstLegsOnce(Legs(Collapse(Tokens(path))));
  }

  // ---------------------------------------------------------------- the walk, step by step

  /** What the walk remembers after the entries that collapse to `nodes`: the node it stands
      on, if any, the number of nodes accepted, and the ways it has gone. */
  ghost predicate WalkState(nodes: seq<Token>, havePrev: bool, prev: PubKey, prevRaw: string, hop: nat,
                            seen: set<(PubKey, PubKey)>)
  {
    && (havePrev <==> nodes != [] && nodes[|nodes| - 1].Key?)
    && (havePrev ==> nodes[|nodes| - 1] == Key(prev) && prevRaw == HexOf(prev))
    && hop == Accepted(nodes) && seen == Ways(Legs(nodes))
  }

  /** How one more path entry changes the tidied path. */
  lemma NextEntry(path: seq<string>, i: nat)
    requires i < |path|
    ensures var nodes, nodes', t := Collapse(Tokens(path[..i])), Collapse(Tokens(path[..i + 1])), TokenOf(path[i]);
            nodes' == if Clean(path[i]) == "" || (nodes != [] && nodes[|nodes| - 1] == t) then nodes else nodes + [t]
  {
    assert path[..i + 1][..i] == path[..i];
    CollapseSnoc(Tokens(path[..i]), TokenOf(path[i]));
  }

  lemma ReadCleaned(raw: string)
    ensures var t := TokenOf(raw);
            && NormalizePub(Clean(raw)) == (if t.Key? then Some(t.key) else None)
            && (t.Key? ==> Clean(raw) == HexOf(t.key))
  {
    SameTokenSameText(raw, raw);
  }

  /** A repeat of the current node is recognised by its text. */
  lemma RepeatByText(nodes: seq<Token>, prev: PubKey, prevRaw: string, raw: string)
    requires nodes != [] && nodes[|nodes| - 1] == Key(prev) && prevRaw == HexOf(prev)
    ensures Clean(raw) == prevRaw <==> TokenOf(raw) == nodes[|nodes| - 1]
  {
    NormalizePubRoundTrip(prev, raw);
    SameTokenSameText(raw, raw);
  }

  /** An invalid entry ends the current run and emits nothing. */
  lemma StepInvalid(o: PathObservation, nodes: seq<Token>, t: Token, prev: PubKey, raw: string, hop: nat,
                    seen: set<(PubKey, PubKey)>)
    requires t.Bad? && hop == Accepted(nodes) && seen == Ways(Legs(nodes))
    ensures WalkState(nodes + [t], false, prev, raw, hop, seen) && Emitted(o, nodes + [t]) == Emitted(o, nodes)
  {
    LegsSnoc(nodes, t);
  }

  /** A valid entry that is no repeat is accepted; it emits a leg exactly when the walk stood
      on a node and has not gone this way before. */
  lemma StepValid(o: PathObservation, nodes: seq<Token>, havePrev: bool, prev: PubKey, prevRaw: string, cur: PubKey,
                  hop: nat, seen: set<(PubKey, PubKey)>)
    requires WalkState(nodes, havePrev, prev, prevRaw, hop, seen)
    requires havePrev ==> prev != cur
    ensures WalkState(nodes + [Key(cur)], true, cur, HexOf(cur), hop + 1,
                      if havePrev then seen + {(prev, cur)} else seen)
    ensures havePrev && (prev, cur) !in seen ==>
              Emitted(o, nodes + [Key(cur)]) == Emitted(o, nodes) + [ObsOf(o, Leg(prev, cur, hop))]
    ensures !havePrev || (prev, cur) in seen ==> Emitted(o, nodes + [Key(cur)]) == Emitted(o, nodes)
  {
    hide ObsOf;
    LegsSnoc(nodes, Key(cur));
    WalkHasNoSelfLegs(nodes);
    WalkHasNoSelfLegs(nodes + [Key(cur)]);
    if havePrev {
      var legs := Legs(nodes);
      assert (legs + [Leg(prev, cur, hop)])[..|legs|] == legs;
    }
  }

  lemma WalkBegins(o: PathObservation, prev: PubKey)
    ensures Collapse(Tokens(o.path[..0])) == [] && WalkState([], false, prev, "", 0, {})
    ensures Emitted(o, []) == []
  {
    assert o.path[..0] == [];
  }

  /** setPositions: both endpoints' positions in canonical order. */
  function EndsFor(posOf: Option<string -> Option<Pos>>, fromHex: string, toHex: string, fromIsA: bool): Option<Ends> {
    if posOf.None? then None
    else
      var f, t := posOf.value(fromHex), posOf.value(toHex);
      if f.None? || t.None? then None
      else if fromIsA then Some(Ends(f.value, t.value))
      else Some(Ends(t.value, f.value))
  }

  // ---------------------------------------------------------------- the reversed path

  lemma {:induction false} TokensConcat(a: seq<string>, b: seq<string>)
    ensures Tokens(a + b) == Tokens(a) + Tokens(b)
  {
    if b == [] {
      assert a + b == a;
    } else {
      assert (a + b)[..|a + b| - 1] == a + b[..|b| - 1];
      TokensConcat(a, b[..|b| - 1]);
    }
  }

  lemma {:induction false} TokensBackwards(path: seq<string>)
    ensures Tokens(Reversed(path)) == Reversed(Tokens(path))
  {
    if path != [] {
      var init, x := path[..|path| - 1], path[|path| - 1];
      TokensBackwards(init);
      assert Reversed(path) == [x] + Reversed(init);
      TokensConcat([x], Reversed(init));
      assert [x][..0] == [];
      var rest, t := Tokens(init), TokenOf(x);
      assert Reversed(rest + [t]) == [t] + Reversed(rest);
    }
  }

  lemma FollowsBackwards(tokens: seq<Token>, p: PubKey, q: PubKey)
    requires Follows(tokens, p, q)
    ensures Follows(Reversed(tokens), q, p)
  {
    var i :| FollowsAt(tokens, p, q, i);
    assert FollowsAt(Reversed(tokens), q, p, |tokens| - i);
  }

  /** The reversed path emits the converse ways, on the same links, with the direction
      flipped. */
  lemma ReversedPathEmitsConverse(path: seq<string>, p: PubKey, q: PubKey)
    ensures (p, q) in Ways(Walk(path)) <==> (q, p) in Ways(Walk(Reversed(path)))
    ensures p != q ==>
              var k := CanonicalKey(p, q).value;
              CanonicalKey(q, p) == Some(k) && ((k.a == p) <==> !(k.a == q))
  {
    WalkEmitsEveryWayOnce(path, p, q);
    WalkEmitsEveryWayOnce(Reversed(path), q, p);
    TokensBackwards(path);
    var t := Tokens(path);
    assert Reversed(Reversed(t)) == t;
    if Follows(t, p, q) { FollowsBackwards(t, p, q); }
    if Follows(Reversed(t), q, p) { FollowsBackwards(Reversed(t), q, p); }
    CanonicalKeyCorrect(p, q);
  }

  // ---------------------------------------------------------------- clean paths and SNRs

  /** Only valid keys, and no node directly after itself. */
  ghost predicate CleanPath(path: seq<string>, keys: seq<PubKey>) {
    && |path| == |keys|
    && (forall i {:trigger ReadsAs(path[i], keys[i])} :: 0 <= i < |path| ==> ReadsAs(path[i], keys[i]))
    && NoRepeats(keys)
  }

  predicate ReadsAs(raw: string, k: PubKey) {
    Clean(raw) != "" && TokenOf(raw) == Key(k)
  }

  ghost predicate NoRepeats(keys: seq<PubKey>) {
    forall i, j :: 0 <= i < j < |keys| && j == i + 1 ==> keys[i] != keys[j]
  }

  function KeyTokens(keys: seq<PubKey>): (r: seq<Token>)
    ensures |r| == |keys| && forall i :: 0 <= i < |r| ==> r[i] == Key(keys[i])
  {
    seq(|keys|, i requires 0 <= i < |keys| => Key(keys[i]))
  }

  lemma TokensSnoc(path: seq<string>, raw: string, k: PubKey)
    requires ReadsAs(raw, k)
    ensures Tokens(path + [raw]) == Tokens(path) + [Key(k)]
  {
    assert (path + [raw])[..|path|] == path;
  }

  lemma KeyTokensSnoc(keys: seq<PubKey>, k: PubKey)
    ensures KeyTokens(keys + [k]) == KeyTokens(keys) + [Key(k)]
  {
  }

  lemma CleanPathPrefix(path: seq<string>, keys: seq<PubKey>)
    requires CleanPath(path, keys) && path != []
    ensures var n := |path| - 1;
            CleanPath(path[..n], keys[..n]) && ReadsAs(path[n], keys[n])
  {
    var n := |path| - 1;
    forall i | 0 <= i < n ensures ReadsAs(path[..n][i], keys[..n][i]) {
      assert ReadsAs(path[i], keys[i]);
    }
    assert ReadsAs(path[n], keys[n]);
  }

  lemma {:induction false} CleanPathTokens(path: seq<string>, keys: seq<PubKey>)
    requires CleanPath(path, keys)
    ensures Tokens(path) == KeyTokens(keys)
  {
    if path != [] {
      var n := |path| - 1;
      CleanPathPrefix(path, keys);
      CleanPathTokens(path[..n], keys[..n]);
      KeyTokensSnoc(keys[..n], keys[n]);
      TokensSnoc(path[..n], path[n], keys[n]);
      assert path == path[..n] + [path[n]] && keys == keys[..n] + [keys[n]];
    }
  }

  /** The leg into position `k` + 1. */
  function LegInto(keys: seq<PubKey>, k: nat): Leg
    requires k + 1 < |keys|
  {
    Leg(keys[k], keys[k + 1], k + 1)
  }

  function LegsInto(keys: seq<PubKey>): seq<Leg> {
    seq(if keys == [] then 0 else |keys| - 1, k requires 0 <= k && k + 1 < |keys| => LegInto(keys, k))
  }

  lemma LegsIntoSnoc(keys: seq<PubKey>, k: PubKey)
    requires keys != []
    ensures LegsInto(keys + [k]) == LegsInto(keys) + [Leg(keys[|keys| - 1], k, |keys|)]
  {
  }

  /** The walk over clean keys goes from each to the next. */
  ghost predicate WalksThrough(keys: seq<PubKey>) {
    var t := KeyTokens(keys);
    Collapse(t) == t && Accepted(t) == |keys| && Legs(t) == LegsInto(keys)
  }

  lemma OneMoreKey(front: seq<PubKey>, last: PubKey)
    requires WalksThrough(front) && (front != [] ==> front[|front| - 1] != last)
    ensures WalksThrough(front + [last])
  {
    hide Collapse, Legs, LegsInto, Accepted;
    KeyTokensSnoc(front, last);
    LegsSnoc(KeyTokens(front), Key(last));
    CollapseSnoc(KeyTokens(front), Key(last));
    if front != [] {
      LegsIntoSnoc(front, last);
    } else {
      FirstKeyLegs(last);
    }
  }

  lemma FirstKeyLegs(k: PubKey)
    ensures LegsInto([]) == [] && LegsInto([] + [k]) == []
  {
  }

  lemma {:induction false} CleanPathLegs(keys: seq<PubKey>)
    requires NoRepeats(keys)
    ensures WalksThrough(keys)
  {
    if keys == [] {
      assert KeyTokens(keys) == [];
    } else {
      hide WalksThrough;
      var n := |keys| - 1;
      if n > 0 { assert keys[n - 1] != keys[n]; }
      CleanPathLegs(keys[..n]);
      OneMoreKey(keys[..n], keys[n]);
      assert keys == keys[..n] + [keys[n]];
    }
  }

  lemma CollapseSnoc(tokens: seq<Token>, t: Token)
    ensures var c := Collapse(tokens);
            Collapse(tokens + [t]) == if c != [] && c[|c| - 1] == t then c else c + [t]
  {
    assert (tokens + [t])[..|tokens|] == tokens;
  }

  /** No earlier leg goes the way of leg `k`. */
  lemma FirstPass(keys: seq<PubKey>, k: nat)
    requires k + 1 < |keys|
    requires forall j :: 0 <= j < k ==> (LegInto(keys, j).from, LegInto(keys, j).to) != (keys[k], keys[k + 1])
    ensures (keys[k], keys[k + 1]) !in Ways(LegsInto(keys)[..k])
  {
    forall l | l in LegsInto(keys)[..k] ensures (l.from, l.to) != (keys[k], keys[k + 1]) {
      var j :| 0 <= j < k && LegsInto(keys)[j] == l;
      assert l == LegInto(keys, j);
    }
  }

  /** On a clean path the link into position i takes SNRs[i], for the first pass in that
      direction; a shorter SNR list leaves the later links without one. */
  lemma CleanPathSnrs(o: PathObservation, keys: seq<PubKey>, k: nat) returns (e: Obs)
    requires CleanPath(o.path, keys) && Clean(o.hash) != "" && k + 1 < |keys|
    requires forall j :: 0 <= j < k ==> (keys[j], keys[j + 1]) != (keys[k], keys[k + 1])
    ensures e in PathEvents(o)
    ensures Some(e.key) == CanonicalKey(keys[k], keys[k + 1]) && (e.fromIsA <==> e.key.a == keys[k])
    ensures e.snr == if k + 1 < |o.snrs| then Some(o.snrs[k + 1]) else None
  {
    CleanPathTokens(o.path, keys);
    CleanPathLegs(keys);
    FirstPass(keys, k);
    var legs := LegsInto(keys);
    FirstLegEmitted(legs, k);
    e := EmittedFor(o, legs[k]);
  }

  lemma EmittedFor(o: PathObservation, l: Leg) returns (e: Obs)
    requires Clean(o.hash) != "" && 2 <= |o.path| && l in Walk(o.path)
    ensures l.from != l.to && e == ObsOf(o, l) && e in PathEvents(o)
  {
    WalkHasNoSelfLegs(Collapse(Tokens(o.path)));
    var j :| 0 <= j < |Walk(o.path)| && Walk(o.path)[j] == l;
    e := PathEvents(o)[j];
  }
}
