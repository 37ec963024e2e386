/** What a node's row says, read off its persisted row and the adverts heard since. */
module NodeFacts {
  import opened NodeModel
  import opened Adverts

  /** The last name an advert carried, or the one known before. */
  function LastName(adverts: seq<Advert>, before: string): string {
    if adverts == [] then before
    else if adverts[|adverts| - 1].name != "" then adverts[|adverts| - 1].name
    else LastName(adverts[..|adverts| - 1], before)
  }

  /** The last advert with a position. */
  ghost predicate LastFix(adverts: seq<Advert>, i: int) {
    0 <= i < |adverts| && adverts[i].hasGps && forall j :: i < j < |adverts| ==> !adverts[j].hasGps
  }

  ghost predicate IsPosition(n: Node, was: Node, adverts: seq<Advert>) {
    && (forall i :: LastFix(adverts, i) ==> n.hasGps && n.lat == adverts[i].lat && n.lon == adverts[i].lon)
    && ((forall i :: 0 <= i < |adverts| ==> !adverts[i].hasGps) ==>
          n.hasGps == was.hasGps && n.lat == was.lat && n.lon == was.lon)
  }

  /** The networks known before, then those the adverts came through, each once. */
  ghost predicate IsNetworks(networks: seq<string>, before: seq<string>, adverts: seq<Advert>) {
    && before <= networks
    && (forall id :: id in networks <==> id in before || exists a :: a in adverts && a.networkId == id != "")
    && (forall i, j :: |before| <= j < |networks| && 0 <= i < j ==> networks[i] != networks[j])
  }

  /** The node is what `was` became by these adverts, apart from its list and its flags. */
  ghost predicate Became(n: Node, was: Node, adverts: seq<Advert>) {
    && n.pubKey == was.pubKey && n.firstAdvertAt == was.firstAdvertAt
    && n.advertCount == was.advertCount + |adverts|
    && n.name == LastName(adverts, was.name)
    && IsPosition(n, was, adverts) && IsNetworks(n.networks, was.networks, adverts)
    && if adverts == [] then
         && n.nodeType == was.nodeType && n.lastAdvertAt == was.lastAdvertAt
         && n.observerId == was.observerId && n.observerName == was.observerName
       else
         var last := adverts[|adverts| - 1];
         && n.nodeType == last.nodeType && n.lastAdvertAt == last.at
         && n.observerId == last.observerId && n.observerName == last.observerName
  }

  lemma NothingHeard(n: Node)
    ensures Became(n, n, [])
  {
  }

  lemma FixSnoc(adverts: seq<Advert>, a: Advert, i: int)
    ensures LastFix(adverts + [a], i) <==> if a.hasGps then i == |adverts| else LastFix(adverts, i)
  {
    var all := adverts + [a];
    assert all[|adverts|] == a;
    assert forall j :: 0 <= j < |adverts| ==> adverts[j] == all[j];
  }

  lemma PositionSnoc(n: Node, was: Node, adverts: seq<Advert>, a: Advert, cap: nat)
    requires IsPosition(n, was, adverts)
    ensures IsPosition(Advertised(n, a, cap), was, adverts + [a])
  {
    hide LastFix, Trim;
    var all := adverts + [a];
    forall i ensures LastFix(all, i) <==> if a.hasGps then i == |adverts| else LastFix(adverts, i) {
      FixSnoc(adverts, a, i);
    }
    forall i | LastFix(all, i) && !a.hasGps ensures 0 <= i < |adverts| && all[i] == adverts[i] {
      FixInside(adverts, i);
    }
    assert all[|adverts|] == a;
    assert forall i :: 0 <= i < |adverts| ==> all[i] == adverts[i];
  }

  lemma FixInside(adverts: seq<Advert>, i: int)
    requires LastFix(adverts, i)
    ensures 0 <= i < |adverts|
  {
  }

  lemma NetworksSnoc(networks: seq<string>, before: seq<string>, adverts: seq<Advert>, a: Advert)
    requires IsNetworks(networks, before, adverts)
    ensures IsNetworks(if a.networkId != "" && a.networkId !in networks then networks + [a.networkId] else networks,
                       before, adverts + [a])
  {
    var all := adverts + [a];
    assert all[|adverts|] == a;
    assert forall x :: x in all <==> x in adverts || x == a;
  }

  lemma AdvertisedBecame(n: Node, was: Node, adverts: seq<Advert>, a: Advert, cap: nat)
    requires Became(n, was, adverts)
    ensures Became(Advertised(n, a, cap), was, adverts + [a])
  {
    hide IsPosition, IsNetworks, Trim;
    PositionSnoc(n, was, adverts, a, cap);
    NetworksSnoc(n.networks, was.networks, adverts, a);
    assert (adverts + [a])[..|adverts|] == adverts && (adverts + [a])[|adverts|] == a;
  }

  lemma SameFacts(n: Node, m: Node, was: Node, adverts: seq<Advert>)
    requires Became(n, was, adverts) && m == n.(latest := m.latest, flags := m.flags)
    ensures Became(m, was, adverts)
  {
    hide IsNetworks;
  }

  // ---------------------------------------------------------------- over whole runs

  /** What was known of a node at the start, or the blank entry its first advert opens. */
  function Known(rows: map<string, Node>, k: string, first: Advert): Node {
    if k in rows then rows[k] else Node(k, "", 0, false, 0.0, 0.0, first.at, 0, 0, [], "", "", [], [])
  }

  ghost predicate FactsOk(w: World, rows: map<string, Node>, k: string) {
    var live := Of(w.heard, k);
    if k in w.reg.nodes then
      && (k !in rows ==> live != [])
      && if live == [] then Became(w.reg.nodes[k], rows[k], [])
         else Became(w.reg.nodes[k], Known(rows, k, live[0]), live)
    else k !in rows && live == []
  }

  lemma HearFacts(w: World, rows: map<string, Node>, a: Advert, cap: nat, k: string)
    requires FactsOk(w, rows, k) && a.pubKey != ""
    ensures FactsOk(Next(w, Hear(a), cap), rows, k)
  {
    hide Became, Advertised;
    var live := Of(w.heard, k);
    OfSnoc(w.heard, a, k);
    if a.pubKey == k {
      var was := Known(rows, k, (live + [a])[0]);
      if k !in w.reg.nodes { NothingHeard(NewNode(a)); }
      AdvertisedBecame(NodeOf(w.reg, a), was, live, a, cap);
    } else {
      assert live + [] == live;
    }
  }

  /** No other event touches more than lists and flags. */
  lemma OthersLeaveFacts(w: World, e: Event, cap: nat, k: string)
    requires !e.Hear?
    ensures var w' := Step(w, e, cap);
            && w'.heard == w.heard && (k in w'.reg.nodes <==> k in w.reg.nodes)
            && (k in w.reg.nodes ==>
                  var m := w'.reg.nodes[k]; m == w.reg.nodes[k].(latest := m.latest, flags := m.flags))
  {
    hide Newest, Trim, Fills;
  }

  lemma StepFacts(w: World, rows: map<string, Node>, e: Event, cap: nat, k: string)
    requires FactsOk(w, rows, k)
    ensures FactsOk(Step(w, e, cap), rows, k)
  {
    if e.Hear? {
      if e.a.pubKey != "" { HearFacts(w, rows, e.a, cap, k); }
    } else {
      OthersLeaveFacts(w, e, cap, k);
      hide Became, Step;
      var live := Of(w.heard, k);
      if k in w.reg.nodes {
        SameFacts(w.reg.nodes[k], Step(w, e, cap).reg.nodes[k], if live == [] then rows[k] else Known(rows, k, live[0]),
                  live);
      }
    }
  }

  /** In every run a node's name, type, position, networks, times and observer are those its
      persisted row had, overtaken by the adverts heard since, in order. */
  lemma {:induction false} NodesAreTheirAdverts(history: seq<Advert>, rows: map<string, Node>, events: seq<Event>,
                                                cap: nat, k: string)
    ensures FactsOk(Run(Start(history, rows), events, cap), rows, k)
  {
    if events == [] {
      if k in rows { NothingHeard(rows[k]); }
    } else {
      NodesAreTheirAdverts(history, rows, events[..|events| - 1], cap, k);
      hide FactsOk, Step;
      StepFacts(Run(Start(history, rows), events[..|events| - 1], cap), rows, events[|events| - 1], cap, k);
    }
  }
}
