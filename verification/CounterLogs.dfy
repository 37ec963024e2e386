/** What a counter holds, read off the log of its observations and sweeps alone. */
module CounterLogs {
  import opened Keys
  import opened Ledgers
  import opened Counters

  /** The tables of a counter whose entries carry the time they were last noted. */
  datatype Table = Packets | Pairs | Observers | Nodes

  function TimeIn(c: Counts, t: Table, key: string): Option<int> {
    match t
    case Packets => if key in c.seenHash then Some(c.seenHash[key]) else None
    case Pairs => if key in c.seenObs then Some(c.seenObs[key]) else None
    case Observers => if key in c.observers then Some(c.observers[key].lastSeen) else None
    case Nodes => if key in c.nodes then Some(c.nodes[key]) else None
  }

  predicate NamesNode(ev: Event, key: string) {
    || (exists i :: 0 <= i < |ev.nodes| && ev.nodes[i] != "" && Lower(ev.nodes[i]) == key)
    || (ev.observerId != "" && Lower(ev.observerId) == key)
  }

  /** An observation notes a packet by its hash, the pair of observer and hash, the observer,
      and every node it names. */
  predicate Notes(op: Op, t: Table, key: string) {
    && op.Observe?
    && match t
       case Packets => op.ev.hash == key != ""
       case Pairs => op.ev.observerId + "|" + op.ev.hash == key
       case Observers => op.ev.observerId == key != ""
       case Nodes => NamesNode(op.ev, key)
  }

  /** A sweep that drops an entry noted at `at`. */
  predicate Drops(op: Op, t: Table, at: int) {
    op.Sweep? && op.now - at > if t == Packets || t == Pairs then op.window else op.ttl
  }

  /** Entry `p` of the log is the latest to note the key, and no later sweep drops it. */
  ghost predicate StandsAt(ops: seq<Op>, t: Table, key: string, p: nat) {
    && p < |ops| && Notes(ops[p], t, key)
    && forall j :: p < j < |ops| ==> !Notes(ops[j], t, key) && !Drops(ops[j], t, ops[p].ev.at)
  }

  ghost predicate Stands(ops: seq<Op>, t: Table, key: string) {
    exists p: nat :: StandsAt(ops, t, key, p)
  }

  lemma {:induction false} NoteNodesIs(nodes: map<string, int>, ids: seq<string>, at: int, key: string)
    ensures var r := NoteNodes(nodes, ids, at);
            if exists i :: 0 <= i < |ids| && ids[i] != "" && Lower(ids[i]) == key then key in r && r[key] == at
            else (key in r <==> key in nodes) && (key in r ==> r[key] == nodes[key])
  {
    hide Lower;
    if ids != [] {
      var n := |ids| - 1;
      var init := ids[..n];
      NoteNodesIs(nodes, init, at, key);
      if i :| 0 <= i < n && init[i] != "" && Lower(init[i]) == key {
        assert ids[i] != "" && Lower(ids[i]) == key;
      }
    }
  }

  lemma NamedAll(ev: Event, key: string)
    ensures var ids := ev.nodes + [ev.observerId];
            NamesNode(ev, key) <==> exists i :: 0 <= i < |ids| && ids[i] != "" && Lower(ids[i]) == key
  {
    hide Lower;
    var ids := ev.nodes + [ev.observerId];
    if i :| 0 <= i < |ev.nodes| && ev.nodes[i] != "" && Lower(ev.nodes[i]) == key {
      assert ids[i] == ev.nodes[i];
    }
    assert ids[|ev.nodes|] == ev.observerId;
  }

  lemma NodesNoted(c: Counts, ev: Event, key: string)
    ensures TimeIn(Observed(c, ev), Nodes, key) == if NamesNode(ev, key) then Some(ev.at) else TimeIn(c, Nodes, key)
  {
    hide NoteNodes, NamesNode, Lower, ObsKey;
    NamedAll(ev, key);
    NoteNodesIs(c.nodes, ev.nodes + [ev.observerId], ev.at, key);
  }

  lemma OneOpOn(c: Counts, op: Op, t: Table, key: string)
    ensures var was := TimeIn(c, t, key);
            TimeIn(Apply(c, op), t, key)
            == if Notes(op, t, key) then Some(op.ev.at)
               else if was.Some? && Drops(op, t, was.value) then None
               else was
  {
    hide NamesNode, NoteNodes;
    if op.Observe? && t == Nodes { NodesNoted(c, op.ev, key); }
  }

  lemma StandsAfterStep(ops: seq<Op>, t: Table, key: string, p: nat)
    requires ops != []
    ensures var init, last := ops[..|ops| - 1], ops[|ops| - 1];
            StandsAt(ops, t, key, p) <==>
              if Notes(last, t, key) then p == |ops| - 1
              else StandsAt(init, t, key, p) && !Drops(last, t, ops[p].ev.at)
  {
    hide NamesNode, Drops;
    var init, last := ops[..|ops| - 1], ops[|ops| - 1];
    if StandsAt(ops, t, key, p) && p < |init| {
      assert forall j :: p < j < |init| ==> init[j] == ops[j];
    }
    if !Notes(last, t, key) && StandsAt(init, t, key, p) && !Drops(last, t, ops[p].ev.at) {
      forall j | p < j < |ops| ensures !Notes(ops[j], t, key) && !Drops(ops[j], t, ops[p].ev.at) {
        if j < |init| { assert ops[j] == init[j]; }
      }
    }
  }

  ghost predicate StartsEmpty(c: Counts, t: Table) {
    match t
    case Packets => c.seenHash == map[]
    case Pairs => c.seenObs == map[]
    case Observers => c.observers == map[]
    case Nodes => c.nodes == map[]
  }

  /** Every table holds exactly the keys the log still stands for, each with the time of the
      latest observation that noted it, whatever the clock does. */
  lemma {:induction false} TablesAreLog(c: Counts, ops: seq<Op>, t: Table, key: string)
    requires StartsEmpty(c, t)
    ensures TimeIn(Run(c, ops), t, key).Some? <==> Stands(ops, t, key)
    ensures forall p: nat :: StandsAt(ops, t, key, p) ==> TimeIn(Run(c, ops), t, key) == Some(ops[p].ev.at)
  {
    if ops == [] {
      assert Run(c, ops) == c;
    } else {
      var init, last := ops[..|ops| - 1], ops[|ops| - 1];
      TablesAreLog(c, init, t, key);
      OneOpOn(Run(c, init), last, t, key);
      var was, now := TimeIn(Run(c, init), t, key), TimeIn(Run(c, ops), t, key);
      hide Apply, Drops, NamesNode, TimeIn;
      forall p: nat | StandsAt(ops, t, key, p) ensures now == Some(ops[p].ev.at) {
        StandsAfterStep(ops, t, key, p);
      }
      if now.Some? {
        if Notes(last, t, key) {
          StandsAfterStep(ops, t, key, |ops| - 1);
        } else {
          var p: nat :| StandsAt(init, t, key, p);
          StandsAfterStep(ops, t, key, p);
        }
      }
    }
  }

  // ---------------------------------------------------------------- the counts

  /** The observations that bring a packet hash the log before them does not stand for; those
      of one payload type, if one is given. */
  ghost function NewPackets(ops: seq<Op>, payloadType: Option<string>): nat {
    if ops == [] then 0
    else
      var init, last := ops[..|ops| - 1], ops[|ops| - 1];
      NewPackets(init, payloadType) +
      if && last.Observe? && last.ev.hash != "" && !Stands(init, Packets, last.ev.hash)
         && (payloadType.Some? ==> last.ev.payloadType == payloadType.value) then 1 else 0
  }

  /** The observations whose pair of observer and hash the log before them does not stand for;
      those by one observer, if one is given. */
  ghost function NewObservations(ops: seq<Op>, observer: Option<string>): nat {
    if ops == [] then 0
    else
      var init, last := ops[..|ops| - 1], ops[|ops| - 1];
      NewObservations(init, observer) +
      if && last.Observe? && !Stands(init, Pairs, last.ev.observerId + "|" + last.ev.hash)
         && (observer.Some? ==> last.ev.observerId == observer.value) then 1 else 0
  }

  function CountOf(types: map<string, nat>, t: string): nat {
    if t in types then types[t] else 0
  }

  /** One operation on the counts, by what is in the tables before it. */
  lemma OneOpCounts(c: Counts, op: Op, payloadType: string)
    ensures var r := Apply(c, op);
            if !op.Observe? then
              r.unique == c.unique && r.observations == c.observations && r.payloadTypes == c.payloadTypes
            else
              var isNew := op.ev.hash != "" && TimeIn(c, Packets, op.ev.hash).None?;
              && r.unique == c.unique + (if isNew then 1 else 0)
              && r.observations
                 == c.observations + (if TimeIn(c, Pairs, op.ev.observerId + "|" + op.ev.hash).None? then 1 else 0)
              && CountOf(r.payloadTypes, payloadType)
                 == CountOf(c.payloadTypes, payloadType)
                    + if isNew && op.ev.payloadType == payloadType != "" then 1 else 0
  {
    hide NoteNodes, ObserversAfter;
  }

  /** From a counter with nothing remembered, the totals and the count of every payload type
      grow by exactly what the log says is new: packets by their hash, observations by the
      pair of observer and hash. */
  lemma {:induction false} CountsAreLogCounts(c: Counts, ops: seq<Op>, payloadType: string)
    requires c.seenHash == map[] && c.seenObs == map[]
    ensures var r := Run(c, ops);
            && r.unique == c.unique + NewPackets(ops, None)
            && r.observations == c.observations + NewObservations(ops, None)
            && CountOf(r.payloadTypes, payloadType)
               == CountOf(c.payloadTypes, payloadType)
                  + if payloadType == "" then 0 else NewPackets(ops, Some(payloadType))
  {
    if ops != [] {
      var init, last := ops[..|ops| - 1], ops[|ops| - 1];
      CountsAreLogCounts(c, init, payloadType);
      OneOpCounts(Run(c, init), last, payloadType);
      if last.Observe? {
        TablesAreLog(c, init, Packets, last.ev.hash);
        TablesAreLog(c, init, Pairs, last.ev.observerId + "|" + last.ev.hash);
      }
      hide Apply, Stands, TimeIn, CountOf;
    }
  }

  // ---------------------------------------------------------------- one observer

  /** When the observer was first seen. */
  ghost predicate FirstBy(ops: seq<Op>, observer: string, p: nat) {
    && p < |ops| && ops[p].Observe? && ops[p].ev.observerId == observer
    && forall j :: 0 <= j < p ==> !(ops[j].Observe? && ops[j].ev.observerId == observer)
  }

  /** The last name it gave. */
  ghost function NameBy(ops: seq<Op>, observer: string): string {
    if ops == [] then ""
    else
      var last := ops[|ops| - 1];
      if last.Observe? && last.ev.observerId == observer && last.ev.observerName != "" then last.ev.observerName
      else NameBy(ops[..|ops| - 1], observer)
  }

  /** The entry of an observer: first seen with its first observation, under the last name it
      gave, with as many observations as the log says are new. */
  ghost predicate EntryIsLog(observers: map<string, Stat>, ops: seq<Op>, observer: string) {
    if observer in observers then
      && observers[observer].observations == NewObservations(ops, Some(observer))
      && observers[observer].name == NameBy(ops, observer)
      && exists p: nat :: FirstBy(ops, observer, p) && observers[observer].firstSeen == ops[p].ev.at
    else
      && NewObservations(ops, Some(observer)) == 0 && NameBy(ops, observer) == ""
      && forall i :: 0 <= i < |ops| ==> !(ops[i].Observe? && ops[i].ev.observerId == observer)
  }

  /** No sweep drops the observer while it is there. */
  ghost predicate NeverDropped(ops: seq<Op>, observer: string) {
    ops != [] ==>
      var init, last := ops[..|ops| - 1], ops[|ops| - 1];
      && NeverDropped(init, observer)
      && (last.Sweep? ==>
            forall p: nat :: StandsAt(init, Observers, observer, p) ==> !Drops(last, Observers, init[p].ev.at))
  }

  lemma ObserverNoted(c: Counts, ev: Event, observer: string)
    requires observer != ""
    ensures var was, now := c.observers, Apply(c, Observe(ev)).observers;
            var isNew := TimeIn(c, Pairs, ev.observerId + "|" + ev.hash).None?;
            if ev.observerId != observer then
              (observer in now <==> observer in was) && (observer in now ==> now[observer] == was[observer])
            else
              && observer in now && now[observer].lastSeen == ev.at
              && now[observer].firstSeen == (if observer in was then was[observer].firstSeen else ev.at)
              && now[observer].observations
                 == (if observer in was then was[observer].observations else 0) + (if isNew then 1 else 0)
              && now[observer].name == if ev.observerName != "" then ev.observerName
                                       else if observer in was then was[observer].name else ""
  {
    hide NoteNodes;
  }

  lemma FirstStays(ops: seq<Op>, op: Op, observer: string, p: nat)
    requires FirstBy(ops, observer, p)
    ensures FirstBy(ops + [op], observer, p) && (ops + [op])[p] == ops[p]
  {
  }

  lemma NewAfterStep(ops: seq<Op>, observer: string)
    requires ops != []
    ensures var init, last := ops[..|ops| - 1], ops[|ops| - 1];
            && NewObservations(ops, Some(observer)) == NewObservations(init, Some(observer)) +
               (if && last.Observe? && last.ev.observerId == observer
                   && !Stands(init, Pairs, last.ev.observerId + "|" + last.ev.hash) then 1 else 0)
            && NameBy(ops, observer)
               == if last.Observe? && last.ev.observerId == observer && last.ev.observerName != ""
                  then last.ev.observerName else NameBy(init, observer)
  {
  }

  lemma EntryAfterObserve(was: Counts, init: seq<Op>, ev: Event, ops: seq<Op>, observer: string)
    requires ops == init + [Observe(ev)] && observer != "" && EntryIsLog(was.observers, init, observer)
    requires TimeIn(was, Pairs, ev.observerId + "|" + ev.hash).Some?
             <==> Stands(init, Pairs, ev.observerId + "|" + ev.hash)
    ensures EntryIsLog(Apply(was, Observe(ev)).observers, ops, observer)
  {
    ObserverNoted(was, ev, observer);
    NewAfterStep(ops, observer);
    assert ops[..|ops| - 1] == init && ops[|ops| - 1] == Observe(ev);
    hide Apply, Stands, TimeIn, NewObservations, NameBy;
    if observer in was.observers {
      var p: nat :| FirstBy(init, observer, p) && was.observers[observer].firstSeen == init[p].ev.at;
      FirstStays(init, Observe(ev), observer, p);
    } else if ev.observerId == observer {
      assert FirstBy(ops, observer, |init|);
    }
  }

  lemma EntryAfterSweep(was: Counts, init: seq<Op>, op: Op, ops: seq<Op>, observer: string)
    requires ops == init + [op] && op.Sweep? && EntryIsLog(was.observers, init, observer)
    requires TimeIn(was, Observers, observer) == TimeIn(Apply(was, op), Observers, observer)
    ensures EntryIsLog(Apply(was, op).observers, ops, observer)
  {
    NewAfterStep(ops, observer);
    assert ops[..|ops| - 1] == init && ops[|ops| - 1] == op;
    assert Apply(was, op).observers.Keys <= was.observers.Keys;
    hide Stands, NewObservations, NameBy, Kept;
    if observer in was.observers {
      var p: nat :| FirstBy(init, observer, p) && was.observers[observer].firstSeen == init[p].ev.at;
      FirstStays(init, op, observer, p);
    }
  }

  /** As long as no sweep drops it, an observer's entry is what the log says. */
  lemma {:induction false} ObserverIsLog(ops: seq<Op>, observer: string)
    requires observer != "" && NeverDropped(ops, observer)
    ensures EntryIsLog(Run(EMPTY, ops).observers, ops, observer)
  {
    hide EntryIsLog, Apply, TimeIn, Drops;
    if ops == [] {
      NothingLogged(observer);
    } else {
      var init, last := ops[..|ops| - 1], ops[|ops| - 1];
      var was := Run(EMPTY, init);
      ObserverIsLog(init, observer);
      assert ops == init + [last];
      if last.Observe? {
        TablesAreLog(EMPTY, init, Pairs, last.ev.observerId + "|" + last.ev.hash);
        EntryAfterObserve(was, init, last.ev, ops, observer);
      } else {
        TablesAreLog(EMPTY, init, Observers, observer);
        OneOpOn(was, last, Observers, observer);
        if TimeIn(was, Observers, observer).Some? {
          var p: nat :| StandsAt(init, Observers, observer, p);
          assert !Drops(last, Observers, init[p].ev.at);
        }
        EntryAfterSweep(was, init, last, ops, observer);
      }
    }
  }

  lemma NothingLogged(observer: string)
    ensures EntryIsLog(Run(EMPTY, []).observers, [], observer)
  {
  }
}
