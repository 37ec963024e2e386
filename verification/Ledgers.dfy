/** Two deduplication tables over the same events, a coarse one and a fine one. Whatever the
    clock does, the coarse table never counts more often than the fine one. */
module Ledgers {
  /** The coarse entry dates from its latest fine entry, which is still there. */
  ghost predicate Anchored<D(!new), N(!new)>(coarse: map<D, int>, fine: map<N, int>, of: (N, D) -> bool) {
    forall d {:trigger HasAnchor(coarse, fine, of, d)} :: d in coarse ==> HasAnchor(coarse, fine, of, d)
  }

  ghost predicate HasAnchor<D, N(!new)>(coarse: map<D, int>, fine: map<N, int>, of: (N, D) -> bool, d: D)
    requires d in coarse
  {
    exists n {:trigger fine[n]} :: n in fine && of(n, d) && fine[n] == coarse[d]
  }

  /** No fine entry belongs to two coarse ones. */
  ghost predicate Single<D(!new), N(!new)>(coarse: map<D, int>, fine: map<N, int>, of: (N, D) -> bool) {
    forall n, d, e {:trigger of(n, d), of(n, e)} ::
      n in fine && d in coarse && e in coarse && of(n, d) && of(n, e) ==> d == e
  }

  function Kept<K>(m: map<K, int>, now: int, keep: int): map<K, int> {
    map k | k in m && !(now - m[k] > keep) :: m[k]
  }

  ghost predicate Chosen<D, N(!new)>(ns: set<N>, of: (N, D) -> bool, d: D) {
    exists n :: n in ns && of(n, d)
  }

  /** Coarse entries that each have a fine one are no more than those. */
  lemma {:induction false} FineAreAsMany<D(!new), N(!new)>(ds: set<D>, ns: set<N>, of: (N, D) -> bool)
    requires forall d {:trigger Chosen(ns, of, d)} :: d in ds ==> Chosen(ns, of, d)
    requires forall n, d, e {:trigger of(n, d), of(n, e)} ::
               n in ns && d in ds && e in ds && of(n, d) && of(n, e) ==> d == e
    ensures |ds| <= |ns|
    decreases |ds|
  {
    if d :| d in ds {
      assert Chosen(ns, of, d);
      var n :| n in ns && of(n, d);
      var ds', ns' := ds - {d}, ns - {n};
      forall e | e in ds' ensures Chosen(ns', of, e) {
        assert Chosen(ns, of, e);
        var m :| m in ns && of(m, e);
        assert m in ns';
      }
      FineAreAsMany(ds', ns', of);
    }
  }

  lemma AnchoredCount<D(!new), N(!new)>(coarse: map<D, int>, fine: map<N, int>, of: (N, D) -> bool)
    requires Anchored(coarse, fine, of) && Single(coarse, fine, of)
    ensures |coarse| <= |fine|
  {
    forall d | d in coarse.Keys ensures Chosen(fine.Keys, of, d) {
      assert HasAnchor(coarse, fine, of, d);
      var n :| n in fine && of(n, d) && fine[n] == coarse[d];
      assert n in fine.Keys;
    }
    FineAreAsMany(coarse.Keys, fine.Keys, of);
  }

  /** A sweep of both tables forgets no more coarse entries than fine ones. */
  lemma SweepAnchored<D(!new), N(!new)>(coarse: map<D, int>, fine: map<N, int>, of: (N, D) -> bool, now: int, keep: int)
    requires Anchored(coarse, fine, of) && Single(coarse, fine, of)
    ensures var coarse', fine' := Kept(coarse, now, keep), Kept(fine, now, keep);
            && Anchored(coarse', fine', of) && Single(coarse', fine', of)
            && |coarse| + |fine'| <= |fine| + |coarse'|
  {
    var coarse', fine' := Kept(coarse, now, keep), Kept(fine, now, keep);
    forall d | d in coarse' ensures HasAnchor(coarse', fine', of, d) {
      assert HasAnchor(coarse, fine, of, d);
      var n :| n in fine && of(n, d) && fine[n] == coarse[d];
      assert fine'[n] == coarse'[d];
    }
    var ds, ns := coarse.Keys - coarse'.Keys, fine.Keys - fine'.Keys;
    forall d | d in ds ensures Chosen(ns, of, d) {
      assert HasAnchor(coarse, fine, of, d);
      var n :| n in fine && of(n, d) && fine[n] == coarse[d];
      assert n in ns;
    }
    FineAreAsMany(ds, ns, of);
    SizeOfRest(coarse.Keys, coarse'.Keys);
    SizeOfRest(fine.Keys, fine'.Keys);
  }

  lemma SizeOfRest<T>(s: set<T>, t: set<T>)
    requires t <= s
    ensures |s - t| == |s| - |t|
  {
    assert s == (s - t) + t;
  }

  /** Noting an event in both tables, with the same time. */
  lemma NoteAnchored<D(!new), N(!new)>(coarse: map<D, int>, fine: map<N, int>, of: (N, D) -> bool, d: D, n: N, t: int)
    requires Anchored(coarse, fine, of) && of(n, d)
    requires forall e :: e in coarse && of(n, e) ==> e == d
    ensures Anchored(coarse[d := t], fine[n := t], of)
  {
    var coarse', fine' := coarse[d := t], fine[n := t];
    forall e | e in coarse' ensures HasAnchor(coarse', fine', of, e) {
      if e == d {
        assert fine'[n] == coarse'[d];
      } else {
        assert HasAnchor(coarse, fine, of, e);
        var m :| m in fine && of(m, e) && fine[m] == coarse[e];
        assert fine'[m] == coarse'[e];
      }
    }
  }

  /** Noting an event in the fine table only. */
  lemma NoteFine<D(!new), N(!new)>(coarse: map<D, int>, fine: map<N, int>, of: (N, D) -> bool, n: N, t: int)
    requires Anchored(coarse, fine, of)
    requires forall e :: e in coarse ==> !of(n, e)
    ensures Anchored(coarse, fine[n := t], of)
  {
    var fine' := fine[n := t];
    forall e | e in coarse ensures HasAnchor(coarse, fine', of, e) {
      assert HasAnchor(coarse, fine, of, e);
      var m :| m in fine && of(m, e) && fine[m] == coarse[e];
      assert fine'[m] == coarse[e];
    }
  }
}
