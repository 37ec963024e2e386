/** Maps that a loop works off, and lists back to front. */
module Collections {
  /** `ks` lists the elements of `s`, each once. */
  ghost predicate Enumerates<T(!new)>(ks: seq<T>, s: set<T>) {
    && (forall k :: k in ks <==> k in s)
    && (forall i, j :: 0 <= i < j < |ks| ==> ks[i] != ks[j])
  }

  ghost function Firsts<T>(ks: seq<T>, n: nat): set<T>
    requires n <= |ks|
  {
    set k | k in ks[..n]
  }

  lemma FirstsEnds<T(!new)>(ks: seq<T>, s: set<T>)
    requires Enumerates(ks, s)
    ensures Firsts(ks, 0) == {} && Firsts(ks, |ks|) == s
  {
    assert ks[..|ks|] == ks;
  }

  lemma FirstsNext<T(!new)>(ks: seq<T>, s: set<T>, n: nat)
    requires Enumerates(ks, s) && n < |ks|
    ensures ks[n] in s && ks[n] !in Firsts(ks, n) && Firsts(ks, n + 1) == Firsts(ks, n) + {ks[n]}
  {
    assert ks[n] in ks && ks[..n + 1] == ks[..n] + [ks[n]];
  }

  /** The keys of a map, in the order in which a loop over it meets them: any. */
  method Enumerate<K(!new), V>(m: map<K, V>) returns (ks: seq<K>)
    ensures Enumerates(ks, m.Keys)
  {
    ks := [];
    var todo := m.Keys;
    while todo != {}
      invariant todo <= m.Keys && Enumerates(ks, m.Keys - todo)
      decreases |todo|
    {
      var k :| k in todo;
      ks := ks + [k];
      todo := todo - {k};
    }
  }

  function Reversed<T>(s: seq<T>): (r: seq<T>)
    ensures |r| == |s|
  {
    seq(|s|, i requires 0 <= i < |s| => s[|s| - 1 - i])
  }

  lemma ReversedPrepend<T>(x: T, s: seq<T>)
    ensures Reversed([x] + s) == Reversed(s) + [x]
  {
  }

  lemma ReversedSnoc<T>(s: seq<T>, x: T)
    ensures Reversed(s + [x]) == [x] + Reversed(s)
  {
  }

  lemma ReversedTwice<T>(s: seq<T>)
    ensures Reversed(Reversed(s)) == s
  {
  }
}
