/** Public keys, their hex form, and the canonical key of an undirected link. */
module Keys {

  datatype Option<+T> = None | Some(value: T)

  type Byte = n: int | 0 <= n < 256

  type Bytes32 = s: seq<Byte> | |s| == 32 witness seq(32, _ => 0)

  /** A node's 32-byte public key. */
  datatype PubKey = PubKey(bytes: Bytes32)

  /** The two endpoints of an undirected link; CanonicalKey orders them. */
  datatype LinkKey = LinkKey(a: PubKey, b: PubKey)

  const LINK_SHARDS := 64

  // ---------------------------------------------------------------- byte order

  /** bytes.Compare(x, y) <= 0 */
  predicate LexLeq(x: seq<Byte>, y: seq<Byte>) {
    if x == [] then true
    else if y == [] then false
    else if x[0] != y[0] then x[0] < y[0]
    else LexLeq(x[1..], y[1..])
  }

  lemma {:induction false} LexAntisymmetric(x: seq<Byte>, y: seq<Byte>)
    requires LexLeq(x, y) && LexLeq(y, x)
    ensures x == y
  {
    if x != [] && y != [] {
      LexAntisymmetric(x[1..], y[1..]);
      assert x == [x[0]] + x[1..] && y == [y[0]] + y[1..];
    }
  }

  lemma {:induction false} LexTotal(x: seq<Byte>, y: seq<Byte>)
    ensures LexLeq(x, y) || LexLeq(y, x)
  {
    if x != [] && y != [] && x[0] == y[0] {
      LexTotal(x[1..], y[1..]);
    }
  }

  predicate IsCanonical(k: LinkKey) {
    k.a != k.b && LexLeq(k.a.bytes, k.b.bytes)
  }

  /** Orders two keys into the canonical link key; None for a self-link. */
  function CanonicalKey(x: PubKey, y: PubKey): Option<LinkKey> {
    if x == y then None
    else if LexLeq(x.bytes, y.bytes) then Some(LinkKey(x, y))
    else Some(LinkKey(y, x))
  }

  /** The canonical key exists exactly for distinct endpoints, holds exactly those
      endpoints, is the only canonical key that does, and ignores their order. */
  lemma CanonicalKeyCorrect(x: PubKey, y: PubKey)
    ensures CanonicalKey(x, y).Some? <==> x != y
    ensures CanonicalKey(x, y) == CanonicalKey(y, x)
    ensures x != y ==>
              forall k: LinkKey :: IsCanonical(k) && {k.a, k.b} == {x, y} <==> k == CanonicalKey(x, y).value
  {
    if x != y {
      LexTotal(x.bytes, y.bytes);
      if LexLeq(x.bytes, y.bytes) && LexLeq(y.bytes, x.bytes) {
        LexAntisymmetric(x.bytes, y.bytes);
      }
      forall k: LinkKey | IsCanonical(k) && {k.a, k.b} == {x, y}
        ensures k == CanonicalKey(x, y).value
      {
        assert k.a in {k.a, k.b} && k.b in {k.a, k.b};
        assert (k.a == x && k.b == y) || (k.a == y && k.b == x);
      }
    }
  }

  /** The first byte in which two keys differ is smaller in `x`. */
  predicate SmallerAt(x: PubKey, y: PubKey, i: int) {
    0 <= i < 32 && x.bytes[..i] == y.bytes[..i] && x.bytes[i] < y.bytes[i]
  }

  lemma {:induction false} LexFirstDifference(x: seq<Byte>, y: seq<Byte>)
    requires |x| == |y|
    ensures LexLeq(x, y) <==> x == y || exists i :: 0 <= i < |x| && x[..i] == y[..i] && x[i] < y[i]
  {
    if x != [] {
      var s, t := x[1..], y[1..];
      LexFirstDifference(s, t);
      assert x == [x[0]] + s && y == [y[0]] + t;
      if i :| 0 <= i < |s| && s[..i] == t[..i] && s[i] < t[i] {
        if x[0] == y[0] {
          assert x[..i + 1] == [x[0]] + s[..i] && y[..i + 1] == [y[0]] + t[..i];
          assert x[i + 1] < y[i + 1];
        }
      }
      if i :| 0 <= i < |x| && x[..i] == y[..i] && x[i] < y[i] {
        if i > 0 {
          assert x[0] == x[..i][0] && y[0] == y[..i][0];
          assert s[..i - 1] == x[..i][1..] && t[..i - 1] == y[..i][1..];
          assert s[i - 1] < t[i - 1];
        }
      }
      if x[0] < y[0] { assert x[..0] == y[..0]; }
    }
  }

  /** The canonical A end is the key that is smaller in the first byte in which they differ. */
  lemma SmallerKeyComesFirst(x: PubKey, y: PubKey)
    requires x != y
    ensures CanonicalKey(x, y).value.a == x <==> exists i :: SmallerAt(x, y, i)
  {
    LexFirstDifference(x.bytes, y.bytes);
    if LexLeq(x.bytes, y.bytes) {
      var i :| 0 <= i < |x.bytes| && x.bytes[..i] == y.bytes[..i] && x.bytes[i] < y.bytes[i];
      assert SmallerAt(x, y, i);
    }
  }

  /** The shard that holds a link. */
  function ShardOf(k: LinkKey): nat
    ensures ShardOf(k) < LINK_SHARDS
  {
    (k.a.bytes[0] * 256 + k.a.bytes[1]) % LINK_SHARDS
  }

  // ---------------------------------------------------------------- hex

  function HexDigit(n: nat): char
    requires n < 16
  {
    "0123456789abcdef"[n]
  }

  function DigitValue(c: char): Option<nat>
    ensures DigitValue(c).Some? ==> DigitValue(c).value < 16
  {
    if '0' <= c <= '9' then Some((c as int) - ('0' as int))
    else if 'a' <= c <= 'f' then Some((c as int) - ('a' as int) + 10)
    else if 'A' <= c <= 'F' then Some((c as int) - ('A' as int) + 10)
    else None
  }

  function HexEncode(bytes: seq<Byte>): (s: string)
    ensures |s| == 2 * |bytes|
  {
    if bytes == [] then ""
    else [HexDigit(bytes[0] / 16), HexDigit(bytes[0] % 16)] + HexEncode(bytes[1..])
  }

  function HexDecode(s: string): (r: Option<seq<Byte>>)
    ensures r.Some? ==> 2 * |r.value| == |s|
  {
    if s == "" then Some([])
    else if |s| == 1 then None
    else
      var hi, lo, rest := DigitValue(s[0]), DigitValue(s[1]), HexDecode(s[2..]);
      if hi.None? || lo.None? || rest.None? then None
      else Some([hi.value * 16 + lo.value] + rest.value)
  }

  /** Each byte is written as two lower-case digits, the high half first. */
  lemma {:induction false} HexDigitsOf(bytes: seq<Byte>, i: nat)
    requires i < |bytes|
    ensures HexEncode(bytes)[2 * i] == "0123456789abcdef"[bytes[i] / 16]
    ensures HexEncode(bytes)[2 * i + 1] == "0123456789abcdef"[bytes[i] % 16]
  {
    if i > 0 {
      HexDigitsOf(bytes[1..], i - 1);
      var rest := HexEncode(bytes[1..]);
      assert HexEncode(bytes)[2..] == rest;
      assert HexEncode(bytes)[2 * i] == rest[2 * (i - 1)] && HexEncode(bytes)[2 * i + 1] == rest[2 * (i - 1) + 1];
    }
  }

  /** The characters strings.TrimSpace removes. */
  predicate IsSpace(c: char) {
    c == ' ' || '\t' <= c <= '\r' || c == '\U{85}' || c == '\U{A0}' || c == '\U{1680}' || '\U{2000}' <= c <= '\U{200A}'
    || c == '\U{2028}' || c == '\U{2029}' || c == '\U{202F}' || c == '\U{205F}' || c == '\U{3000}'
  }

  function TrimLeft(s: string): string {
    if s != "" && IsSpace(s[0]) then TrimLeft(s[1..]) else s
  }

  function TrimRight(s: string): string {
    if s != "" && IsSpace(s[|s| - 1]) then TrimRight(s[..|s| - 1]) else s
  }

  function LowerChar(c: char): char {
    if 'A' <= c <= 'Z' then ((c as int) + 32) as char else c
  }

  function Lower(s: string): (r: string)
    ensures |r| == |s| && forall i :: 0 <= i < |s| ==> r[i] == LowerChar(s[i])
  {
    seq(|s|, i requires 0 <= i < |s| => LowerChar(s[i]))
  }

  /** strings.ToLower(strings.TrimSpace(s)) */
  function Clean(s: string): string {
    Lower(TrimRight(TrimLeft(s)))
  }

  predicate AllSpace(s: string) {
    forall i :: 0 <= i < |s| ==> IsSpace(s[i])
  }

  lemma {:induction false} TrimLeftIs(s: string) returns (i: nat)
    ensures i <= |s| && TrimLeft(s) == s[i..] && AllSpace(s[..i]) && (i < |s| ==> !IsSpace(s[i]))
  {
    i := 0;
    if s != "" && IsSpace(s[0]) {
      i := TrimLeftIs(s[1..]);
      assert s[1..][i..] == s[i + 1..] && s[..i + 1] == [s[0]] + s[1..][..i];
      i := i + 1;
    }
  }

  lemma {:induction false} TrimRightIs(s: string) returns (j: nat)
    ensures j <= |s| && TrimRight(s) == s[..j] && AllSpace(s[j..]) && (j > 0 ==> !IsSpace(s[j - 1]))
  {
    j := |s|;
    if s != "" && IsSpace(s[|s| - 1]) {
      var init := s[..|s| - 1];
      j := TrimRightIs(init);
      assert init[..j] == s[..j] && s[j..] == init[j..] + [s[|s| - 1]];
    }
  }

  /** Cleaning keeps the text between the first and the last character that is no space, in
      lower case. */
  lemma CleanIs(s: string) returns (i: nat, j: nat)
    ensures i <= j <= |s| && Clean(s) == Lower(s[i..j]) && AllSpace(s[..i]) && AllSpace(s[j..])
    ensures i < j ==> !IsSpace(s[i]) && !IsSpace(s[j - 1])
  {
    i := TrimLeftIs(s);
    var n := TrimRightIs(s[i..]);
    j := i + n;
    assert s[i..][..n] == s[i..j] && s[i..][n..] == s[j..];
  }

  function NormalizePub(s: string): Option<PubKey> {
    var t := Clean(s);
    if |t| != 64 then None
    else
      var d := HexDecode(t);
      if d.None? then None else Some(PubKey(d.value))
  }

  function KeyFromPair(a: string, b: string): Option<LinkKey> {
    var ka, kb := NormalizePub(a), NormalizePub(b);
    if ka.None? || kb.None? then None else CanonicalKey(ka.value, kb.value)
  }

  lemma DigitRoundTrip(n: nat)
    requires n < 16
    ensures DigitValue(HexDigit(n)) == Some(n)
  {
    assert n == 0 || n == 1 || n == 2 || n == 3 || n == 4 || n == 5 || n == 6 || n == 7
        || n == 8 || n == 9 || n == 10 || n == 11 || n == 12 || n == 13 || n == 14 || n == 15;
  }

  lemma DigitOfValue(c: char)
    requires LowerChar(c) == c && DigitValue(c).Some?
    ensures HexDigit(DigitValue(c).value) == c
  {
    if c <= '9' {
      assert c == '0' || c == '1' || c == '2' || c == '3' || c == '4'
          || c == '5' || c == '6' || c == '7' || c == '8' || c == '9';
    } else {
      assert c == 'a' || c == 'b' || c == 'c' || c == 'd' || c == 'e' || c == 'f';
    }
  }

  /** Decoding the two digits of a byte, and the rest. */
  lemma DecodeByte(b: Byte, rest: string, bytes: seq<Byte>)
    requires HexDecode(rest) == Some(bytes)
    ensures HexDecode([HexDigit(b / 16), HexDigit(b % 16)] + rest) == Some([b] + bytes)
  {
    var hi, lo := b / 16, b % 16;
    DigitRoundTrip(hi);
    DigitRoundTrip(lo);
    hide HexDigit, DigitValue;
    var s := [HexDigit(hi), HexDigit(lo)] + rest;
    assert s[2..] == rest && s[0] == HexDigit(hi) && s[1] == HexDigit(lo);
  }

  lemma {:induction false} DecodeEncode(bytes: seq<Byte>)
    ensures HexDecode(HexEncode(bytes)) == Some(bytes)
  {
    if bytes != [] {
      hide HexDecode, HexDigit;
      DecodeEncode(bytes[1..]);
      DecodeByte(bytes[0], HexEncode(bytes[1..]), bytes[1..]);
      assert bytes == [bytes[0]] + bytes[1..];
    }
  }

  /** Every character is its own lower-case form. */
  predicate IsLower(s: string) {
    forall i :: 0 <= i < |s| ==> LowerChar(s[i]) == s[i]
  }

  lemma {:induction false} EncodeDecode(s: string)
    requires IsLower(s) && HexDecode(s).Some?
    ensures HexEncode(HexDecode(s).value) == s
  {
    if s != "" {
      var t := s[2..];
      EncodeDecode(t);
      DigitOfValue(s[0]);
      DigitOfValue(s[1]);
      var hi, lo := DigitValue(s[0]).value, DigitValue(s[1]).value;
      var d := HexDecode(s).value;
      assert d[0] == hi * 16 + lo && d[1..] == HexDecode(t).value;
      assert d[0] / 16 == hi && d[0] % 16 == lo;
      assert s == [s[0], s[1]] + t;
    }
  }

  predicate LowerHex(s: string) {
    forall i :: 0 <= i < |s| ==> '0' <= s[i] <= '9' || 'a' <= s[i] <= 'f'
  }

  lemma {:induction false} HexEncodeIsLowerHex(bytes: seq<Byte>)
    ensures LowerHex(HexEncode(bytes))
  {
    if bytes != [] {
      HexEncodeIsLowerHex(bytes[1..]);
    }
  }

  lemma CleanOfLowerHex(s: string)
    requires LowerHex(s)
    ensures Clean(s) == s
  {
    assert TrimLeft(s) == s;
    assert TrimRight(s) == s;
    assert Lower(s) == s;
  }

  lemma {:induction false} TrimLeftIdempotent(s: string)
    ensures TrimLeft(s) == "" || !IsSpace(TrimLeft(s)[0])
  {
    if s != "" && IsSpace(s[0]) { TrimLeftIdempotent(s[1..]); }
  }

  lemma {:induction false} TrimRightShape(s: string)
    ensures TrimRight(s) <= s
    ensures TrimRight(s) == "" || !IsSpace(TrimRight(s)[|TrimRight(s)| - 1])
  {
    if s != "" && IsSpace(s[|s| - 1]) { TrimRightShape(s[..|s| - 1]); }
  }

  /** Cleaning twice is cleaning once. */
  lemma CleanIdempotent(s: string)
    ensures Clean(Clean(s)) == Clean(s)
  {
    var l := TrimLeft(s);
    var t := TrimRight(l);
    TrimLeftIdempotent(s);
    TrimRightShape(l);
    var c := Lower(t);
    if c != "" {
      assert t[0] == l[0];
      assert !IsSpace(c[0]) && !IsSpace(c[|c| - 1]);
      assert TrimLeft(c) == c && TrimRight(c) == c;
    }
    assert Lower(c) == c;
  }

  function HexOf(k: PubKey): string {
    HexEncode(k.bytes)
  }

  lemma HexOfInjective(x: PubKey, y: PubKey)
    requires HexOf(x) == HexOf(y)
    ensures x == y
  {
    DecodeEncode(x.bytes);
    DecodeEncode(y.bytes);
  }

  /** A public key survives the trip through its hex form, and a string that decodes
      to a key is, once cleaned, exactly that key's hex form. */
  lemma NormalizePubRoundTrip(k: PubKey, s: string)
    ensures NormalizePub(HexOf(k)) == Some(k)
    ensures NormalizePub(s) == Some(k) <==> Clean(s) == HexOf(k)
  {
    DecodeEncode(k.bytes);
    HexEncodeIsLowerHex(k.bytes);
    CleanOfLowerHex(HexOf(k));
    if NormalizePub(s) == Some(k) {
      assert IsLower(Clean(s));
      EncodeDecode(Clean(s));
    }
  }
}
