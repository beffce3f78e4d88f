// The order of the signed parameters. The code sorts them and then encodes them; section
// 3.4.1.3.2 of RFC 5849 encodes them first and sorts what that gives.
module OAuthOrder {
  import opened PercentEncoding
  import opened OAuth

  // Section 3.4.1.3.2, step 1: every name and value is encoded.
  function EncodePair(p: Pair): Pair { Pair(Escape(p.key), Escape(p.value)) }

  function EncodeAll(s: seq<Pair>): (r: seq<Pair>)
    ensures |r| == |s| && forall i :: 0 <= i < |s| ==> r[i] == EncodePair(s[i])
  {
    seq(|s|, i requires 0 <= i < |s| => EncodePair(s[i]))
  }

  // Steps 3 and 4: names and values are joined by '=', pairs by '&'.
  function Join(s: seq<Pair>): Bytes {
    if s == [] then []
    else
      var first := s[0].key + ['='] + s[0].value;
      if |s| == 1 then first else first + ['&'] + Join(s[1..])
  }

  // With the sorting between, as step 2
  function RfcParameters(s: seq<Pair>): Bytes { Join(Sort(EncodeAll(s))) }

  // ---------------------------------------------------------------------
  // When encoding turns an order round

  predicate Kept(b: Byte) { Unreserved(b) || b == '~' }

  // At the first byte that differs, the one in a stays as it is and the one in b does not.
  predicate Flips(a: Bytes, b: Bytes) {
    a != [] && b != [] && if a[0] == b[0] then Flips(a[1..], b[1..]) else Kept(a[0]) && !Kept(b[0])
  }

  predicate PairFlips(p: Pair, q: Pair) {
    if p.key != q.key then Flips(p.key, q.key) else Flips(p.value, q.value)
  }

  // Encoded bytes start with '%', which is below all those that are kept.
  lemma EscapedBytesBelow(a: Byte, b: Byte, s: Bytes, t: Bytes)
    requires a < b
    ensures Below(EscapeByte(a) + s, EscapeByte(b) + t) <==> !(Kept(a) && !Kept(b))
  {
    if !Kept(a) && !Kept(b) {
      TriplesBelow(a, b, s, t);
    }
  }

  lemma TriplesBelow(a: Byte, b: Byte, s: Bytes, t: Bytes)
    requires a < b
    ensures Below(Triple(a) + s, Triple(b) + t)
  {
    var x, y := Triple(a) + s, Triple(b) + t;
    assert x[1..][0] == HexDigit(a as int / 16) && y[1..][0] == HexDigit(b as int / 16);
    assert x[2..][0] == HexDigit(a as int % 16) && y[2..][0] == HexDigit(b as int % 16);
    assert x[1..][1..] == x[2..] && y[1..][1..] == y[2..];
    assert Below(x[1..], y[1..]);
  }

  lemma {:induction false} BelowSamePrefix(p: Bytes, a: Bytes, b: Bytes)
    ensures Below(p + a, p + b) <==> Below(a, b)
  {
    if p == [] {
      assert p + a == a && p + b == b;
    } else {
      assert (p + a)[1..] == p[1..] + a && (p + b)[1..] == p[1..] + b;
      BelowSamePrefix(p[1..], a, b);
    }
  }

  // Encoding keeps the order of two byte strings exactly when it does not flip.
  lemma {:induction false} EscapeKeepsOrderIff(a: Bytes, b: Bytes)
    requires Below(a, b)
    ensures Below(Escape(a), Escape(b)) <==> !Flips(a, b)
  {
    if a != [] {
      if a[0] == b[0] {
        EscapeKeepsOrderIff(a[1..], b[1..]);
        BelowSamePrefix(EscapeByte(a[0]), Escape(a[1..]), Escape(b[1..]));
      } else {
        EscapedBytesBelow(a[0], b[0], Escape(a[1..]), Escape(b[1..]));
      }
    }
  }

  lemma EscapeIsInjective(a: Bytes, b: Bytes)
    ensures Escape(a) == Escape(b) <==> a == b
  {
    UnescapeEscape(a);
    UnescapeEscape(b);
  }

  lemma PairsKeepOrderIff(p: Pair, q: Pair)
    requires PairBelow(p, q)
    ensures PairBelow(EncodePair(p), EncodePair(q)) <==> !PairFlips(p, q)
  {
    EscapeIsInjective(p.key, q.key);
    if p.key != q.key {
      EscapeKeepsOrderIff(p.key, q.key);
    } else {
      EscapeKeepsOrderIff(p.value, q.value);
    }
  }

  // ---------------------------------------------------------------------
  // The two routes

  lemma {:induction false} JoinEncoded(s: seq<Pair>)
    ensures Join(EncodeAll(s)) == JoinEscaped(s)
  {
    if |s| > 1 {
      assert EncodeAll(s)[1..] == EncodeAll(s[1..]);
      JoinEncoded(s[1..]);
    }
  }

  lemma {:induction false} EncodedCounted(s: seq<Pair>, q: Pair)
    ensures multiset(EncodeAll(s))[EncodePair(q)] == multiset(s)[q]
    decreases |s|
  {
    if s != [] {
      var n := |s| - 1;
      EncodedCounted(s[..n], q);
      OneMoreEncoded(s, n);
      PairsEncodeApart(s[n], q);
    }
  }

  lemma OneMoreEncoded(s: seq<Pair>, n: nat)
    requires |s| == n + 1
    ensures multiset(s) == multiset(s[..n]) + multiset{s[n]}
    ensures multiset(EncodeAll(s)) == multiset(EncodeAll(s[..n])) + multiset{EncodePair(s[n])}
  {
    assert s == s[..n] + [s[n]];
    assert EncodeAll(s) == EncodeAll(s[..n]) + [EncodePair(s[n])];
  }

  lemma PairsEncodeApart(p: Pair, q: Pair)
    ensures EncodePair(p) == EncodePair(q) <==> p == q
  {
    EscapeIsInjective(p.key, q.key);
    EscapeIsInjective(p.value, q.value);
  }

  ghost predicate IsEncoded(p: Pair) { exists q :: p == EncodePair(q) }

  lemma EncodedMember(s: seq<Pair>, p: Pair)
    requires p in multiset(EncodeAll(s))
    ensures IsEncoded(p)
  {
    var i :| 0 <= i < |s| && EncodeAll(s)[i] == p;
    assert p == EncodePair(s[i]);
  }

  lemma EncodedCollection(s: seq<Pair>, t: seq<Pair>)
    requires multiset(s) == multiset(t)
    ensures multiset(EncodeAll(s)) == multiset(EncodeAll(t))
  {
    forall p ensures multiset(EncodeAll(s))[p] == multiset(EncodeAll(t))[p] {
      if IsEncoded(p) {
        var q :| p == EncodePair(q);
        EncodedCounted(s, q);
        EncodedCounted(t, q);
      } else if p in multiset(EncodeAll(s)) {
        EncodedMember(s, p);
      } else if p in multiset(EncodeAll(t)) {
        EncodedMember(t, p);
      }
    }
  }

  function DecodePair(p: Pair): Pair { Pair(Unescape(p.key), Unescape(p.value)) }

  lemma EncodedAgain(p: Pair)
    requires IsEncoded(p)
    ensures EncodePair(DecodePair(p)) == p
  {
    var q :| p == EncodePair(q);
    UnescapeEscape(q.key);
    UnescapeEscape(q.value);
  }

  // A list of encoded pairs is the encoding of a list.
  lemma Decodable(s: seq<Pair>) returns (u: seq<Pair>)
    requires forall p :: p in s ==> IsEncoded(p)
    ensures EncodeAll(u) == s
  {
    u := seq(|s|, i requires 0 <= i < |s| => DecodePair(s[i]));
    forall i | 0 <= i < |s| ensures EncodePair(u[i]) == s[i] {
      assert s[i] in s;
      EncodedAgain(s[i]);
    }
  }

  lemma SortedEncodingIsEncoded(s: seq<Pair>) returns (u: seq<Pair>)
    ensures EncodeAll(u) == Sort(EncodeAll(s))
  {
    var e := EncodeAll(s);
    SortSorts(e);
    forall p | p in Sort(e) ensures IsEncoded(p) {
      assert p in multiset(Sort(e));
      EncodedMember(s, p);
    }
    u := Decodable(Sort(e));
  }

  // The two routes give one string exactly when the sorted pairs are still sorted once
  // they are encoded.
  lemma RoutesMeetIff(s: seq<Pair>)
    ensures JoinEscaped(Sort(s)) == RfcParameters(s) <==> Sorted(EncodeAll(Sort(s)))
  {
    var t := Sort(s);
    SortSorts(s);
    SortSorts(EncodeAll(s));
    EncodedCollection(s, t);
    var u := SortedEncodingIsEncoded(s);
    JoinEncoded(t);
    JoinEncoded(u);
    ParseJoinEscaped(t);
    ParseJoinEscaped(u);
    if Sorted(EncodeAll(t)) {
      SortedIsUnique(EncodeAll(t), Sort(EncodeAll(s)));
    }
  }

  ghost predicate NothingFlips(s: seq<Pair>) {
    forall p, q :: p in s && q in s && PairBelow(p, q) ==> !PairFlips(p, q)
  }

  lemma SortedEncodedIff(s: seq<Pair>)
    ensures Sorted(EncodeAll(Sort(s))) <==> NothingFlips(s)
  {
    var t := Sort(s);
    SortSorts(s);
    if NothingFlips(s) {
      forall i, j | 0 <= i < j < |t| ensures PairBelow(EncodeAll(t)[i], EncodeAll(t)[j]) {
        assert t[i] in multiset(t) && t[j] in multiset(t);
        assert t[i] in multiset(s) && t[j] in multiset(s);
        PairsKeepOrderIff(t[i], t[j]);
      }
    }
    if Sorted(EncodeAll(t)) {
      forall p, q | p in s && q in s && PairBelow(p, q) ensures !PairFlips(p, q) {
        assert p in multiset(s) && q in multiset(s);
        assert p in multiset(t) && q in multiset(t);
        var i :| 0 <= i < |t| && t[i] == p;
        var j :| 0 <= j < |t| && t[j] == q;
        InPlace(t, i, j);
      }
    }
  }

  lemma InPlace(t: seq<Pair>, i: nat, j: nat)
    requires Sorted(t) && Sorted(EncodeAll(t)) && i < |t| && j < |t| && PairBelow(t[i], t[j])
    ensures !PairFlips(t[i], t[j])
  {
    if i < j {
      assert PairBelow(EncodeAll(t)[i], EncodeAll(t)[j]);
      PairsKeepOrderIff(t[i], t[j]);
    } else {
      if j < i {
        assert PairBelow(t[j], t[i]);
      }
      PairBelowIsTotal(t[i], t[j]);
      NeverFlipsItself(t[i].value);
    }
  }

  lemma {:induction false} NeverFlipsItself(a: Bytes)
    ensures !Flips(a, a)
  {
    if a != [] {
      NeverFlipsItself(a[1..]);
    }
  }

  // Sorting before encoding gives the string of RFC 5849 exactly when encoding flips no
  // two of the signed pairs: a flip is a smaller byte that is kept against a larger one
  // that is encoded, where the names differ first, or the values under one name.
  lemma OrdersAgreeIff(s: seq<Pair>)
    ensures JoinEscaped(Sort(s)) == RfcParameters(s) <==> NothingFlips(s)
  {
    RoutesMeetIff(s);
    SortedEncodedIff(s);
  }

  // Two names of the example in section 3.4.1.3.2: the code has c2 first, the standard c@.
  lemma OrdersDiffer()
    ensures var s := [Pair("c2", ""), Pair("c@", "")];
            JoinEscaped(Sort(s)) == "c2=&c%40=" && RfcParameters(s) == "c%40=&c2="
  {
    CodeOrder();
    RfcOrder();
  }

  lemma CodeOrder()
    ensures JoinEscaped(Sort([Pair("c2", ""), Pair("c@", "")])) == "c2=&c%40="
  {
  }

  lemma RfcOrder()
    ensures RfcParameters([Pair("c2", ""), Pair("c@", "")]) == "c%40=&c2="
  {
    EscapedNames();
    assert EncodeAll([Pair("c2", ""), Pair("c@", "")]) == [Pair("c2", ""), Pair("c%40", "")];
  }

  lemma EscapedNames()
    ensures Escape("c2") == "c2" && Escape("c@") == "c%40"
  {
    assert "c2"[1..] == "2" && "c@"[1..] == "@" && "2"[1..] == "@"[1..] == "";
  }
}
