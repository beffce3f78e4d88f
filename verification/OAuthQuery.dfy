// The parameters in the query of the URL, as _split_url_string reads them.
module OAuthQuery {
  import opened PercentEncoding
  import opened OAuth

  predicate IsHex(b: Byte) { '0' <= b <= '9' || 'A' <= b <= 'F' || 'a' <= b <= 'f' }

  function HexOf(b: Byte): (d: nat)
    requires IsHex(b)
    ensures d < 16
  {
    if '0' <= b <= '9' then b as int - '0' as int
    else if 'A' <= b <= 'F' then b as int - 'A' as int + 10
    else b as int - 'a' as int + 10
  }

  predicate StartsWithEscape(s: Bytes) { |s| >= 3 && s[0] == '%' && IsHex(s[1]) && IsHex(s[2]) }

  // urllib.unquote: what is not an escape stays.
  function Unquote(s: Bytes): Bytes {
    if s == [] then []
    else if StartsWithEscape(s) then [(16 * HexOf(s[1]) + HexOf(s[2])) as char] + Unquote(s[3..])
    else [s[0]] + Unquote(s[1..])
  }

  ghost predicate HasEscape(s: Bytes) { exists i :: 0 <= i < |s| && StartsWithEscape(s[i..]) }

  // An escape is a percent sign before two of the sixteen digits, in either case.
  lemma EscapesMean(s: Bytes)
    ensures HasEscape(s) <==> exists i :: 0 <= i < |s| - 2 && s[i] == '%' && s[i + 1] in HEX && s[i + 2] in HEX
  {
    if i :| 0 <= i < |s| && StartsWithEscape(s[i..]) {
      assert s[i..][1] == s[i + 1] && s[i..][2] == s[i + 2];
      assert IsHex(s[i + 1]) && IsHex(s[i + 2]);
      assert s[i] == '%' && s[i + 1] in HEX && s[i + 2] in HEX;
    }
    if i :| 0 <= i < |s| - 2 && s[i] == '%' && s[i + 1] in HEX && s[i + 2] in HEX {
      assert s[i..][1] == s[i + 1] && s[i..][2] == s[i + 2];
      assert StartsWithEscape(s[i..]);
    }
  }

  const HEX: set<char> := {'0', '1', '2', '3', '4', '5', '6', '7', '8', '9',
                           'a', 'b', 'c', 'd', 'e', 'f', 'A', 'B', 'C', 'D', 'E', 'F'}

  // Small letters count as capitals.
  lemma SmallDigits()
    ensures HexOf('a') == HexOf('A') == 10 && HexOf('b') == HexOf('B') == 11 && HexOf('c') == HexOf('C') == 12
    ensures HexOf('d') == HexOf('D') == 13 && HexOf('e') == HexOf('E') == 14 && HexOf('f') == HexOf('F') == 15
  {
  }

  lemma UnquoteFirst(b: Byte, rest: Bytes)
    ensures Unquote(EscapeByte(b) + rest) == [b] + Unquote(rest)
  {
    var s := EscapeByte(b) + rest;
    if Unreserved(b) || b == '~' {
      assert s[0] == b && s[1..] == rest;
    } else {
      assert s[0] == '%' && s[3..] == rest && IsHex(s[1]) && IsHex(s[2]);
      assert 16 * HexOf(s[1]) + HexOf(s[2]) == b as int;
    }
  }

  // Decoding undoes the encoding of every byte string.
  lemma {:induction false} UnquoteEscape(s: Bytes)
    ensures Unquote(Escape(s)) == s
  {
    if s != [] {
      UnquoteEscape(s[1..]);
      UnquoteFirst(s[0], Escape(s[1..]));
      assert s == [s[0]] + s[1..];
    }
  }

  lemma {:induction false} UnquoteShortens(s: Bytes)
    ensures |Unquote(s)| <= |s|
  {
    if s != [] {
      UnquoteShortens(if StartsWithEscape(s) then s[3..] else s[1..]);
    }
  }

  // A string is left as it is exactly when there is no escape in it.
  lemma {:induction false} UnquoteKeepsIff(s: Bytes)
    ensures Unquote(s) == s <==> !HasEscape(s)
  {
    if s != [] {
      assert s[0..] == s && s == [s[0]] + s[1..];
      if StartsWithEscape(s) {
        UnquoteShortens(s[3..]);
      } else {
        UnquoteKeepsIff(s[1..]);
        EscapeLaterOn(s);
      }
    }
  }

  lemma EscapeLaterOn(s: Bytes)
    requires s != [] && !StartsWithEscape(s)
    ensures HasEscape(s) <==> HasEscape(s[1..])
  {
    if i :| 0 <= i < |s| && StartsWithEscape(s[i..]) {
      assert i > 0 by {
        assert s[0..] == s;
      }
      assert s[1..][i - 1..] == s[i..];
    }
    if i :| 0 <= i < |s| - 1 && StartsWithEscape(s[1..][i..]) {
      assert s[1..][i..] == s[i + 1..];
    }
  }

  // An item of the dict that parse_qs builds: a name and its values, decoded once
  datatype Entry = Entry(key: Bytes, values: seq<Bytes>)

  ghost predicate IsDict(d: seq<Entry>) {
    && (forall i :: 0 <= i < |d| ==> d[i].values != [])
    && (forall i, j :: 0 <= i < j < |d| ==> d[i].key != d[j].key)
  }

  // The first value of each name, decoded a second time
  function UrlItems(d: seq<Entry>): seq<Pair>
    requires forall i :: 0 <= i < |d| ==> d[i].values != []
  {
    if d == [] then []
    else UrlItems(d[..|d| - 1]) + [Pair(d[|d| - 1].key, Unquote(d[|d| - 1].values[0]))]
  }

  // Every pair of the query
  function QueryPairs(d: seq<Entry>): seq<Pair> {
    if d == [] then [] else QueryPairs(d[..|d| - 1]) + WithKey(d[|d| - 1].key, d[|d| - 1].values)
  }

  method SplitUrlString(d: seq<Entry>) returns (items: seq<Pair>)
    requires IsDict(d)
    ensures items == UrlItems(d)
  {
    items := [];
    for i := 0 to |d|
      invariant items == UrlItems(d[..i])
    {
      assert d[..i + 1][..i] == d[..i];
      items := items + [Pair(d[i].key, Unquote(d[i].values[0]))];
    }
    assert d[..|d|] == d;
  }

  // ---------------------------------------------------------------------
  // Which pairs are read

  // How often a pair is read, and how often it is in the query
  ghost function TimesRead(d: seq<Entry>, p: Pair): nat
    requires IsDict(d)
  {
    if d == [] then 0
    else
      var last := d[|d| - 1];
      TimesRead(d[..|d| - 1], p) + (if p == Pair(last.key, Unquote(last.values[0])) then 1 else 0)
  }

  ghost function TimesWritten(d: seq<Entry>, p: Pair): nat {
    if d == [] then 0
    else
      var last := d[|d| - 1];
      TimesWritten(d[..|d| - 1], p) + (if p.key == last.key then multiset(last.values)[p.value] else 0)
  }

  lemma {:induction false} ReadCounted(d: seq<Entry>, p: Pair)
    requires IsDict(d)
    ensures multiset(UrlItems(d))[p] == TimesRead(d, p)
    decreases |d|
  {
    if d != [] {
      ReadCounted(d[..|d| - 1], p);
    }
  }

  lemma {:induction false} WrittenCounted(d: seq<Entry>, p: Pair)
    ensures multiset(QueryPairs(d))[p] == TimesWritten(d, p)
    decreases |d|
  {
    if d != [] {
      WrittenCounted(d[..|d| - 1], p);
      WithKeyCounted(d[|d| - 1].key, d[|d| - 1].values, p);
    }
  }

  lemma {:induction false} NotCounted(d: seq<Entry>, p: Pair)
    requires IsDict(d) && forall i :: 0 <= i < |d| ==> d[i].key != p.key
    ensures TimesRead(d, p) == 0 && TimesWritten(d, p) == 0
    decreases |d|
  {
    if d != [] {
      NotCounted(d[..|d| - 1], p);
    }
  }

  lemma {:induction false} EntryCounted(d: seq<Entry>, i: nat, e: Entry, p: Pair)
    requires IsDict(d) && i < |d| && d[i] == e && e.key == p.key && e.values != []
    ensures TimesRead(d, p) == if p.value == Unquote(e.values[0]) then 1 else 0
    ensures TimesWritten(d, p) == multiset(e.values)[p.value]
    decreases |d|
  {
    var n := |d| - 1;
    if i < n {
      EntryCounted(d[..n], i, e, p);
    } else {
      NotCounted(d[..n], p);
    }
  }

  lemma SignedCounted(d: seq<Entry>, p: Pair)
    requires IsDict(d)
    ensures multiset(FromQuery(UrlItems(d)))[p] == if p.key == OAUTH_SIGNATURE then 0 else TimesRead(d, p)
    ensures multiset(FromQuery(QueryPairs(d)))[p] == if p.key == OAUTH_SIGNATURE then 0 else TimesWritten(d, p)
  {
    QueryCounted(UrlItems(d), p);
    QueryCounted(QueryPairs(d), p);
    ReadCounted(d, p);
    WrittenCounted(d, p);
  }

  // One value, with no escape left in it
  ghost predicate ReadAsWritten(e: Entry) { |e.values| == 1 && !HasEscape(e.values[0]) }

  lemma SingleValueIff(e: Entry)
    requires e.values != []
    ensures ReadAsWritten(e) <==>
              forall v :: multiset(e.values)[v] == if v == Unquote(e.values[0]) then 1 else 0
  {
    var w := Unquote(e.values[0]);
    UnquoteKeepsIff(e.values[0]);
    if ReadAsWritten(e) {
      assert e.values == [w];
    }
    if forall v :: multiset(e.values)[v] == if v == w then 1 else 0 {
      assert e.values[0] in multiset(e.values);
      assert multiset(e.values) == multiset{w};
      assert |e.values| == |multiset(e.values)| == 1;
    }
  }

  // What is signed of the query is all of it, the signature apart, exactly when every other
  // name has one value and no escape is left in that.
  lemma QueryCoveredIff(d: seq<Entry>)
    requires IsDict(d)
    ensures multiset(FromQuery(UrlItems(d))) == multiset(FromQuery(QueryPairs(d)))
            <==> forall e :: e in d && e.key != OAUTH_SIGNATURE ==> ReadAsWritten(e)
  {
    if forall e :: e in d && e.key != OAUTH_SIGNATURE ==> ReadAsWritten(e) {
      forall p ensures multiset(FromQuery(UrlItems(d)))[p] == multiset(FromQuery(QueryPairs(d)))[p] {
        AllReadCounted(d, p);
      }
    }
    if multiset(FromQuery(UrlItems(d))) == multiset(FromQuery(QueryPairs(d))) {
      forall e | e in d && e.key != OAUTH_SIGNATURE ensures ReadAsWritten(e) {
        CoveredIsRead(d, e);
      }
    }
  }

  lemma AllReadCounted(d: seq<Entry>, p: Pair)
    requires IsDict(d) && forall e :: e in d && e.key != OAUTH_SIGNATURE ==> ReadAsWritten(e)
    ensures multiset(FromQuery(UrlItems(d)))[p] == multiset(FromQuery(QueryPairs(d)))[p]
  {
    SignedCounted(d, p);
    if p.key != OAUTH_SIGNATURE {
      if i :| 0 <= i < |d| && d[i].key == p.key {
        EntryCounted(d, i, d[i], p);
        SingleValueIff(d[i]);
      } else {
        NotCounted(d, p);
      }
    }
  }

  lemma CoveredIsRead(d: seq<Entry>, e: Entry)
    requires IsDict(d) && e in d && e.key != OAUTH_SIGNATURE
    requires multiset(FromQuery(UrlItems(d))) == multiset(FromQuery(QueryPairs(d)))
    ensures ReadAsWritten(e)
  {
    var i :| 0 <= i < |d| && d[i] == e;
    forall v ensures multiset(e.values)[v] == if v == Unquote(e.values[0]) then 1 else 0 {
      var p := Pair(e.key, v);
      SignedCounted(d, p);
      EntryCounted(d, i, e, p);
    }
    SingleValueIff(e);
  }

  // The base string is the one that covers every pair of the query exactly then.
  lemma BaseStringCoversQueryIff(r: Request, d: seq<Entry>, url: Bytes)
    requires IsDict(d)
    ensures RawBase(r.(query := UrlItems(d)), url) == RawBase(r.(query := QueryPairs(d)), url)
            <==> forall e :: e in d && e.key != OAUTH_SIGNATURE ==> ReadAsWritten(e)
  {
    BaseStringsEqualIff(r.(query := UrlItems(d)), url, r.(query := QueryPairs(d)), url);
    SameRest(FromHeld(r.held), FromQuery(UrlItems(d)), FromQuery(QueryPairs(d)));
    QueryCoveredIff(d);
  }

  lemma SameRest(a: seq<Pair>, b: seq<Pair>, c: seq<Pair>)
    ensures multiset(a + b) == multiset(a + c) <==> multiset(b) == multiset(c)
  {
    assert multiset(b) == multiset(a + b) - multiset(a);
    assert multiset(c) == multiset(a + c) - multiset(a);
  }

  // a=1&a=2 is signed as a=1, and a=%2541 as a=A.
  lemma QueryMisread()
    ensures UrlItems([Entry("a", ["1", "2"])]) == [Pair("a", "1")]
    ensures UrlItems([Entry("a", ["%41"])]) == [Pair("a", "A")]
  {
    OneItem(Entry("a", ["1", "2"]));
    OneItem(Entry("a", ["%41"]));
    assert Unquote("1") == "1" by {
      assert "1"[1..] == [] && ['1'] + [] == "1";
    }
    assert Unquote("%41") == "A" by {
      assert StartsWithEscape("%41") && "%41"[3..] == [] && HexOf('4') == 4 && HexOf('1') == 1;
    }
  }

  lemma OneItem(e: Entry)
    requires e.values != []
    ensures UrlItems([e]) == [Pair(e.key, Unquote(e.values[0]))]
  {
    assert [e][..0] == [];
  }
}
