// The signature base string of socialnet/python-oauth2/oauth2/__init__.py. A Python 2
// byte string is a sequence of chars below 256.
module PercentEncoding {

  type Byte = c: char | c as int < 256

  type Bytes = seq<Byte>

  // urllib's always_safe
  predicate Unreserved(b: Byte) {
    'A' <= b <= 'Z' || 'a' <= b <= 'z' || '0' <= b <= '9' || b == '_' || b == '.' || b == '-'
  }

  function HexDigit(d: nat): (h: Byte)
    requires d < 16
    ensures h != '%' && h != '&' && h != '=' && h != '+' && h != '~'
    ensures HexValue(h) == d
  {
    if d < 10 then ('0' as int + d) as char else ('A' as int + d - 10) as char
  }

  function HexValue(h: Byte): nat {
    if '0' <= h <= '9' then h as int - '0' as int
    else if 'A' <= h <= 'F' then h as int - 'A' as int + 10
    else 0
  }

  function Triple(b: Byte): Bytes {
    ['%', HexDigit(b as int / 16), HexDigit(b as int % 16)]
  }

  // urllib.quote with safe='~'
  function EscapeByte(b: Byte): Bytes {
    if Unreserved(b) || b == '~' then [b] else Triple(b)
  }

  // urllib.quote_plus
  function QuotePlusByte(b: Byte): Bytes {
    if b == ' ' then ['+'] else if Unreserved(b) then [b] else Triple(b)
  }

  function Escape(s: Bytes): Bytes {
    if s == [] then [] else EscapeByte(s[0]) + Escape(s[1..])
  }

  function QuotePlus(s: Bytes): Bytes {
    if s == [] then [] else QuotePlusByte(s[0]) + QuotePlus(s[1..])
  }

  // s.replace('+', '%20')
  function ReplacePlus(s: Bytes): Bytes {
    if s == [] then [] else (if s[0] == '+' then ['%', '2', '0'] else [s[0]]) + ReplacePlus(s[1..])
  }

  predicate StartsWithTilde(s: Bytes) {
    |s| >= 3 && s[0] == '%' && s[1] == '7' && s[2] == 'E'
  }

  // s.replace('%7E', '~'): from the left, without overlaps
  function ReplaceTilde(s: Bytes): Bytes {
    if s == [] then []
    else if StartsWithTilde(s) then ['~'] + ReplaceTilde(s[3..])
    else [s[0]] + ReplaceTilde(s[1..])
  }

  // Every '%' opens a triple of its own.
  predicate Tokens(s: Bytes) {
    s == []
    || (s[0] != '%' && Tokens(s[1..]))
    || (|s| >= 3 && s[0] == '%' && s[1] != '%' && s[2] != '%' && Tokens(s[3..]))
  }

  lemma {:induction false} TokensAppend(a: Bytes, b: Bytes)
    requires Tokens(a) && Tokens(b)
    ensures Tokens(a + b)
  {
    if a == [] {
      assert a + b == b;
    } else if a[0] != '%' {
      TokensAppend(a[1..], b);
      assert (a + b)[1..] == a[1..] + b;
    } else {
      TokensAppend(a[3..], b);
      assert (a + b)[3..] == a[3..] + b;
    }
  }

  lemma {:induction false} ReplacePlusAppend(a: Bytes, b: Bytes)
    ensures ReplacePlus(a + b) == ReplacePlus(a) + ReplacePlus(b)
  {
    if a == [] {
      assert a + b == b;
    } else {
      ReplacePlusAppend(a[1..], b);
      assert (a + b)[0] == a[0] && (a + b)[1..] == a[1..] + b;
      var first: Bytes := if a[0] == '+' then ['%', '2', '0'] else [a[0]];
      assert first + (ReplacePlus(a[1..]) + ReplacePlus(b)) == first + ReplacePlus(a[1..]) + ReplacePlus(b);
    }
  }

  // No match starts in a and ends in b, or inside a triple.
  lemma {:induction false} ReplaceTildeAppend(a: Bytes, b: Bytes)
    requires Tokens(a)
    ensures ReplaceTilde(a + b) == ReplaceTilde(a) + ReplaceTilde(b)
  {
    if a == [] {
      assert a + b == b;
    } else {
      var n := if a[0] != '%' then 1 else 3;
      ReplaceTildeAppend(a[n..], b);
      FirstToken(a, n);
      FirstToken(a + b, n);
      assert (a + b)[..n] == a[..n] && (a + b)[n..] == a[n..] + b;
      Associative(Shortened(a[..n]), ReplaceTilde(a[n..]), ReplaceTilde(b));
    }
  }

  lemma Associative(a: Bytes, b: Bytes, c: Bytes)
    ensures a + (b + c) == a + b + c
  {
  }

  function Shortened(t: Bytes): Bytes {
    if t == ['%', '7', 'E'] then ['~'] else t
  }

  lemma FirstToken(s: Bytes, n: nat)
    requires 1 <= n <= |s|
    requires if s[0] != '%' then n == 1 else n == 3 && s[1] != '%' && s[2] != '%'
    ensures ReplaceTilde(s) == Shortened(s[..n]) + ReplaceTilde(s[n..])
  {
    if n == 3 && !StartsWithTilde(s) {
      SkipTriple(s);
    }
  }

  lemma SkipTriple(s: Bytes)
    requires |s| >= 3 && !StartsWithTilde(s) && s[1] != '%' && s[2] != '%'
    ensures ReplaceTilde(s) == s[..3] + ReplaceTilde(s[3..])
  {
    assert s[1..][1..] == s[2..] && s[2..][1..] == s[3..];
    assert ReplaceTilde(s[1..]) == [s[1]] + ReplaceTilde(s[2..]);
  }

  // What the two replacements do.
  function Replaced(s: Bytes): Bytes { ReplaceTilde(ReplacePlus(s)) }

  lemma ReplacedAppend(a: Bytes, b: Bytes)
    requires Tokens(ReplacePlus(a))
    ensures Replaced(a + b) == Replaced(a) + Replaced(b)
  {
    ReplacePlusAppend(a, b);
    ReplaceTildeAppend(ReplacePlus(a), ReplacePlus(b));
  }

  lemma KeptByte(b: Byte)
    requires b != '+' && b != '%'
    ensures ReplacePlus([b]) == [b] && Tokens([b]) && ReplaceTilde([b]) == [b]
  {
    assert [b][1..] == [];
  }

  lemma PlainTriple(s: Bytes)
    requires |s| == 3 && s[0] == '%' && s[1] != '+' && s[2] != '+' && s[1] != '%' && s[2] != '%'
    ensures ReplacePlus(s) == s && Tokens(s)
  {
    assert s == [s[0]] + ([s[1]] + [s[2]]);
    ReplacePlusAppend([s[0]], [s[1]] + [s[2]]);
    ReplacePlusAppend([s[1]], [s[2]]);
    forall i | 0 <= i < 3 ensures ReplacePlus([s[i]]) == [s[i]] {
      assert [s[i]][1..] == [];
    }
  }

  lemma ReplacedByte(b: Byte)
    ensures Tokens(ReplacePlus(QuotePlusByte(b))) && Replaced(QuotePlusByte(b)) == EscapeByte(b)
  {
    if b == ' ' {
      assert ReplacePlus(['+']) == ['%', '2', '0'] by { assert ['+'][1..] == []; }
      var s: Bytes := ['%', '2', '0'];
      assert s[3..] == [];
      SkipTriple(s);
      assert s[..3] == s;
      assert EscapeByte(' ') == s;
    } else if Unreserved(b) {
      KeptByte(b);
    } else {
      var s := Triple(b);
      PlainTriple(s);
      assert s[3..] == [];
      if b == '~' {
        assert StartsWithTilde(s);
        assert ReplaceTilde(s) == ['~'];
      } else {
        assert b as int == 16 * HexValue(s[1]) + HexValue(s[2]);
        SkipTriple(s);
      }
    }
  }

  // The route through quote_plus and the two replacements ends where escape does.
  lemma {:induction false} RoutesAgree(s: Bytes)
    ensures Tokens(ReplacePlus(QuotePlus(s))) && Replaced(QuotePlus(s)) == Escape(s)
  {
    if s != [] {
      RoutesAgree(s[1..]);
      ReplacedByte(s[0]);
      ReplacePlusAppend(QuotePlusByte(s[0]), QuotePlus(s[1..]));
      TokensAppend(ReplacePlus(QuotePlusByte(s[0])), ReplacePlus(QuotePlus(s[1..])));
      ReplacedAppend(QuotePlusByte(s[0]), QuotePlus(s[1..]));
    }
  }

  // The unreserved characters of section 2.3 of RFC 3986: letters, digits and four marks
  predicate Rfc3986Unreserved(b: Byte) {
    || 'a' <= b <= 'z' || 'A' <= b <= 'Z' || '0' <= b <= '9'
    || b == '-' || b == '.' || b == '_' || b == '~'
  }

  // Unreserved characters stay as they are, and nothing but them and '%' is left.
  lemma {:induction false} EscapedCharacters(s: Bytes)
    ensures forall i :: 0 <= i < |Escape(s)| ==> Rfc3986Unreserved(Escape(s)[i]) || Escape(s)[i] == '%'
    ensures (forall i :: 0 <= i < |s| ==> Rfc3986Unreserved(s[i])) <==> Escape(s) == s
  {
    if s != [] {
      EscapedCharacters(s[1..]);
      EscapeLength(s[1..]);
      assert s == [s[0]] + s[1..];
      HexIsUnreserved(s[0]);
    }
  }

  lemma HexIsUnreserved(b: Byte)
    ensures Rfc3986Unreserved(HexDigit(b as int / 16)) && Rfc3986Unreserved(HexDigit(b as int % 16))
  {
  }

  lemma {:induction false} EscapeLength(s: Bytes)
    ensures |Escape(s)| >= |s|
  {
    if s != [] {
      EscapeLength(s[1..]);
    }
  }

  // ---------------------------------------------------------------------
  // Decoding

  // urllib.unquote, on what escape produces
  function Unescape(s: Bytes): Bytes {
    if s == [] then []
    else if s[0] == '%' && |s| >= 3 && 16 * HexValue(s[1]) + HexValue(s[2]) < 256
    then [(16 * HexValue(s[1]) + HexValue(s[2])) as char] + Unescape(s[3..])
    else [s[0]] + Unescape(s[1..])
  }

  lemma HexPair(b: Byte)
    ensures 16 * HexValue(HexDigit(b as int / 16)) + HexValue(HexDigit(b as int % 16)) == b as int
  {
  }

  lemma UnescapeTriple(s: Bytes, b: Byte)
    requires |s| >= 3 && s[0] == '%' && 16 * HexValue(s[1]) + HexValue(s[2]) == b as int
    ensures Unescape(s) == [b] + Unescape(s[3..])
  {
    assert (b as int) as char == b;
  }

  lemma UnescapeFirst(b: Byte, rest: Bytes)
    ensures Unescape(EscapeByte(b) + rest) == [b] + Unescape(rest)
  {
    var s := EscapeByte(b) + rest;
    if Unreserved(b) || b == '~' {
      assert s[0] == b && s[1..] == rest;
    } else {
      HexPair(b);
      assert s[3..] == rest;
      UnescapeTriple(s, b);
    }
  }

  lemma {:induction false} UnescapeEscape(s: Bytes)
    ensures Unescape(Escape(s)) == s
  {
    if s != [] {
      UnescapeEscape(s[1..]);
      UnescapeFirst(s[0], Escape(s[1..]));
      assert s == [s[0]] + s[1..];
    }
  }

  // A delimiter never appears in an escaped string.
  predicate Free(s: Bytes, c: Byte) { forall i :: 0 <= i < |s| ==> s[i] != c }

  lemma {:induction false} EscapeIsFree(s: Bytes)
    ensures Free(Escape(s), '&') && Free(Escape(s), '=')
  {
    if s != [] {
      EscapeIsFree(s[1..]);
    }
  }

  // Where c is first found in s, or |s|
  function Find(s: Bytes, c: Byte): (i: nat)
    ensures i <= |s| && Free(s[..i], c) && (i < |s| ==> s[i] == c)
  {
    if s == [] || s[0] == c then 0 else
      var i := 1 + Find(s[1..], c);
      assert s[..i] == [s[0]] + s[1..][..i - 1];
      i
  }

  lemma FindAfter(a: Bytes, c: Byte, b: Bytes)
    requires Free(a, c)
    ensures Find(a + [c] + b, c) == |a| && (a + [c] + b)[..|a|] == a && (a + [c] + b)[|a| + 1..] == b
    ensures Find(a, c) == |a|
  {
    var s, i := a + [c] + b, Find(a + [c] + b, c);
    assert s[|a|] == c;
    assert i <= |a| by {
      assert forall j :: 0 <= j < i ==> s[..i][j] == s[j] != c;
    }
    assert forall j :: 0 <= j < |a| ==> s[j] == a[j] != c;
  }
}

module OAuth {

  import opened Options
  import opened PercentEncoding

  datatype Pair = Pair(key: Bytes, value: Bytes)

  // urllib.urlencode
  function UrlEncode(items: seq<Pair>): Bytes {
    if items == [] then []
    else
      var first := QuotePlus(items[0].key) + ['='] + QuotePlus(items[0].value);
      if |items| == 1 then first else first + ['&'] + UrlEncode(items[1..])
  }

  // Each key and each value encoded on its own, as section 3.6 of RFC 5849 asks
  function JoinEscaped(items: seq<Pair>): Bytes {
    if items == [] then []
    else
      var first := Escape(items[0].key) + ['='] + Escape(items[0].value);
      if |items| == 1 then first else first + ['&'] + JoinEscaped(items[1..])
  }

  lemma ReplacedDelimiter(a: Bytes, c: Byte, b: Bytes)
    requires c == '=' || c == '&'
    requires Tokens(ReplacePlus(a)) && Tokens(ReplacePlus(b))
    ensures Tokens(ReplacePlus(a + [c] + b)) && Replaced(a + [c] + b) == Replaced(a) + [c] + Replaced(b)
  {
    KeptByte(c);
    ReplacePlusAppend(a, [c]);
    ReplacePlusAppend(a + [c], b);
    TokensAppend(ReplacePlus(a), [c]);
    TokensAppend(ReplacePlus(a + [c]), ReplacePlus(b));
    ReplacedAppend(a, [c]);
    ReplacedAppend(a + [c], b);
  }

  // The two whole-string replacements after urlencode give the same string as encoding
  // every key and value separately.
  lemma {:induction false} EncodingsAgree(items: seq<Pair>)
    ensures Tokens(ReplacePlus(UrlEncode(items))) && Replaced(UrlEncode(items)) == JoinEscaped(items)
  {
    if items != [] {
      var first := QuotePlus(items[0].key) + ['='] + QuotePlus(items[0].value);
      PairsAgree(items[0]);
      if |items| > 1 {
        EncodingsAgree(items[1..]);
        ReplacedDelimiter(first, '&', UrlEncode(items[1..]));
      }
    }
  }

  lemma PairsAgree(p: Pair)
    ensures var q := QuotePlus(p.key) + ['='] + QuotePlus(p.value);
            Tokens(ReplacePlus(q)) && Replaced(q) == Escape(p.key) + ['='] + Escape(p.value)
  {
    RoutesAgree(p.key);
    RoutesAgree(p.value);
    ReplacedDelimiter(QuotePlus(p.key), '=', QuotePlus(p.value));
  }

  function ParsePair(s: Bytes): Pair {
    var i := Find(s, '=');
    Pair(Unescape(s[..i]), if i < |s| then Unescape(s[i + 1..]) else [])
  }

  function Parse(s: Bytes): seq<Pair>
    decreases |s|
  {
    if s == [] then []
    else
      var i := Find(s, '&');
      if i == |s| then [ParsePair(s)] else [ParsePair(s[..i])] + Parse(s[i + 1..])
  }

  lemma ParsePairOf(p: Pair)
    ensures ParsePair(Escape(p.key) + ['='] + Escape(p.value)) == p
  {
    EscapeIsFree(p.key);
    FindAfter(Escape(p.key), '=', Escape(p.value));
    UnescapeEscape(p.key);
    UnescapeEscape(p.value);
  }

  lemma {:induction false} ParseJoinEscaped(items: seq<Pair>)
    ensures Parse(JoinEscaped(items)) == items
  {
    if items != [] {
      var k, v := Escape(items[0].key), Escape(items[0].value);
      var first := k + ['='] + v;
      ParsePairOf(items[0]);
      EscapeIsFree(items[0].key);
      EscapeIsFree(items[0].value);
      assert Free(first, '&');
      if |items| == 1 {
        FindAfter(first, '&', []);
      } else {
        ParseJoinEscaped(items[1..]);
        assert JoinEscaped(items[1..]) != [];
        FindAfter(first, '&', JoinEscaped(items[1..]));
      }
    }
  }

  // ---------------------------------------------------------------------
  // Sorting: by key, then by value, both as byte strings

  predicate Below(a: Bytes, b: Bytes) {
    a == [] || (b != [] && (a[0] < b[0] || (a[0] == b[0] && Below(a[1..], b[1..]))))
  }

  predicate PairBelow(p: Pair, q: Pair) {
    if p.key != q.key then Below(p.key, q.key) else Below(p.value, q.value)
  }

  lemma {:induction false} BelowIsTotal(a: Bytes, b: Bytes)
    ensures Below(a, b) || Below(b, a)
    ensures Below(a, b) && Below(b, a) ==> a == b
  {
    if a != [] && b != [] {
      BelowIsTotal(a[1..], b[1..]);
      assert a == [a[0]] + a[1..] && b == [b[0]] + b[1..];
    }
  }

  lemma {:induction false} BelowIsTransitive(a: Bytes, b: Bytes, c: Bytes)
    requires Below(a, b) && Below(b, c)
    ensures Below(a, c)
  {
    if a != [] && a[0] == b[0] == c[0] {
      BelowIsTransitive(a[1..], b[1..], c[1..]);
    }
  }

  lemma PairBelowIsTotal(p: Pair, q: Pair)
    ensures PairBelow(p, q) || PairBelow(q, p)
    ensures PairBelow(p, q) && PairBelow(q, p) ==> p == q
  {
    BelowIsTotal(p.key, q.key);
    BelowIsTotal(p.value, q.value);
  }

  lemma PairBelowIsTransitive(p: Pair, q: Pair, r: Pair)
    requires PairBelow(p, q) && PairBelow(q, r)
    ensures PairBelow(p, r)
  {
    BelowIsTotal(p.key, q.key);
    if p.key == q.key && q.key == r.key {
      BelowIsTransitive(p.value, q.value, r.value);
    } else if p.key != q.key && q.key != r.key {
      BelowIsTransitive(p.key, q.key, r.key);
    }
  }

  // The order is that of the first byte that differs; a prefix comes first.
  lemma {:induction false} BelowMeans(a: Bytes, b: Bytes)
    ensures Below(a, b) <==> a <= b || exists k :: 0 <= k < |a| && k < |b| && a[..k] == b[..k] && a[k] < b[k]
  {
    if a != [] && b != [] && a[0] == b[0] {
      BelowMeans(a[1..], b[1..]);
      assert a == [a[0]] + a[1..] && b == [b[0]] + b[1..];
      if k :| 0 <= k < |a| - 1 && k < |b| - 1 && a[1..][..k] == b[1..][..k] && a[1..][k] < b[1..][k] {
        assert a[..k + 1] == [a[0]] + a[1..][..k] && b[..k + 1] == [b[0]] + b[1..][..k];
        assert a[k + 1] < b[k + 1];
      }
      if k :| 0 <= k < |a| && k < |b| && a[..k] == b[..k] && a[k] < b[k] {
        assert a[1..][..k - 1] == a[..k][1..] && b[1..][..k - 1] == b[..k][1..];
        assert a[1..][k - 1] < b[1..][k - 1];
      }
    } else if a != [] && b != [] {
      if a[0] < b[0] {
        assert a[..0] == b[..0];
      }
      forall k | 0 < k < |a| && k < |b| ensures a[..k] != b[..k] {
        assert a[..k][0] != b[..k][0];
      }
    }
  }

  predicate Sorted(s: seq<Pair>) {
    forall i, j :: 0 <= i < j < |s| ==> PairBelow(s[i], s[j])
  }

  function Insert(p: Pair, s: seq<Pair>): seq<Pair> {
    if s == [] || PairBelow(p, s[0]) then [p] + s else [s[0]] + Insert(p, s[1..])
  }

  // list.sort
  function Sort(s: seq<Pair>): seq<Pair> {
    if s == [] then [] else Insert(s[0], Sort(s[1..]))
  }

  lemma {:induction false} InsertKeepsSorted(p: Pair, s: seq<Pair>)
    requires Sorted(s)
    ensures Sorted(Insert(p, s)) && multiset(Insert(p, s)) == multiset(s) + multiset{p}
  {
    if s == [] {
    } else if PairBelow(p, s[0]) {
      forall j | 0 <= j < |s| ensures PairBelow(p, s[j]) {
        if j > 0 {
          PairBelowIsTransitive(p, s[0], s[j]);
        }
      }
    } else {
      var rest := Insert(p, s[1..]);
      InsertKeepsSorted(p, s[1..]);
      assert s == [s[0]] + s[1..];
      PairBelowIsTotal(p, s[0]);
      forall q | q in rest ensures PairBelow(s[0], q) {
        assert q in multiset(rest);
        assert q == p || q in s[1..];
      }
    }
  }

  lemma {:induction false} SortSorts(s: seq<Pair>)
    ensures Sorted(Sort(s)) && multiset(Sort(s)) == multiset(s)
  {
    if s != [] {
      var rest := s[1..];
      SortSorts(rest);
      InsertKeepsSorted(s[0], Sort(rest));
      assert multiset(s) == multiset{s[0]} + multiset(rest) by {
        assert s == [s[0]] + rest;
      }
    }
  }

  // Sorted by key and, under one key, by value.
  lemma SortedByKeyThenValue(s: seq<Pair>, i: nat, j: nat)
    requires i < j < |s|
    ensures var t := Sort(s);
            && |t| == |s| && Below(t[i].key, t[j].key)
            && (t[i].key == t[j].key ==> Below(t[i].value, t[j].value))
  {
    SortSorts(s);
    assert |Sort(s)| == |multiset(Sort(s))| == |multiset(s)| == |s|;
    assert PairBelow(Sort(s)[i], Sort(s)[j]);
    BelowIsTotal(Sort(s)[i].key, Sort(s)[j].key);
  }

  // There is one sorted list of a given collection of pairs.
  lemma {:induction false} SortedIsUnique(s: seq<Pair>, t: seq<Pair>)
    requires Sorted(s) && Sorted(t) && multiset(s) == multiset(t)
    ensures s == t
  {
    assert |s| == |multiset(s)| == |multiset(t)| == |t|;
    if s != [] {
      HeadIsLeast(s, t);
      HeadIsLeast(t, s);
      PairBelowIsTotal(s[0], t[0]);
      SameTails(s, t);
      SortedIsUnique(s[1..], t[1..]);
      assert s == [s[0]] + s[1..] && t == [t[0]] + t[1..];
    }
  }

  lemma SameTails(s: seq<Pair>, t: seq<Pair>)
    requires s != [] && t != [] && s[0] == t[0] && multiset(s) == multiset(t)
    ensures multiset(s[1..]) == multiset(t[1..])
  {
    assert s == [s[0]] + s[1..] && t == [t[0]] + t[1..];
    assert multiset(s[1..]) == multiset(s) - multiset{s[0]};
    assert multiset(t[1..]) == multiset(t) - multiset{t[0]};
  }

  lemma HeadIsLeast(s: seq<Pair>, t: seq<Pair>)
    requires Sorted(s) && s != [] && t != [] && multiset(s) == multiset(t)
    ensures PairBelow(s[0], t[0])
  {
    assert t[0] in multiset(t);
    var i :| 0 <= i < |s| && s[i] == t[0];
    if i == 0 {
      PairBelowIsTotal(s[0], s[0]);
    }
  }

  // ---------------------------------------------------------------------
  // Collecting the parameters

  datatype Result<T> = Ok(value: T) | Err

  // A request holds one string or several under a key.
  datatype Value = Single(text: Bytes) | Several(texts: seq<Bytes>)

  datatype Held = Held(key: Bytes, value: Value)

  const OAUTH_SIGNATURE: Bytes := "oauth_signature"

  // `held` in the order the dict yields its items; `query` from the query of the URL;
  // the method in upper case and the URL without query, as the setters leave them
  datatype Request = Request(httpMethod: Bytes, normalizedUrl: Option<Bytes>, held: seq<Held>, query: seq<Pair>)

  function WithKey(key: Bytes, texts: seq<Bytes>): seq<Pair> {
    if texts == [] then []
    else WithKey(key, texts[..|texts| - 1]) + [Pair(key, texts[|texts| - 1])]
  }

  function PairsOf(h: Held): seq<Pair> {
    if h.key == OAUTH_SIGNATURE then []
    else match h.value
      case Single(text) => [Pair(h.key, text)]
      case Several(texts) => WithKey(h.key, texts)
  }

  function FromHeld(held: seq<Held>): seq<Pair> {
    if held == [] then []
    else FromHeld(held[..|held| - 1]) + PairsOf(held[|held| - 1])
  }

  function FromQuery(query: seq<Pair>): seq<Pair> {
    if query == [] then []
    else
      var last := query[|query| - 1];
      FromQuery(query[..|query| - 1]) + (if last.key == OAUTH_SIGNATURE then [] else [last])
  }

  // The parameters that are signed
  function Signed(r: Request): seq<Pair> { FromHeld(r.held) + FromQuery(r.query) }

  function NormalizedParameters(r: Request): Bytes { JoinEscaped(Sort(Signed(r))) }

  method GetNormalizedParameters(r: Request) returns (s: Bytes)
    ensures s == NormalizedParameters(r)
  {
    var items := Collected(r);
    items := Sort(items);
    EncodingsAgree(items);
    s := ReplaceTilde(ReplacePlus(UrlEncode(items)));
  }

  method Collected(r: Request) returns (items: seq<Pair>)
    ensures items == Signed(r)
  {
    items := CollectedHeld(r.held);
    items := WithQuery(items, r.query);
  }

  method CollectedHeld(held: seq<Held>) returns (items: seq<Pair>)
    ensures items == FromHeld(held)
  {
    items := [];
    for i := 0 to |held|
      invariant items == FromHeld(held[..i])
    {
      OneMoreHeld(held, i);
      items := WithHeld(items, held[i]);
    }
    assert held[..|held|] == held;
  }

  method WithQuery(items: seq<Pair>, query: seq<Pair>) returns (r: seq<Pair>)
    ensures r == items + FromQuery(query)
  {
    r := items;
    for i := 0 to |query|
      invariant r == items + FromQuery(query[..i])
    {
      OneMoreOfQuery(query, i);
      if query[i].key != OAUTH_SIGNATURE {
        r := r + [query[i]];
      }
    }
    assert query[..|query|] == query;
  }

  lemma OneMoreHeld(held: seq<Held>, i: nat)
    requires i < |held|
    ensures FromHeld(held[..i + 1]) == FromHeld(held[..i]) + PairsOf(held[i])
  {
    assert held[..i + 1][..i] == held[..i];
  }

  lemma OneMoreOfQuery(query: seq<Pair>, i: nat)
    requires i < |query|
    ensures FromQuery(query[..i + 1])
            == FromQuery(query[..i]) + (if query[i].key == OAUTH_SIGNATURE then [] else [query[i]])
  {
    assert query[..i + 1][..i] == query[..i];
  }

  method WithHeld(items: seq<Pair>, h: Held) returns (r: seq<Pair>)
    ensures r == items + PairsOf(h)
  {
    if h.key == OAUTH_SIGNATURE {
      return items;
    }
    match h.value {
      case Single(text) => r := items + [Pair(h.key, text)];
      case Several(texts) => r := Extended(items, h.key, texts);
    }
  }

  method Extended(items: seq<Pair>, key: Bytes, texts: seq<Bytes>) returns (r: seq<Pair>)
    ensures r == items + WithKey(key, texts)
  {
    r := items;
    for i := 0 to |texts|
      invariant r == items + WithKey(key, texts[..i])
    {
      assert texts[..i + 1][..i] == texts[..i];
      r := r + [Pair(key, texts[i])];
    }
    assert texts[..|texts|] == texts;
  }

  // ---------------------------------------------------------------------
  // Canonicality

  lemma {:induction false} FromHeldAppend(a: seq<Held>, b: seq<Held>)
    ensures FromHeld(a + b) == FromHeld(a) + FromHeld(b)
    decreases |b|
  {
    if b == [] {
      assert a + b == a;
    } else {
      var init, last := b[..|b| - 1], b[|b| - 1];
      FromHeldAppend(a, init);
      FromHeldLast(a + init, last);
      FromHeldLast(init, last);
      Regroup(a, init, last, b);
      Joined(FromHeld(a), FromHeld(init), PairsOf(last));
    }
  }

  lemma Regroup(a: seq<Held>, init: seq<Held>, last: Held, b: seq<Held>)
    requires b != [] && init == b[..|b| - 1] && last == b[|b| - 1]
    ensures b == init + [last] && a + b == (a + init) + [last]
  {
  }

  lemma Joined(a: seq<Pair>, b: seq<Pair>, c: seq<Pair>)
    ensures a + b + c == a + (b + c)
  {
  }

  lemma FromHeldLast(a: seq<Held>, h: Held)
    ensures FromHeld(a + [h]) == FromHeld(a) + PairsOf(h)
  {
    assert (a + [h])[..|a + [h]| - 1] == a;
  }

  lemma FromHeldAround(a: seq<Held>, h: Held, b: seq<Held>)
    ensures FromHeld(a + [h] + b) == FromHeld(a) + PairsOf(h) + FromHeld(b)
  {
    FromHeldAppend(a + [h], b);
    FromHeldLast(a, h);
  }

  // The order in which the dict yields its entries does not matter.
  lemma {:induction false} HeldOrderDoesNotMatter(h: seq<Held>, h': seq<Held>)
    requires multiset(h) == multiset(h')
    ensures multiset(FromHeld(h)) == multiset(FromHeld(h'))
    decreases |h|
  {
    assert |h| == |multiset(h)| == |multiset(h')| == |h'|;
    if h != [] {
      var n := |h| - 1;
      var last, init := h[n], h[..n];
      assert h == init + [last];
      assert last in multiset(h');
      var j :| 0 <= j < |h'| && h'[j] == last;
      var a, b := h'[..j], h'[j + 1..];
      assert h' == a + [last] + b;
      WithoutOne(h, h', init, last, a, b);
      HeldOrderDoesNotMatter(init, a + b);
      FromHeldAround(a, last, b);
      FromHeldAppend(a, b);
    }
  }

  lemma WithoutOne(h: seq<Held>, h': seq<Held>, init: seq<Held>, last: Held, a: seq<Held>, b: seq<Held>)
    requires h == init + [last] && h' == a + [last] + b && multiset(h) == multiset(h')
    ensures multiset(init) == multiset(a + b)
  {
    assert multiset(init) == multiset(h) - multiset{last};
    assert multiset(a + b) == multiset(h') - multiset{last};
  }

  // Setting the signature, after signing, leaves what is signed as it was.
  lemma SignatureIsNotSigned(r: Request, j: nat, v: Value)
    requires j <= |r.held|
    ensures Signed(r.(held := r.held[..j] + [Held(OAUTH_SIGNATURE, v)] + r.held[j..])) == Signed(r)
  {
    EmptyAround(r.held[..j], Held(OAUTH_SIGNATURE, v), r.held[j..]);
    assert r.held[..j] + r.held[j..] == r.held;
  }

  lemma EmptyAround(a: seq<Held>, h: Held, b: seq<Held>)
    requires PairsOf(h) == []
    ensures FromHeld(a + [h] + b) == FromHeld(a + b)
  {
    FromHeldAround(a, h, b);
    FromHeldAppend(a, b);
    assert FromHeld(a) + [] == FromHeld(a);
  }

  // ---------------------------------------------------------------------
  // The base string

  function BaseString(httpMethod: Bytes, url: Bytes, parameters: Bytes): Bytes {
    Escape(httpMethod) + ['&'] + (Escape(url) + ['&'] + Escape(parameters))
  }

  datatype Decoded = Decoded(httpMethod: Bytes, url: Bytes, parameters: seq<Pair>)

  function DecodeBase(b: Bytes): Option<Decoded> {
    var i := Find(b, '&');
    if i == |b| then None
    else
      var rest := b[i + 1..];
      var j := Find(rest, '&');
      if j == |rest| then None
      else Some(Decoded(Unescape(b[..i]), Unescape(rest[..j]), Parse(Unescape(rest[j + 1..]))))
  }

  lemma DecodeBaseString(m: Bytes, url: Bytes, items: seq<Pair>)
    ensures DecodeBase(BaseString(m, url, JoinEscaped(items))) == Some(Decoded(m, url, items))
  {
    var p := JoinEscaped(items);
    var rest := Escape(url) + ['&'] + Escape(p);
    EscapeIsFree(m);
    EscapeIsFree(url);
    FindAfter(Escape(m), '&', rest);
    FindAfter(Escape(url), '&', Escape(p));
    UnescapeEscape(m);
    UnescapeEscape(url);
    UnescapeEscape(p);
    ParseJoinEscaped(items);
  }

  function RawBase(r: Request, url: Bytes): Bytes {
    BaseString(r.httpMethod, url, NormalizedParameters(r))
  }

  // The base string holds the method, the URL and the sorted pairs, in this order.
  lemma RequestDecoded(r: Request, url: Bytes)
    ensures DecodeBase(RawBase(r, url)) == Some(Decoded(r.httpMethod, url, Sort(Signed(r))))
  {
    DecodeBaseString(r.httpMethod, url, Sort(Signed(r)));
  }

  // Two requests have the same base string exactly when they agree on the method, the
  // URL and the collection of signed parameters.
  lemma BaseStringsEqualIff(r: Request, url: Bytes, r': Request, url': Bytes)
    ensures RawBase(r, url) == RawBase(r', url')
            <==> r.httpMethod == r'.httpMethod && url == url' && multiset(Signed(r)) == multiset(Signed(r'))
  {
    DecodeBaseString(r.httpMethod, url, Sort(Signed(r)));
    DecodeBaseString(r'.httpMethod, url', Sort(Signed(r')));
    SortSorts(Signed(r));
    SortSorts(Signed(r'));
    if multiset(Signed(r)) == multiset(Signed(r')) {
      SortedIsUnique(Sort(Signed(r)), Sort(Signed(r')));
    }
  }

  lemma {:induction false} WithKeyCounted(key: Bytes, values: seq<Bytes>, p: Pair)
    ensures multiset(WithKey(key, values))[p] == if p.key == key then multiset(values)[p.value] else 0
  {
    if values != [] {
      var n := |values| - 1;
      WithKeyCounted(key, values[..n], p);
      assert values == values[..n] + [values[n]];
    }
  }

  // How often the request holds a value under a key
  ghost function TimesHeld(held: seq<Held>, key: Bytes, value: Bytes): nat {
    if held == [] then 0
    else
      var last := held[|held| - 1];
      TimesHeld(held[..|held| - 1], key, value) +
      (if last.key != key then 0
       else match last.value
         case Single(text) => if text == value then 1 else 0
         case Several(texts) => multiset(texts)[value])
  }

  lemma {:induction false} HeldCounted(held: seq<Held>, p: Pair)
    ensures multiset(FromHeld(held))[p] == if p.key == "oauth_signature" then 0 else TimesHeld(held, p.key, p.value)
    decreases |held|
  {
    if held != [] {
      HeldCounted(held[..|held| - 1], p);
      EntryCounted(held[|held| - 1], p);
    }
  }

  lemma EntryCounted(h: Held, p: Pair)
    ensures multiset(PairsOf(h))[p] ==
            if p.key == "oauth_signature" || h.key != p.key then 0
            else match h.value
              case Single(text) => if text == p.value then 1 else 0
              case Several(texts) => multiset(texts)[p.value]
  {
    if h.value.Several? {
      WithKeyCounted(h.key, h.value.texts, p);
    }
  }

  // What is signed: the sorted list in which every pair but the signature is as often as
  // the request holds it and the query lists it.
  lemma NormalizedParametersMean(r: Request, p: Pair)
    ensures var s := Parse(NormalizedParameters(r));
            && Sorted(s)
            && multiset(s)[p] == if p.key == "oauth_signature" then 0
                                 else TimesHeld(r.held, p.key, p.value) + multiset(r.query)[p]
  {
    ParseJoinEscaped(Sort(Signed(r)));
    SortSorts(Signed(r));
    HeldCounted(r.held, p);
    QueryCounted(r.query, p);
  }

  lemma {:induction false} QueryCounted(query: seq<Pair>, p: Pair)
    ensures multiset(FromQuery(query))[p] == if p.key == OAUTH_SIGNATURE then 0 else multiset(query)[p]
    decreases |query|
  {
    if query != [] {
      var n := |query| - 1;
      assert query == query[..n] + [query[n]];
      QueryCounted(query[..n], p);
    }
  }

  // Nor does the order in which the parsed query yields its entries.
  lemma QueryOrderDoesNotMatter(q: seq<Pair>, q': seq<Pair>)
    requires multiset(q) == multiset(q')
    ensures multiset(FromQuery(q)) == multiset(FromQuery(q'))
  {
    forall p ensures multiset(FromQuery(q))[p] == multiset(FromQuery(q'))[p] {
      QueryCounted(q, p);
      QueryCounted(q', p);
    }
  }

  lemma BaseStringIgnoresOrder(r: Request, r': Request, url: Bytes)
    requires multiset(r.held) == multiset(r'.held) && multiset(r.query) == multiset(r'.query)
    requires r'.httpMethod == r.httpMethod
    ensures RawBase(r, url) == RawBase(r', url)
  {
    HeldOrderDoesNotMatter(r.held, r'.held);
    QueryOrderDoesNotMatter(r.query, r'.query);
    BaseStringsEqualIff(r, url, r', url);
  }

  // ---------------------------------------------------------------------
  // signing_base of SignatureMethod_HMAC_SHA1

  datatype Signing = Signing(key: Bytes, raw: Bytes)

  function SigningKey(consumerSecret: Bytes, tokenSecret: Option<Bytes>): Bytes {
    var key := Escape(consumerSecret) + ['&'];
    if tokenSecret.Some? then key + Escape(tokenSecret.value) else key
  }

  method SigningBase(r: Request, consumerSecret: Bytes, tokenSecret: Option<Bytes>) returns (s: Result<Signing>)
    ensures s == match r.normalizedUrl
                 case None => Err
                 case Some(url) => Ok(Signing(SigningKey(consumerSecret, tokenSecret), RawBase(r, url)))
  {
    if r.normalizedUrl.None? {
      return Err;
    }
    var parameters := GetNormalizedParameters(r);
    var key := Escape(consumerSecret) + ['&'];
    if tokenSecret.Some? {
      key := key + Escape(tokenSecret.value);
    }
    var url := r.normalizedUrl.value;
    s := Ok(Signing(key, BaseString(r.httpMethod, url, parameters)));
  }

  function SecretOrEmpty(s: Option<Bytes>): Bytes { if s.Some? then s.value else [] }

  function DecodeKey(k: Bytes): (Bytes, Bytes) {
    var i := Find(k, '&');
    (Unescape(k[..i]), if i < |k| then Unescape(k[i + 1..]) else [])
  }

  // The key fixes both secrets, except that no token and an empty token secret are not
  // told apart.
  lemma SigningKeysEqualIff(c: Bytes, t: Option<Bytes>, c': Bytes, t': Option<Bytes>)
    ensures SigningKey(c, t) == SigningKey(c', t') <==> c == c' && SecretOrEmpty(t) == SecretOrEmpty(t')
  {
    KeyWritten(c, t);
    KeyWritten(c', t');
    KeyDecoded(c, SecretOrEmpty(t));
    KeyDecoded(c', SecretOrEmpty(t'));
  }

  lemma KeyWritten(c: Bytes, t: Option<Bytes>)
    ensures SigningKey(c, t) == Escape(c) + ['&'] + Escape(SecretOrEmpty(t))
  {
  }

  lemma KeyDecoded(c: Bytes, t: Bytes)
    ensures DecodeKey(Escape(c) + ['&'] + Escape(t)) == (c, t)
  {
    EscapeIsFree(c);
    FindAfter(Escape(c), '&', Escape(t));
    UnescapeEscape(c);
    UnescapeEscape(t);
  }
}
