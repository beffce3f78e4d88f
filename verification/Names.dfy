// Names of truths, resource@domain:port: the printer of psp/lib/tactic_solver/tactic.rb
// and the parser of psp/lib/tactic_solver/tactic_helpers.rb, for ASCII text.
module Names {
  import opened Options

  // [[:graph:]]
  predicate IsGraph(c: char) { '!' <= c <= '~' }

  // [\d]
  predicate IsDigit(c: char) { '0' <= c <= '9' }

  // [[:alnum:]\.\-\_]
  predicate IsDomainChar(c: char) {
    IsDigit(c) || 'A' <= c <= 'Z' || 'a' <= c <= 'z' || c == '.' || c == '-' || c == '_'
  }

  predicate All(s: string, p: char -> bool) { forall i :: 0 <= i < |s| ==> p(s[i]) }

  // How far a greedy p* gets
  function Span(s: string, p: char -> bool): (n: nat)
    ensures n <= |s| && All(s[..n], p) && (n < |s| ==> !p(s[n]))
  {
    if s == "" || !p(s[0]) then 0 else
      var n := 1 + Span(s[1..], p);
      assert s[..n] == [s[0]] + s[1..][..n - 1];
      n
  }

  lemma SpanOf(a: string, b: string, p: char -> bool)
    requires All(a, p) && (b == "" || !p(b[0]))
    ensures Span(a + b, p) == |a| && (a + b)[..|a|] == a && (a + b)[|a|..] == b
  {
    var s, n := a + b, Span(a + b, p);
    assert forall j :: 0 <= j < |a| ==> s[j] == a[j];
    assert forall j :: 0 <= j < n ==> s[..n][j] == s[j];
    assert b != "" ==> s[|a|] == b[0];
  }

  // Where the last '@' of s is
  function LastAt(s: string): (i: Option<nat>)
    ensures i.Some? ==> i.value < |s| && s[i.value] == '@' && forall j :: i.value < j < |s| ==> s[j] != '@'
    ensures i.None? ==> forall j :: 0 <= j < |s| ==> s[j] != '@'
  {
    if s == "" then None
    else if s[|s| - 1] == '@' then Some(|s| - 1)
    else LastAt(s[..|s| - 1])
  }

  datatype Split = Split(resource: string, rest: string)

  // ([[:graph:]]*)@ searched from the left: the first run of visible characters that
  // holds an '@', cut at its last one
  function SplitName(s: string): (r: Option<Split>)
    ensures r.Some? ==> All(r.value.resource, IsGraph)
    decreases |s|
  {
    if s == "" then None
    else
      var n := Span(s, IsGraph);
      var at := LastAt(s[..n]);
      if at.Some? then Some(Split(s[..n][..at.value], s[at.value + 1..]))
      else if n < |s| then SplitName(s[n + 1..])
      else None
  }

  // Printing and reading of natural numbers

  function Decimal(n: nat): (s: string)
    ensures s != "" && All(s, IsDigit)
  {
    var digit := ('0' as int + n % 10) as char;
    if n < 10 then [digit] else Decimal(n / 10) + [digit]
  }

  // String#to_i, on digits
  function ToI(s: string): nat
    requires All(s, IsDigit)
  {
    if s == "" then 0
    else
      assert forall i :: 0 <= i < |s| - 1 ==> s[..|s| - 1][i] == s[i];
      10 * ToI(s[..|s| - 1]) + (s[|s| - 1] as int - '0' as int)
  }

  lemma {:induction false} DecimalReadBack(n: nat)
    ensures ToI(Decimal(n)) == n
  {
    if n >= 10 {
      DecimalReadBack(n / 10);
      var s := Decimal(n);
      assert s[..|s| - 1] == Decimal(n / 10);
    }
  }

  // ---------------------------------------------------------------------
  // magic_variables_from

  datatype Magic = Magic(resource: string, destination: string, domain: string, port: Option<nat>)

  // Empty when nothing matches, where the code raises ResourceTypeException
  function MagicVariables(what: string): Option<Magic> {
    match SplitName(what)
    case None => None
    case Some(Split(resource, rest)) =>
      var d := Span(rest, IsDomainChar);
      var tail := rest[d..];
      if tail != "" && tail[0] == ':' then
        var digits := Span(tail[1..], IsDigit);
        Some(Magic(resource, rest[..d] + [':'] + tail[1..][..digits], rest[..d], Some(ToI(tail[1..][..digits]))))
      else Some(Magic(resource, rest[..d], rest[..d], None))
  }

  // ---------------------------------------------------------------------
  // need_from

  datatype Request = Request(what: string, destination: Option<string>, domain: Option<string>, port: Option<nat>)

  // ownDomain and ownDestination are those of the tactic that asks.
  function NeedFrom(r: Request, ownDomain: string, ownDestination: string): string {
    if r.destination.Some? then r.what + "@" + r.destination.value
    else if r.domain.Some? && r.port.Some? then r.what + "@" + r.domain.value + ":" + Decimal(r.port.value)
    else if r.domain.Some? then r.what + "@" + r.domain.value
    else if r.port.Some? then r.what + "@" + ownDomain + ":" + Decimal(r.port.value)
    else r.what + "@" + ownDestination
  }

  // What the destination of a request amounts to
  function Destination(domain: string, port: Option<nat>): string {
    if port.Some? then domain + ":" + Decimal(port.value) else domain
  }

  lemma SplitPrinted(what: string, destination: string)
    requires All(what, IsGraph) && All(destination, IsGraph)
    requires forall i :: 0 <= i < |destination| ==> destination[i] != '@'
    ensures SplitName(what + "@" + destination) == Some(Split(what, destination))
  {
    var s, i := what + "@" + destination, |what|;
    assert s[i] == '@' && s[..i] == what && s[i + 1..] == destination;
    forall j | 0 <= j < |s| ensures IsGraph(s[j]) {
      assert s[j] == if j < i then what[j] else if j == i then '@' else destination[j - i - 1];
    }
    assert forall j :: i < j < |s| ==> s[j] == s[i + 1..][j - i - 1];
    SplitAllVisible(s, i);
  }

  lemma SplitAllVisible(s: string, i: nat)
    requires i < |s| && s[i] == '@' && All(s, IsGraph) && forall j :: i < j < |s| ==> s[j] != '@'
    ensures SplitName(s) == Some(Split(s[..i], s[i + 1..]))
  {
    SpanOf(s, "", IsGraph);
    assert s + "" == s && s[..|s|] == s;
    assert LastAt(s) == Some(i);
  }

  lemma DestinationIsVisible(domain: string, port: Option<nat>)
    requires All(domain, IsDomainChar)
    ensures var d := Destination(domain, port);
            All(d, IsGraph) && forall i :: 0 <= i < |d| ==> d[i] != '@'
  {
    var d := Destination(domain, port);
    forall i | 0 <= i < |d| ensures IsGraph(d[i]) && d[i] != '@' {
      assert i < |domain| ==> d[i] == domain[i];
      if port.Some? && i > |domain| {
        assert d[i] == Decimal(port.value)[i - |domain| - 1];
      }
    }
  }

  lemma ParsePrinted(what: string, domain: string, port: Option<nat>)
    requires All(what, IsGraph) && All(domain, IsDomainChar)
    ensures MagicVariables(what + "@" + Destination(domain, port))
            == Some(Magic(what, Destination(domain, port), domain, port))
  {
    DestinationIsVisible(domain, port);
    SplitPrinted(what, Destination(domain, port));
    if port.None? {
      SpanOf(domain, "", IsDomainChar);
      assert domain + "" == domain;
    } else {
      SpansOfDestination(domain, port.value);
      DecimalReadBack(port.value);
    }
  }

  lemma SpansOfDestination(domain: string, port: nat)
    requires All(domain, IsDomainChar)
    ensures var rest, digits := Destination(domain, Some(port)), Decimal(port);
            var d := Span(rest, IsDomainChar);
            && rest[..d] == domain && rest[d..] == [':'] + digits
            && Span(digits, IsDigit) == |digits| && rest == domain + [':'] + digits
            && rest[d..][1..] == digits && digits[..|digits|] == digits
  {
    var rest, digits := Destination(domain, Some(port)), Decimal(port);
    assert rest == domain + ([':'] + digits);
    SpanOf(domain, [':'] + digits, IsDomainChar);
    SpanOf(digits, "", IsDigit);
    assert digits + "" == digits;
    assert ([':'] + digits)[1..] == digits;
  }

  // The domain is read as far as it goes.
  lemma DomainIsLongest(rest: string) returns (domain: string, tail: string)
    ensures domain == rest[..Span(rest, IsDomainChar)] && tail == rest[Span(rest, IsDomainChar)..]
    ensures rest == domain + tail && LettersDigitsMarks(domain) && (tail != "" ==> !LettersDigitsMarks([tail[0]]))
  {
    var d := Span(rest, IsDomainChar);
    domain, tail := rest[..d], rest[d..];
    assert All(domain, IsDomainChar);
    assert forall i :: 0 <= i < |domain| ==> IsDomainChar(domain[i]);
    if tail != "" {
      assert tail[0] == rest[d] && !IsDomainChar(rest[d]);
      assert !LettersDigitsMarks([tail[0]]) by {
        assert [tail[0]][0] == rest[d];
      }
    }
  }

  lemma PortIsLongest(after: string) returns (digits: string, tail: string)
    requires after != "" && after[0] == ':'
    ensures digits == after[1..][..Span(after[1..], IsDigit)] && All(digits, IsDigit)
    ensures after == [':'] + (digits + tail) && (tail != "" ==> !('0' <= tail[0] <= '9'))
  {
    var n := Span(after[1..], IsDigit);
    digits, tail := after[1..][..n], after[1..][n..];
  }

  // What follows the '@' is read as far as it goes: the domain and, after a colon, the
  // digits of the port.
  lemma ParsesLongest(what: string) returns (digits: string, tail: string)
    requires SplitName(what).Some?
    ensures MagicVariables(what).Some? && All(digits, IsDigit)
    ensures var rest, m := SplitName(what).value.rest, MagicVariables(what).value;
            && m.resource == SplitName(what).value.resource && LettersDigitsMarks(m.domain)
            && match m.port
               case None =>
                 && rest == m.domain + tail && m.destination == m.domain
                 && (tail != "" ==> tail[0] != ':' && !LettersDigitsMarks([tail[0]]))
               case Some(port) =>
                 && rest == m.domain + ([':'] + (digits + tail)) && m.destination == m.domain + [':'] + digits
                 && port == ToI(digits) && (tail != "" ==> !('0' <= tail[0] <= '9'))
  {
    var rest := SplitName(what).value.rest;
    var domain, after := DomainIsLongest(rest);
    if after != "" && after[0] == ':' {
      digits, tail := PortIsLongest(after);
    } else {
      digits, tail := "", after;
    }
  }

  lemma NoDigitsAreZero()
    ensures ToI("") == 0
  {
  }

  lemma ParsedIsClean(what: string)
    ensures var m := MagicVariables(what);
            m.Some? ==> All(m.value.resource, IsGraph) && All(m.value.domain, IsDomainChar)
  {
  }

  predicate Visible(s: string) { forall i :: 0 <= i < |s| ==> '!' <= s[i] <= '~' }

  predicate LettersDigitsMarks(s: string) {
    forall i :: 0 <= i < |s| ==>
      'a' <= s[i] <= 'z' || 'A' <= s[i] <= 'Z' || '0' <= s[i] <= '9' || s[i] in {'.', '-', '_'}
  }

  // A request is read back as it was made exactly when its resource is made of visible
  // characters and its domain of the characters the parser allows in one.
  lemma NameRoundTripIff(what: string, domain: string, port: Option<nat>, own: string, own': string)
    ensures var m := MagicVariables(NeedFrom(Request(what, None, Some(domain), port), own, own'));
            (m.Some? && m.value.resource == what && m.value.domain == domain && m.value.port == port)
            <==> Visible(what) && LettersDigitsMarks(domain)
  {
    var printed := NeedFrom(Request(what, None, Some(domain), port), own, own');
    assert Visible(what) <==> All(what, IsGraph);
    assert LettersDigitsMarks(domain) <==> All(domain, IsDomainChar);
    ParsedIsClean(printed);
    if All(what, IsGraph) && All(domain, IsDomainChar) {
      ParsePrinted(what, domain, port);
      if port.Some? {
        assert printed == what + "@" + Destination(domain, port);
      }
    }
  }

  // A destination given whole, or taken from the tactic itself, is read back too.
  lemma DestinationRoundTrip(what: string, domain: string, port: Option<nat>, own: string)
    requires All(what, IsGraph) && All(domain, IsDomainChar)
    ensures var d := Destination(domain, port);
            var m := Some(Magic(what, d, domain, port));
            && MagicVariables(NeedFrom(Request(what, Some(d), None, None), own, own)) == m
            && MagicVariables(NeedFrom(Request(what, None, None, None), own, d)) == m
            && (port.Some? ==> MagicVariables(NeedFrom(Request(what, None, None, port), domain, own)) == m)
  {
    ParsePrinted(what, domain, port);
    PrintedAlike(what, domain, port, own);
  }

  // A destination overrides a domain and a port; what is not given is the asker's own.
  lemma DestinationComesFirst(what: string, d: string, domain: Option<string>, port: Option<nat>,
                              own: string, own': string)
    ensures NeedFrom(Request(what, Some(d), domain, port), own, own') == what + "@" + d
    ensures NeedFrom(Request(what, None, None, port), own, own')
            == what + "@" + if port.Some? then own + ":" + Decimal(port.value) else own'
  {
    if port.Some? {
      assert what + "@" + own + ":" + Decimal(port.value) == what + "@" + (own + ":" + Decimal(port.value));
    }
  }

  lemma DecimalIsDecimal()
    ensures Decimal(8080) == "8080" && ToI("8080") == 8080
  {
    DecimalReadBack(8080);
  }

  // The three requests are printed alike.
  lemma PrintedAlike(what: string, domain: string, port: Option<nat>, own: string)
    ensures var d := Destination(domain, port);
            && NeedFrom(Request(what, Some(d), None, None), own, own) == what + "@" + d
            && NeedFrom(Request(what, None, None, None), own, d) == what + "@" + d
            && (port.Some? ==> NeedFrom(Request(what, None, None, port), domain, own) == what + "@" + d)
  {
  }

  // ---------------------------------------------------------------------
  // The name a subscriber to any domain uses (solver.rb)

  function AnyDomain(what: string): string {
    var s := SplitName(what);
    (if s.Some? then s.value.resource else "") + "@ANY"
  }

  // The truth resource@destination reaches those that asked for resource@ANY.
  lemma AnyDomainOf(what: string, domain: string, port: Option<nat>)
    requires All(what, IsGraph) && All(domain, IsDomainChar)
    ensures AnyDomain(what + "@" + Destination(domain, port)) == what + "@ANY"
  {
    DestinationIsVisible(domain, port);
    SplitPrinted(what, Destination(domain, port));
  }
}
