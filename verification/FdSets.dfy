// Descriptor sets (fd_set) and the functions of tunnel_measurement/pttcp/pttcp_util.c
// that search and count them. A set is an array of words; Members gives the set of
// descriptors it stands for.
module FdSets {
  import opened BitWords

  const NFDBITS: nat := 32

  ghost function Members(s: seq<Word>): (m: set<nat>)
    ensures forall fd :: fd in m <==> 0 <= fd < 32 * |s| && fd % 32 in Ones(s[fd / 32])
  {
    set fd: nat | fd < 32 * |s| && fd % 32 in Ones(s[fd / 32])
  }

  // ---------------------------------------------------------------------
  // The macros

  method FdZero(fds: array<Word>)
    modifies fds
    ensures Members(fds[..]) == {}
  {
    var i := 0;
    while i < fds.Length
      invariant i <= fds.Length
      invariant forall j :: 0 <= j < i ==> fds[j] == Zero()
    {
      fds[i] := Zero();
      i := i + 1;
    }
  }

  method FdSet(fd: nat, fds: array<Word>)
    requires fd < NFDBITS * fds.Length
    modifies fds
    ensures Members(fds[..]) == old(Members(fds[..])) + {fd}
  {
    fds[fd / NFDBITS] := SetBit(fds[fd / NFDBITS], fd % NFDBITS);
    SameWordSamePlace(fd);
  }

  method FdClr(fd: nat, fds: array<Word>)
    requires fd < NFDBITS * fds.Length
    modifies fds
    ensures Members(fds[..]) == old(Members(fds[..])) - {fd}
  {
    fds[fd / NFDBITS] := ClearBit(fds[fd / NFDBITS], fd % NFDBITS);
    SameWordSamePlace(fd);
  }

  lemma SameWordSamePlace(fd: nat)
    ensures forall other: nat :: other / 32 == fd / 32 && other % 32 == fd % 32 ==> other == fd
  {
  }

  // fd_set assignment copies the words.
  method Copy(fds: array<Word>) returns (c: array<Word>)
    ensures fresh(c) && c[..] == fds[..]
  {
    c := new Word[fds.Length](_ => Zero());
    var i := 0;
    while i < fds.Length
      invariant i <= fds.Length
      invariant forall j :: 0 <= j < i ==> c[j] == fds[j]
    {
      c[i] := fds[i];
      i := i + 1;
    }
  }

  // ---------------------------------------------------------------------
  // FD_POP

  ghost function Upto(m: set<nat>, maxfd: nat): (r: set<nat>)
    ensures r <= m
  {
    set fd | fd in m && fd <= maxfd
  }

  ghost function Shifted(s: set<nat>, off: nat): set<nat> {
    set k | k in s :: k + off
  }

  lemma InShifted(s: set<nat>, off: nat, k: nat)
    ensures k in Shifted(s, off) <==> off <= k && k - off in s
  {
    if off <= k && k - off in s {
      var j := k - off;
      assert j in s && j + off in Shifted(s, off);
    }
  }

  lemma {:induction false} ShiftKeepsSize(s: set<nat>, off: nat)
    ensures |Shifted(s, off)| == |s|
  {
    if s != {} {
      var x :| x in s;
      var rest := s - {x};
      ShiftKeepsSize(rest, off);
      forall k: nat
        ensures k in Shifted(s, off) <==> k in Shifted(rest, off) || k == x + off
      {
        InShifted(s, off, k);
        InShifted(rest, off, k);
      }
      InShifted(rest, off, x + off);
      assert Shifted(s, off) == Shifted(rest, off) + {x + off};
    } else {
      assert Shifted(s, off) == {};
    }
  }

  ghost function FirstWords(s: seq<Word>, i: nat): set<nat>
  {
    set fd | fd in Members(s) && fd < 32 * i
  }

  // The members in words 0 to i are those in the first i words and those of word i,
  // which Shifted places at 32 * i.
  lemma WordByWord(s: seq<Word>, i: nat)
    requires i < |s|
    ensures FirstWords(s, i) !! Shifted(Ones(s[i]), 32 * i)
    ensures FirstWords(s, i + 1) == FirstWords(s, i) + Shifted(Ones(s[i]), 32 * i)
  {
    forall fd: nat | 32 * i <= fd < 32 * (i + 1)
      ensures fd in Members(s) <==> fd in Shifted(Ones(s[i]), 32 * i)
    {
      assert fd / 32 == i && fd % 32 == fd - 32 * i;
      InShifted(Ones(s[i]), 32 * i, fd);
    }
  }

  // The last word, masked, holds exactly the members up to maxfd.
  lemma LastWord(s: seq<Word>, maxfd: nat)
    requires maxfd / 32 < |s|
    ensures var i := maxfd / 32;
            var kept := KeepUpTo(s[i], maxfd % 32);
            && FirstWords(s, i) !! Shifted(Ones(kept), 32 * i)
            && Upto(Members(s), maxfd) == FirstWords(s, i) + Shifted(Ones(kept), 32 * i)
  {
    var i := maxfd / 32;
    var kept := KeepUpTo(s[i], maxfd % 32);
    forall fd: nat | 32 * i <= fd < 32 * (i + 1)
      ensures fd in Members(s) && fd <= maxfd <==> fd in Shifted(Ones(kept), 32 * i)
    {
      assert fd / 32 == i && fd % 32 == fd - 32 * i;
      assert fd <= maxfd <==> fd % 32 <= maxfd % 32;
      InShifted(Ones(kept), 32 * i, fd);
    }
  }

  // What a word adds to the count
  lemma WordCounts(s: seq<Word>, i: nat, maxfd: nat)
    requires i <= maxfd / 32 < |s|
    ensures i < maxfd / 32 ==> |FirstWords(s, i + 1)| == |FirstWords(s, i)| + |Ones(s[i])|
    ensures i == maxfd / 32 ==>
              |Upto(Members(s), maxfd)| == |FirstWords(s, i)| + |Ones(KeepUpTo(s[i], maxfd % 32))|
  {
    if i == maxfd / 32 {
      LastWord(s, maxfd);
      ShiftKeepsSize(Ones(KeepUpTo(s[i], maxfd % 32)), 32 * i);
    } else {
      WordByWord(s, i);
      ShiftKeepsSize(Ones(s[i]), 32 * i);
    }
  }

  method FdPop(maxfd: nat, fds: array<Word>) returns (n: nat)
    requires maxfd / NFDBITS < fds.Length
    ensures n == |Upto(Members(fds[..]), maxfd)|
  {
    n := 0;
    var i, last := 0, maxfd / NFDBITS;
    ghost var s := fds[..];
    assert FirstWords(s, 0) == {};
    while i <= last
      invariant i <= last + 1
      invariant i <= last ==> n == |FirstWords(s, i)|
      invariant i == last + 1 ==> n == |Upto(Members(s), maxfd)|
    {
      var x := fds[i];
      assert x == s[i];
      if i == last {
        x := KeepUpTo(x, maxfd % NFDBITS);
      }
      WordCounts(s, i, maxfd);
      PopCountIsSize(x);
      n := n + PopCount(AsNumber(x)) as nat;
      i := i + 1;
    }
  }

  // ---------------------------------------------------------------------
  // FD_FFS and FD_FFSandC

  // fd is the least member of m in [from, maxfd].
  ghost predicate IsFirst(m: set<nat>, from: nat, maxfd: nat, fd: nat) {
    && fd in m && from <= fd <= maxfd
    && forall other :: other in m && from <= other ==> fd <= other
  }

  ghost predicate NoneIn(m: set<nat>, from: nat, maxfd: nat) {
    forall fd :: fd in m ==> !(from <= fd <= maxfd)
  }

  // A result of 0 means that no descriptor was found, except that descriptor 0
  // itself is also reported as 0.
  ghost predicate SearchResult(m: set<nat>, from: nat, maxfd: nat, fd: nat) {
    if fd == 0 then NoneIn(m, from, maxfd) || IsFirst(m, from, maxfd, 0) else IsFirst(m, from, maxfd, fd)
  }

  // The first descriptor of a word that is not empty.
  method FirstInWord(s: seq<Word>, i: nat, x: Word) returns (j: nat)
    requires i < |s| && Ones(x) <= Ones(s[i]) && Ones(x) != {}
    ensures j / 32 == i && j % 32 in Ones(x) && j in Members(s)
    ensures forall fd: nat :: fd / 32 == i && fd % 32 in Ones(x) ==> j <= fd
  {
    var p := FindFirst(x);
    j := p - 1 + i * NFDBITS;
    assert j / 32 == i && j % 32 == p - 1;
  }

  method FdFfs(start: nat, maxfd: nat, fds: array<Word>) returns (fd: nat)
    requires maxfd / NFDBITS < fds.Length
    ensures SearchResult(Members(fds[..]), start, maxfd, fd)
  {
    var offset := start % NFDBITS;
    var i := start / NFDBITS;
    ghost var m := Members(fds[..]);
    while i <= maxfd / NFDBITS
      invariant start / 32 <= i
      invariant i == start / 32 ==> offset == start % 32
      invariant i > start / 32 ==> offset == 0
      invariant forall other :: other in m && start <= other ==> 32 * i <= other
    {
      var x := fds[i];
      if offset != 0 {
        x := KeepFrom(x, offset);
        offset := 0;
      }
      ZeroIsEmpty(x);
      assert forall other: nat :: other in m && start <= other && other / 32 == i ==> other % 32 in Ones(x);
      if x == Zero() {
        i := i + 1;
        continue;
      }
      var j := FirstInWord(fds[..], i, x);
      assert start <= j;
      return if j > maxfd then 0 else j;
    }
    return 0;
  }

  // Searches from the start of the word that holds start, so the descriptors of
  // that word below start count too; the code assumes there are none.
  method FdFfsAndC(start: nat, maxfd: nat, fds: array<Word>) returns (fd: nat)
    requires maxfd / NFDBITS < fds.Length
    modifies fds
    ensures SearchResult(old(Members(fds[..])), start - start % NFDBITS, maxfd, fd)
    ensures Members(fds[..]) == old(Members(fds[..])) -
                                (if fd == 0 && start >= NFDBITS then {} else {fd})
  {
    var i := start / NFDBITS;
    ghost var m := Members(fds[..]);
    while i <= maxfd / NFDBITS
      invariant start / 32 <= i
      invariant fds[..] == old(fds[..])
      invariant forall other :: other in m && start - start % 32 <= other ==> 32 * i <= other
    {
      var x := fds[i];
      ZeroIsEmpty(x);
      if x == Zero() {
        i := i + 1;
        continue;
      }
      var j := FirstInWord(fds[..], i, x);
      if j > maxfd {
        return 0;
      }
      FdClr(j, fds);
      return j;
    }
    return 0;
  }

  // ---------------------------------------------------------------------
  // The two loops that visit a set

  ghost predicate Increasing(v: seq<nat>) {
    forall i, j :: 0 <= i < j < |v| ==> v[i] < v[j]
  }

  // v lists the elements of m in increasing order, each once.
  ghost predicate Enumerates(v: seq<nat>, m: set<nat>) {
    && Increasing(v)
    && (forall x :: x in v ==> x in m)
    && (forall x :: x in m ==> x in v)
  }

  lemma NothingToEnumerate(v: seq<nat>, m: set<nat>)
    requires Enumerates(v, m)
    ensures v == [] <==> m == {}
  {
    if v != [] {
      assert v[0] in v;
    }
  }

  // A set has one enumeration, so the two loops visit the same sequence.
  lemma {:induction false} EnumerationUnique(v: seq<nat>, w: seq<nat>, m: set<nat>)
    requires Enumerates(v, m) && Enumerates(w, m)
    ensures v == w
    decreases |v|
  {
    NothingToEnumerate(v, m);
    NothingToEnumerate(w, m);
    if m != {} {
      EnumerationOfInit(v, m);
      EnumerationOfInit(w, m);
      EnumerationUnique(v[..|v| - 1], w[..|w| - 1], m - {v[|v| - 1]});
    }
  }

  lemma EnumerationOfInit(v: seq<nat>, m: set<nat>)
    requires v != [] && Enumerates(v, m)
    ensures Enumerates(v[..|v| - 1], m - {v[|v| - 1]})
    ensures v[|v| - 1] in m && forall x :: x in m ==> x <= v[|v| - 1]
  {
    var last := v[|v| - 1];
    assert v == v[..|v| - 1] + [last];
  }

  ghost function Elements(v: seq<nat>): (r: set<nat>)
    ensures forall x :: x in r <==> x in v
  {
    set x | x in v
  }

  // A loop over m has visited v, in order, and stands at fd (or has ended, fd == 0).
  ghost predicate VisitingFrom(m: set<nat>, maxfd: nat, v: seq<nat>, fd: nat) {
    && Increasing(v)
    && (forall x :: x in v ==> x in m && x <= maxfd && (fd != 0 ==> x < fd))
    && (fd == 0 ==> forall x :: x in m && x <= maxfd ==> x in v)
    && (fd != 0 ==> fd in m && fd <= maxfd && forall x :: x in m && x < fd ==> x in v)
  }

  // One turn of either loop: fd joins the visited, and next is found after it.
  lemma VisitNext(m: set<nat>, maxfd: nat, v: seq<nat>, fd: nat, next: nat)
    requires VisitingFrom(m, maxfd, v, fd) && fd != 0
    requires SearchResult(m, fd + 1, maxfd, next)
    ensures VisitingFrom(m, maxfd, v + [fd], next)
  {
    forall x | x in m && x <= maxfd && (next != 0 ==> x < next)
      ensures x in v + [fd]
    {
      assert x <= fd;
    }
    forall i | 0 <= i < |v|
      ensures v[i] < fd
    {
      assert v[i] in v;
    }
  }

  // A search of what is left of m, which agrees with m beyond last.
  lemma SameBeyond(m: set<nat>, left: set<nat>, from: nat, last: nat, maxfd: nat, fd: nat)
    requires from <= last + 1 && SearchResult(left, from, maxfd, fd)
    requires left <= m && forall x :: x in m && last < x ==> x in left
    requires forall x :: x in left && from <= x <= maxfd ==> last < x
    ensures SearchResult(m, last + 1, maxfd, fd)
  {
  }

  // What is left of m while the clearing loop stands at fd.
  ghost predicate Draining(m: set<nat>, maxfd: nat, v: seq<nat>, fd: nat, left: set<nat>) {
    if 0 in m then fd == 0 && v == [] && left == m - {0}
    else VisitingFrom(m, maxfd, v, fd) && left == m - Elements(v) - {fd}
  }

  lemma DrainTurn(m: set<nat>, maxfd: nat, v: seq<nat>, fd: nat, left: set<nat>, next: nat, left': set<nat>)
    requires Draining(m, maxfd, v, fd, left) && fd != 0
    requires SearchResult(left, (fd + 1) - (fd + 1) % 32, maxfd, next)
    requires left' == left - (if next == 0 && fd + 1 >= 32 then {} else {next})
    ensures Draining(m, maxfd, v + [fd], next, left') && (next != 0 ==> fd < next <= maxfd)
  {
    SameBeyond(m, left, (fd + 1) - (fd + 1) % 32, fd, maxfd, next);
    VisitNext(m, maxfd, v, fd, next);
    assert Elements(v + [fd]) == Elements(v) + {fd};
  }

  // for(s = 0; (fd = FD_FFSandC(s, maxfd, fds)); s = fd + 1)
  // With descriptor 0 in the set the loop ends at once: its own bit is cleared
  // and 0 is taken for "none left".
  method Drain(maxfd: nat, fds: array<Word>) returns (visited: seq<nat>)
    requires maxfd / NFDBITS < fds.Length
    modifies fds
    ensures 0 !in old(Members(fds[..])) ==>
              && Enumerates(visited, Upto(old(Members(fds[..])), maxfd))
              && Members(fds[..]) == old(Members(fds[..])) - Upto(old(Members(fds[..])), maxfd)
    ensures 0 in old(Members(fds[..])) ==>
              visited == [] && Members(fds[..]) == old(Members(fds[..])) - {0}
  {
    ghost var m := Members(fds[..]);
    visited := [];
    var fd := FdFfsAndC(0, maxfd, fds);
    while fd != 0
      invariant Draining(m, maxfd, visited, fd, Members(fds[..]))
      decreases if fd == 0 then 0 else maxfd + 1 - fd
    {
      ghost var left := Members(fds[..]);
      var next := FdFfsAndC(fd + 1, maxfd, fds);
      DrainTurn(m, maxfd, visited, fd, left, next, Members(fds[..]));
      visited := visited + [fd];
      fd := next;
    }
  }

  // What is left of m while the loop that clears some of what it visits stands at fd.
  ghost predicate Scanning(m: set<nat>, maxfd: nat, v: seq<nat>, fd: nat, left: set<nat>, clears: nat -> bool) {
    && (if 0 in m then fd == 0 && v == [] else VisitingFrom(m, maxfd, v, fd))
    && left == Uncleared(m, v, clears)
  }

  ghost function Uncleared(m: set<nat>, v: seq<nat>, clears: nat -> bool): set<nat> {
    set x | x in m && !(x in v && clears(x))
  }

  lemma ScanTurn(m: set<nat>, maxfd: nat, v: seq<nat>, fd: nat, left: set<nat>, clears: nat -> bool,
                 next: nat, left': set<nat>)
    requires Scanning(m, maxfd, v, fd, left, clears) && fd != 0
    requires left' == if clears(fd) then left - {fd} else left
    requires SearchResult(left', fd + 1, maxfd, next)
    ensures Scanning(m, maxfd, v + [fd], next, left', clears) && (next != 0 ==> fd < next <= maxfd)
  {
    SameBeyond(m, left', fd + 1, fd, maxfd, next);
    VisitNext(m, maxfd, v, fd, next);
  }

  // for(s = 0; (fd = FD_FFS(s, maxfd, fds)); s = fd + 1), where the body clears the
  // bit just found when `clears` says so.
  method Scan(maxfd: nat, fds: array<Word>, clears: nat -> bool) returns (visited: seq<nat>)
    requires maxfd / NFDBITS < fds.Length
    modifies fds
    ensures 0 !in old(Members(fds[..])) ==> Enumerates(visited, Upto(old(Members(fds[..])), maxfd))
    ensures 0 in old(Members(fds[..])) ==> visited == []
    ensures Members(fds[..]) == Uncleared(old(Members(fds[..])), visited, clears)
  {
    ghost var m := Members(fds[..]);
    visited := [];
    var fd := FdFfs(0, maxfd, fds);
    while fd != 0
      invariant Scanning(m, maxfd, visited, fd, Members(fds[..]), clears)
      decreases if fd == 0 then 0 else maxfd + 1 - fd
    {
      ghost var left := Members(fds[..]);
      if clears(fd) {
        FdClr(fd, fds);
      }
      var next := FdFfs(fd + 1, maxfd, fds);
      ScanTurn(m, maxfd, visited, fd, left, clears, next, Members(fds[..]));
      visited := visited + [fd];
      fd := next;
    }
  }
}
