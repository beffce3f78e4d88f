// The result buffers of client_resolver/nss-signpost.c: one caller-supplied buffer that
// holds a name, addresses and the pointers to them. Pointers are absolute addresses,
// stored little-endian; the buffer starts at address `base`.
module NssBuffer {
  import opened Options

  newtype byte = x: int | 0 <= x < 256

  const AF_UNSPEC: int := 0
  const AF_INET: int := 2
  const AF_INET6: int := 10

  datatype Status = Success | TryAgain | NotFound | Unavail

  // struct address of nss-signport.h
  datatype Address = Address(family: int, address: seq<byte>, scope: int, ifindex: int)

  ghost predicate WellFormed(a: Address) { 0 <= a.family < 256 && |a.address| == 16 }

  // sizeof(void*)
  predicate IsWordSize(w: nat) { w == 4 || w == 8 }

  // A multiple of sizeof(void*)
  predicate Aligned(n: nat, w: nat)
    requires IsWordSize(w)
  {
    if w == 4 then n % 4 == 0 else n % 8 == 0
  }

  lemma AlignedMeans(n: nat, w: nat)
    requires IsWordSize(w)
    ensures Aligned(n, w) <==> n % w == 0
  {
  }

  // The ALIGN macro, ((a + w - 1) / w) * w, written out for the two word sizes
  function Align(a: nat, w: nat): (r: nat)
    requires IsWordSize(w)
    ensures a <= r < a + w && Aligned(r, w) && (w == 4 ==> r % 4 == 0) && (w == 8 ==> r % 8 == 0)
  {
    if w == 4 then AlignFour(a) else AlignEight(a)
  }

  function AlignFour(a: nat): (r: nat)
    ensures a <= r < a + 4 && r % 4 == 0
  {
    (a + 3) / 4 * 4
  }

  function AlignEight(a: nat): (r: nat)
    ensures a <= r < a + 8 && r % 8 == 0
  {
    (a + 7) / 8 * 8
  }

  // PROTO_ADDRESS_SIZE
  function AddressSize(af: int): nat { if af == AF_INET6 then 16 else 4 }

  // ---------------------------------------------------------------------
  // Numbers in memory

  function Pow256(n: nat): nat { if n == 0 then 1 else 256 * Pow256(n - 1) }

  function Encode(v: nat, n: nat): (s: seq<byte>)
    ensures |s| == n
    decreases n
  {
    if n == 0 then [] else [(v % 256) as byte] + Encode(v / 256, n - 1)
  }

  function Decode(s: seq<byte>): nat {
    if s == [] then 0 else s[0] as nat + 256 * Decode(s[1..])
  }

  lemma {:induction false} DecodeEncode(v: nat, n: nat)
    requires v < Pow256(n)
    ensures Decode(Encode(v, n)) == v
    decreases n
  {
    if n > 0 {
      DecodeEncode(v / 256, n - 1);
      assert Encode(v, n)[1..] == Encode(v / 256, n - 1);
    }
  }

  // The least significant byte comes first.
  lemma LittleEndian(a: byte, b: byte, c: byte, d: byte)
    ensures Decode([a, b, c, d]) == a as nat + 0x100 * b as nat + 0x1_0000 * c as nat + 0x100_0000 * d as nat
  {
    assert [d][1..] == [] && Decode([d]) == d as nat;
    assert [c, d][1..] == [d] && Decode([c, d]) == c as nat + 0x100 * d as nat;
    assert [b, c, d][1..] == [c, d] && [a, b, c, d][1..] == [b, c, d];
  }

  // ---------------------------------------------------------------------
  // Regions of memory

  ghost predicate At(mem: seq<byte>, off: nat, data: seq<byte>) {
    off + |data| <= |mem| && mem[off..off + |data|] == data
  }

  // mem' is mem except in [lo, hi).
  ghost predicate SameOutside(mem: seq<byte>, mem': seq<byte>, lo: nat, hi: nat) {
    |mem| == |mem'| && forall i :: 0 <= i < |mem| && !(lo <= i < hi) ==> mem'[i] == mem[i]
  }

  lemma SameOutsideTwice(a: seq<byte>, b: seq<byte>, c: seq<byte>, lo: nat, mid: nat, mid': nat, hi: nat)
    requires SameOutside(a, b, lo, hi) && SameOutside(b, c, mid, mid') && lo <= mid && mid' <= hi
    ensures SameOutside(a, c, lo, hi)
  {
  }

  lemma AtKept(mem: seq<byte>, mem': seq<byte>, lo: nat, hi: nat, off: nat, data: seq<byte>)
    requires SameOutside(mem, mem', lo, hi) && At(mem, off, data)
    requires off + |data| <= lo || hi <= off
    ensures At(mem', off, data)
  {
    forall i | 0 <= i < |data| ensures mem'[off + i] == data[i] {
      assert mem[off..off + |data|][i] == data[i];
    }
  }

  ghost predicate PointerAt(mem: seq<byte>, off: nat, w: nat, v: nat) {
    off + w <= |mem| && ReadPointer(mem, off, w) == v
  }

  lemma PointerKept(mem: seq<byte>, mem': seq<byte>, lo: nat, hi: nat, off: nat, w: nat, v: nat)
    requires SameOutside(mem, mem', lo, hi) && PointerAt(mem, off, w, v)
    requires off + w <= lo || hi <= off
    ensures PointerAt(mem', off, w, v)
  {
    assert mem'[off..off + w] == mem[off..off + w];
  }

  method WritePointer(mem: array<byte>, off: nat, w: nat, v: nat)
    requires off + w <= mem.Length && v < Pow256(w)
    modifies mem
    ensures PointerAt(mem[..], off, w, v)
    ensures SameOutside(old(mem[..]), mem[..], off, off + w)
  {
    Write(mem, off, Encode(v, w));
    DecodeEncode(v, w);
  }

  // memcpy
  method Write(mem: array<byte>, off: nat, data: seq<byte>)
    requires off + |data| <= mem.Length
    modifies mem
    ensures At(mem[..], off, data)
    ensures SameOutside(old(mem[..]), mem[..], off, off + |data|)
  {
    var i := 0;
    while i < |data|
      invariant i <= |data|
      invariant forall k :: 0 <= k < i ==> mem[off + k] == data[k]
      invariant forall k :: 0 <= k < mem.Length && !(off <= k < off + i) ==> mem[k] == old(mem[k])
    {
      mem[off + i] := data[i];
      i := i + 1;
    }
  }

  // ---------------------------------------------------------------------
  // Reading a result back, as a caller of the library would

  // A C string
  function ReadString(mem: seq<byte>, off: nat): Option<seq<byte>>
    decreases |mem| - off
  {
    if off >= |mem| then None
    else if mem[off] == 0 then Some([])
    else
      var rest := ReadString(mem, off + 1);
      if rest.None? then None else Some([mem[off]] + rest.value)
  }

  function ReadPointer(mem: seq<byte>, off: nat, w: nat): nat
    requires off + w <= |mem|
  {
    Decode(mem[off..off + w])
  }

  // The blocks of `size` bytes that a NULL-terminated array of pointers leads to
  function ReadList(mem: seq<byte>, base: nat, off: nat, w: nat, size: nat): Option<seq<seq<byte>>>
    requires w > 0
    decreases |mem| - off
  {
    if off + w > |mem| then None
    else
      var p := ReadPointer(mem, off, w);
      if p == 0 then Some([])
      else if p < base || p - base + size > |mem| then None
      else
        var rest := ReadList(mem, base, off + w, w, size);
        if rest.None? then None else Some([mem[p - base..p - base + size]] + rest.value)
  }

  ghost predicate IsCString(s: seq<byte>) { forall i :: 0 <= i < |s| ==> s[i] != 0 }

  lemma {:induction false} StringReadBack(mem: seq<byte>, off: nat, s: seq<byte>)
    requires IsCString(s) && At(mem, off, s + [0])
    ensures ReadString(mem, off) == Some(s)
    decreases |s|
  {
    assert mem[off] == mem[off..off + |s| + 1][0];
    if s != [] {
      forall i | 0 <= i < |s| ensures mem[off + 1 + i] == (s[1..] + [0])[i] {
        assert mem[off..off + |s| + 1][i + 1] == (s + [0])[i + 1];
      }
      assert mem[off + 1..off + 1 + |s|] == s[1..] + [0];
      StringReadBack(mem, off + 1, s[1..]);
      assert s == [s[0]] + s[1..];
    }
  }

  // ---------------------------------------------------------------------
  // fill_in_hostent

  // struct hostent, with its pointers
  datatype Hostent = Hostent(name: nat, aliases: nat, addrtype: int, length: nat, addrList: nat)

  datatype Errno = NoErrno | ENOMEM | EAFNOSUPPORT | SystemErrno(code: int)

  datatype HErrno = NoHErrno | NO_RECOVERY | NO_DATA

  datatype HostReply = HostReply(status: Status, errno: Errno, herrno: HErrno, host: Option<Hostent>)

  function Matching(addresses: seq<Address>, af: int): (m: seq<Address>)
    ensures |m| <= |addresses|
  {
    if addresses == [] then []
    else
      var last := addresses[|addresses| - 1];
      Matching(addresses[..|addresses| - 1], af) + (if last.family == af then [last] else [])
  }

  lemma {:induction false} MatchingPrefix(addresses: seq<Address>, af: int, n: nat)
    requires n < |addresses|
    ensures var i, m := |Matching(addresses[..n], af)|, Matching(addresses, af);
            if addresses[n].family == af
            then i < |m| && m[i] == addresses[n] && |Matching(addresses[..n + 1], af)| == i + 1
            else |Matching(addresses[..n + 1], af)| == i
    ensures |Matching(addresses[..n + 1], af)| <= |Matching(addresses, af)|
    decreases |addresses|
  {
    assert addresses[..n + 1][..n] == addresses[..n];
    if n + 1 == |addresses| {
      assert addresses[..n + 1] == addresses;
    } else {
      var init := addresses[..|addresses| - 1];
      assert init[..n] == addresses[..n] && init[..n + 1] == addresses[..n + 1];
      MatchingPrefix(init, af, n);
    }
  }

  function Raw(m: seq<Address>, size: nat): seq<seq<byte>>
    requires forall a :: a in m ==> size <= |a.address|
  {
    if m == [] then [] else [m[0].address[..size]] + Raw(m[1..], size)
  }

  // Where things go: the offsets of the aliases array, of the addresses and of the
  // pointer array, and the total size, for a name of length l and c addresses.
  function AliasesAt(l: nat, w: nat): nat
    requires IsWordSize(w)
  {
    Align(l + 1, w)
  }

  function AddrsAt(l: nat, w: nat): nat
    requires IsWordSize(w)
  {
    AliasesAt(l, w) + w
  }

  // k * ALIGN(alen), with the product written out for the values it can take
  function Slot(k: nat, af: int, w: nat): nat
    requires IsWordSize(w)
  {
    if af == AF_INET6 then 16 * k else if w == 4 then 4 * k else 8 * k
  }

  // k * sizeof(char*)
  function Cells(k: nat, w: nat): nat
    requires IsWordSize(w)
  {
    if w == 4 then 4 * k else 8 * k
  }

  lemma ProductsWrittenOut(k: nat, af: int, w: nat)
    requires IsWordSize(w)
    ensures Slot(k, af, w) == k * Align(AddressSize(af), w)
    ensures Cells(k, w) == k * w
  {
    if w == 4 {
      assert k * w == 4 * k;
    } else {
      assert k * w == 8 * k;
    }
  }

  function HostentSize(l: nat, c: nat, af: int, w: nat): nat
    requires IsWordSize(w)
  {
    AddrsAt(l, w) + Slot(if c > 0 then c else 1, af, w) + Cells(if c > 0 then c + 1 else 2, w)
  }

  lemma Slots(k: nat, c: nat, af: int, w: nat)
    requires IsWordSize(w) && k < c
    ensures Slot(k, af, w) + AddressSize(af) <= Slot(k + 1, af, w) <= Slot(c, af, w)
  {
  }

  ghost predicate Blocks(mem: seq<byte>, off: nat, af: int, w: nat, m: seq<Address>, n: nat)
    requires IsWordSize(w) && n <= |m| && forall a :: a in m ==> |a.address| == 16
  {
    forall k :: 0 <= k < n ==> At(mem, off + Slot(k, af, w), m[k].address[..AddressSize(af)])
  }

  ghost predicate Pointers(mem: seq<byte>, off: nat, target: nat, af: int, w: nat, n: nat)
    requires IsWordSize(w)
  {
    forall k :: 0 <= k < n ==> PointerAt(mem, off + Cells(k, w), w, target + Slot(k, af, w))
  }

  lemma BlocksKept(mem: seq<byte>, mem': seq<byte>, lo: nat, hi: nat, off: nat, af: int, w: nat,
                   m: seq<Address>, n: nat)
    requires IsWordSize(w) && n <= |m| && forall a :: a in m ==> |a.address| == 16
    requires SameOutside(mem, mem', lo, hi) && Blocks(mem, off, af, w, m, n) && off + Slot(n, af, w) <= lo
    ensures Blocks(mem', off, af, w, m, n)
  {
    forall k | 0 <= k < n ensures At(mem', off + Slot(k, af, w), m[k].address[..AddressSize(af)]) {
      Slots(k, n, af, w);
      AtKept(mem, mem', lo, hi, off + Slot(k, af, w), m[k].address[..AddressSize(af)]);
    }
  }

  lemma PointersKept(mem: seq<byte>, mem': seq<byte>, lo: nat, hi: nat, off: nat, target: nat, af: int, w: nat, n: nat)
    requires IsWordSize(w) && SameOutside(mem, mem', lo, hi)
    requires Pointers(mem, off, target, af, w, n) && off + Cells(n, w) <= lo
    ensures Pointers(mem', off, target, af, w, n)
  {
    forall k | 0 <= k < n ensures PointerAt(mem', off + Cells(k, w), w, target + Slot(k, af, w)) {
      PointerKept(mem, mem', lo, hi, off + Cells(k, w), w, target + Slot(k, af, w));
    }
  }

  // Following the pointer array gives the addresses, in order.
  lemma {:induction false} ListReadBack(mem: seq<byte>, base: nat, list: nat, addrs: nat, af: int, w: nat,
                                        m: seq<Address>, k: nat)
    requires IsWordSize(w) && k <= |m| && forall a :: a in m ==> |a.address| == 16
    requires 0 < base
    requires Blocks(mem, addrs, af, w, m, |m|)
    requires Pointers(mem, list, base + addrs, af, w, |m|)
    requires PointerAt(mem, list + Cells(|m|, w), w, 0)
    ensures ReadList(mem, base, list + Cells(k, w), w, AddressSize(af)) == Some(Raw(m[k..], AddressSize(af)))
    decreases |m| - k
  {
    if k == |m| {
      ReadEnd(mem, base, list + Cells(k, w), w, AddressSize(af));
    } else {
      ListReadBack(mem, base, list, addrs, af, w, m, k + 1);
      OneEntryBack(mem, base, list, addrs, af, w, m, k);
    }
  }

  lemma OneEntryBack(mem: seq<byte>, base: nat, list: nat, addrs: nat, af: int, w: nat, m: seq<Address>, k: nat)
    requires IsWordSize(w) && k < |m| && (forall a :: a in m ==> |a.address| == 16) && 0 < base
    requires Blocks(mem, addrs, af, w, m, |m|) && Pointers(mem, list, base + addrs, af, w, |m|)
    requires ReadList(mem, base, list + Cells(k + 1, w), w, AddressSize(af)) == Some(Raw(m[k + 1..], AddressSize(af)))
    ensures ReadList(mem, base, list + Cells(k, w), w, AddressSize(af)) == Some(Raw(m[k..], AddressSize(af)))
  {
    var size, slot := AddressSize(af), addrs + Slot(k, af, w);
    assert list + Cells(k + 1, w) == list + Cells(k, w) + w;
    assert base + addrs + Slot(k, af, w) == base + slot;
    ReadOneEntry(mem, base, list + Cells(k, w), w, slot, m[k].address[..size], Raw(m[k + 1..], size));
    RawOneMore(m, k, size);
  }

  lemma RawOneMore(m: seq<Address>, k: nat, size: nat)
    requires k < |m| && forall a :: a in m ==> size <= |a.address|
    ensures Raw(m[k..], size) == [m[k].address[..size]] + Raw(m[k + 1..], size)
  {
    assert m[k..][1..] == m[k + 1..];
  }

  lemma ReadEnd(mem: seq<byte>, base: nat, off: nat, w: nat, size: nat)
    requires w > 0 && PointerAt(mem, off, w, 0)
    ensures ReadList(mem, base, off, w, size) == Some([])
  {
  }

  lemma ReadOneEntry(mem: seq<byte>, base: nat, off: nat, w: nat, slot: nat, data: seq<byte>, rest: seq<seq<byte>>)
    requires w > 0 && base > 0 && PointerAt(mem, off, w, base + slot) && At(mem, slot, data)
    requires ReadList(mem, base, off + w, w, |data|) == Some(rest)
    ensures ReadList(mem, base, off, w, |data|) == Some([data] + rest)
  {
  }

  // The caller's buffer: where it lies in the address space of w-byte pointers.
  ghost predicate Addressable(base: nat, length: nat, w: nat) {
    IsWordSize(w) && 0 < base && base + length <= Pow256(w)
  }

  ghost predicate AllWellFormed(addresses: seq<Address>) {
    forall a :: a in addresses ==> WellFormed(a)
  }

  lemma {:induction false} MatchingAreAddresses(addresses: seq<Address>, af: int)
    ensures forall a :: a in Matching(addresses, af) ==> a in addresses && a.family == af
    decreases |addresses|
  {
    if addresses != [] {
      MatchingAreAddresses(addresses[..|addresses| - 1], af);
    }
  }

  method CountMatching(addresses: seq<Address>, af: int) returns (c: nat)
    ensures c == |Matching(addresses, af)|
  {
    c := 0;
    var n := 0;
    while n < |addresses|
      invariant n <= |addresses| && c == |Matching(addresses[..n], af)|
    {
      MatchingPrefix(addresses, af, n);
      if addresses[n].family == af {
        c := c + 1;
      }
      n := n + 1;
    }
    assert addresses[..n] == addresses;
  }

  method FillOneAddress(mem: array<byte>, off: nat, af: int, w: nat, ghost m: seq<Address>, i: nat, a: Address)
    requires IsWordSize(w) && (forall b :: b in m ==> |b.address| == 16) && i < |m| && m[i] == a
    requires off + Slot(|m|, af, w) <= mem.Length && Blocks(mem[..], off, af, w, m, i)
    modifies mem
    ensures Blocks(mem[..], off, af, w, m, i + 1)
    ensures SameOutside(old(mem[..]), mem[..], off, off + Slot(|m|, af, w))
  {
    ghost var lo := off + Slot(i, af, w);
    Slots(i, |m|, af, w);
    Write(mem, off + Slot(i, af, w), a.address[..AddressSize(af)]);
    BlocksKept(old(mem[..]), mem[..], lo, lo + AddressSize(af), off, af, w, m, i);
  }

  // The third step: the addresses of the family, each in a slot of its own.
  method FillAddresses(mem: array<byte>, off: nat, af: int, w: nat, addresses: seq<Address>)
    requires IsWordSize(w) && AllWellFormed(addresses)
    requires off + Slot(|Matching(addresses, af)|, af, w) <= mem.Length
    modifies mem
    ensures forall a :: a in Matching(addresses, af) ==> |a.address| == 16
    ensures Blocks(mem[..], off, af, w, Matching(addresses, af), |Matching(addresses, af)|)
    ensures SameOutside(old(mem[..]), mem[..], off, off + Slot(|Matching(addresses, af)|, af, w))
  {
    ghost var m := Matching(addresses, af);
    MatchingAreAddresses(addresses, af);
    var i, n := 0, 0;
    ghost var hi := off + Slot(|m|, af, w);
    while n < |addresses|
      invariant n <= |addresses| && i == |Matching(addresses[..n], af)| <= |m|
      invariant Blocks(mem[..], off, af, w, m, i)
      invariant SameOutside(old(mem[..]), mem[..], off, hi)
    {
      MatchingPrefix(addresses, af, n);
      if addresses[n].family == af {
        ghost var before := mem[..];
        FillOneAddress(mem, off, af, w, m, i, addresses[n]);
        SameOutsideTwice(old(mem[..]), before, mem[..], off, off, hi, hi);
        i := i + 1;
      }
      n := n + 1;
    }
    assert addresses[..n] == addresses && i == |m|;
  }

  method FillOnePointer(mem: array<byte>, off: nat, target: nat, af: int, w: nat, i: nat, v: nat)
    requires IsWordSize(w) && off + Cells(i + 1, w) <= mem.Length && v < Pow256(w)
    requires Pointers(mem[..], off, target, af, w, i)
    modifies mem
    ensures Pointers(mem[..], off, target, af, w, i) && PointerAt(mem[..], off + Cells(i, w), w, v)
    ensures SameOutside(old(mem[..]), mem[..], off, off + Cells(i + 1, w))
  {
    ghost var lo := off + Cells(i, w);
    WritePointer(mem, off + Cells(i, w), w, v);
    PointersKept(old(mem[..]), mem[..], lo, lo + w, off, target, af, w, i);
  }

  lemma SlotsBelow(i: nat, c: nat, target: nat, limit: nat, af: int, w: nat)
    requires IsWordSize(w) && i < c && target + Slot(c, af, w) < limit
    ensures target + Slot(i, af, w) < limit && Cells(i + 1, w) <= Cells(c + 1, w)
  {
  }

  method FillMatchingPointer(mem: array<byte>, off: nat, target: nat, af: int, w: nat, i: nat, ghost c: nat)
    requires IsWordSize(w) && i < c && off + Cells(c + 1, w) <= mem.Length
    requires target + Slot(c, af, w) < Pow256(w)
    requires Pointers(mem[..], off, target, af, w, i)
    modifies mem
    ensures Pointers(mem[..], off, target, af, w, i + 1)
    ensures SameOutside(old(mem[..]), mem[..], off, off + Cells(c + 1, w))
  {
    SlotsBelow(i, c, target, Pow256(w), af, w);
    FillOnePointer(mem, off, target, af, w, i, target + Slot(i, af, w));
  }

  // The fourth step: the pointers to the slots, then NULL.
  method FillPointers(mem: array<byte>, off: nat, target: nat, af: int, w: nat, addresses: seq<Address>)
    requires IsWordSize(w)
    requires off + Cells(|Matching(addresses, af)| + 1, w) <= mem.Length
    requires target + Slot(|Matching(addresses, af)|, af, w) < Pow256(w)
    modifies mem
    ensures Pointers(mem[..], off, target, af, w, |Matching(addresses, af)|)
    ensures PointerAt(mem[..], off + Cells(|Matching(addresses, af)|, w), w, 0)
    ensures SameOutside(old(mem[..]), mem[..], off, off + Cells(|Matching(addresses, af)| + 1, w))
  {
    ghost var c := |Matching(addresses, af)|;
    ghost var hi := off + Cells(c + 1, w);
    var i, n := 0, 0;
    while n < |addresses|
      invariant n <= |addresses| && i == |Matching(addresses[..n], af)| <= c
      invariant Pointers(mem[..], off, target, af, w, i)
      invariant SameOutside(old(mem[..]), mem[..], off, hi)
    {
      MatchingPrefix(addresses, af, n);
      if addresses[n].family == af {
        ghost var before := mem[..];
        FillMatchingPointer(mem, off, target, af, w, i, c);
        SameOutsideTwice(old(mem[..]), before, mem[..], off, off, hi, hi);
        i := i + 1;
      }
      n := n + 1;
    }
    assert addresses[..n] == addresses;
    ghost var before := mem[..];
    FillOnePointer(mem, off, target, af, w, i, 0);
    SameOutsideTwice(old(mem[..]), before, mem[..], off, off, hi, hi);
  }

  // What a caller reads out of a successful reply.
  ghost predicate Delivers(mem: seq<byte>, base: nat, w: nat, h: Hostent, hn: seq<byte>, af: int, m: seq<Address>)
    requires IsWordSize(w) && forall a :: a in m ==> |a.address| == 16
  {
    && base <= h.name && base <= h.aliases && base <= h.addrList
    && ReadString(mem, h.name - base) == Some(hn)
    && ReadList(mem, base, h.aliases - base, w, AddressSize(af)) == Some([])
    && ReadList(mem, base, h.addrList - base, w, AddressSize(af)) == Some(Raw(m, AddressSize(af)))
    && h.addrtype == af && h.length == AddressSize(af)
    && Aligned(h.aliases - base, w) && Aligned(h.addrList - base, w)
  }

  ghost predicate Succeeds(r: HostReply, before: seq<byte>, after: seq<byte>, base: nat, w: nat,
                           hn: seq<byte>, af: int, m: seq<Address>)
    requires IsWordSize(w) && forall a :: a in m ==> |a.address| == 16
  {
    && r.status == Success && r.host.Some?
    && Delivers(after, base, w, r.host.value, hn, af, m)
    && SameOutside(before, after, 0, HostentSize(|hn|, |m|, af, w))
  }

  lemma HostentReadBack(mem: seq<byte>, base: nat, w: nat, hn: seq<byte>, af: int, m: seq<Address>,
                        aliases: nat, addrs: nat, list: nat, h: Hostent)
    requires IsWordSize(w) && base > 0 && IsCString(hn) && forall a :: a in m ==> |a.address| == 16
    requires h == Hostent(base, base + aliases, af, AddressSize(af), base + list)
    requires At(mem, 0, hn + [0]) && PointerAt(mem, aliases, w, 0)
    requires Blocks(mem, addrs, af, w, m, |m|)
    requires Pointers(mem, list, base + addrs, af, w, |m|) && PointerAt(mem, list + Cells(|m|, w), w, 0)
    requires Aligned(aliases, w) && Aligned(list, w)
    ensures Delivers(mem, base, w, h, hn, af, m)
  {
    StringReadBack(mem, 0, hn);
    ReadEnd(mem, base, aliases, w, AddressSize(af));
    WholeListReadBack(mem, base, list, addrs, af, w, m);
    assert h.name - base == 0 && h.aliases - base == aliases && h.addrList - base == list;
  }

  lemma WholeListReadBack(mem: seq<byte>, base: nat, list: nat, addrs: nat, af: int, w: nat, m: seq<Address>)
    requires IsWordSize(w) && base > 0 && forall a :: a in m ==> |a.address| == 16
    requires Blocks(mem, addrs, af, w, m, |m|)
    requires Pointers(mem, list, base + addrs, af, w, |m|) && PointerAt(mem, list + Cells(|m|, w), w, 0)
    ensures ReadList(mem, base, list, w, AddressSize(af)) == Some(Raw(m, AddressSize(af)))
  {
    ListReadBack(mem, base, list, addrs, af, w, m, 0);
    assert m[0..] == m && list + Cells(0, w) == list;
  }

  // The first and second steps: the name, then an empty array of aliases.
  method FillNameAndAliases(mem: array<byte>, hn: seq<byte>, w: nat, aliases: nat)
    requires IsWordSize(w) && |hn| + 1 <= aliases && aliases + w <= mem.Length
    modifies mem
    ensures At(mem[..], 0, hn + [0]) && PointerAt(mem[..], aliases, w, 0)
    ensures SameOutside(old(mem[..]), mem[..], 0, aliases + w)
  {
    Write(mem, 0, hn + [0]);
    ghost var named := mem[..];
    assert 0 < Pow256(w);
    WritePointer(mem, aliases, w, 0);
    AtKept(named, mem[..], aliases, aliases + w, 0, hn + [0]);
  }

  lemma PointersFit(base: nat, addrs: nat, c: nat, af: int, w: nat, length: nat)
    requires Addressable(base, length, w) && addrs + Slot(c, af, w) + Cells(c + 1, w) <= length
    ensures base + addrs + Slot(c, af, w) < Pow256(w)
  {
  }

  lemma SameOutsideJoined(a: seq<byte>, b: seq<byte>, c: seq<byte>, lo: nat, mid: nat, hi: nat)
    requires SameOutside(a, b, lo, mid) && SameOutside(b, c, mid, hi) && lo <= mid <= hi
    ensures SameOutside(a, c, lo, hi)
  {
  }

  // The third and fourth steps: the addresses, then the array of pointers to them.
  method FillAddressesAndPointers(mem: array<byte>, base: nat, af: int, w: nat, addresses: seq<Address>,
                                  addrs: nat, list: nat, ghost ms: nat)
    requires Addressable(base, mem.Length, w) && AllWellFormed(addresses)
    requires list == addrs + Slot(|Matching(addresses, af)|, af, w)
    requires ms == list + Cells(|Matching(addresses, af)| + 1, w) && ms <= mem.Length
    modifies mem
    ensures forall a :: a in Matching(addresses, af) ==> |a.address| == 16
    ensures Blocks(mem[..], addrs, af, w, Matching(addresses, af), |Matching(addresses, af)|)
    ensures Pointers(mem[..], list, base + addrs, af, w, |Matching(addresses, af)|)
    ensures PointerAt(mem[..], list + Cells(|Matching(addresses, af)|, w), w, 0)
    ensures SameOutside(old(mem[..]), mem[..], addrs, ms)
  {
    ghost var was, m := mem[..], Matching(addresses, af);
    FillAddresses(mem, addrs, af, w, addresses);
    ghost var filled := mem[..];
    PointersFit(base, addrs, |m|, af, w, mem.Length);
    FillPointers(mem, list, base + addrs, af, w, addresses);
    BlocksKept(filled, mem[..], list, ms, addrs, af, w, m, |m|);
    SameOutsideJoined(was, filled, mem[..], addrs, list, ms);
  }

  method FillHost(mem: array<byte>, base: nat, hn: seq<byte>, af: int, w: nat, addresses: seq<Address>,
                  aliases: nat, c: nat, ghost ms: nat)
    returns (host: Hostent)
    requires Addressable(base, mem.Length, w) && IsCString(hn) && AllWellFormed(addresses)
    requires c == |Matching(addresses, af)| && |hn| + 1 <= aliases && Aligned(aliases, w)
    requires At(mem[..], 0, hn + [0]) && PointerAt(mem[..], aliases, w, 0)
    requires Aligned(aliases + w + Slot(c, af, w), w)
    requires ms == aliases + w + Slot(c, af, w) + Cells(c + 1, w) && ms <= mem.Length
    modifies mem
    ensures forall a :: a in Matching(addresses, af) ==> |a.address| == 16
    ensures Delivers(mem[..], base, w, host, hn, af, Matching(addresses, af))
    ensures SameOutside(old(mem[..]), mem[..], aliases + w, ms)
  {
    var idx := aliases + w;
    var addrs := idx;
    idx := idx + Slot(c, af, w);
    var list := idx;
    idx := idx + Cells(c + 1, w);
    assert idx == ms;
    FillAddressesAndPointers(mem, base, af, w, addresses, addrs, list, ms);
    AtKept(old(mem[..]), mem[..], addrs, ms, 0, hn + [0]);
    PointerKept(old(mem[..]), mem[..], addrs, ms, aliases, w, 0);
    host := Hostent(base, base + aliases, af, AddressSize(af), base + list);
    HostentReadBack(mem[..], base, w, hn, af, Matching(addresses, af), aliases, addrs, list, host);
  }

  // The offsets are where the sizes put them, and the pointers lie on word boundaries.
  lemma AlignedMore(n: nat, k: nat, w: nat)
    requires IsWordSize(w) && Aligned(n, w)
    ensures Aligned(n + 8 * k, w) && Aligned(n + w, w) && (w == 4 ==> Aligned(n + 4 * k, w))
  {
  }

  lemma SlotsAligned(n: nat, k: nat, af: int, w: nat)
    requires IsWordSize(w) && Aligned(n, w)
    ensures Aligned(n + Slot(k, af, w), w)
  {
    AlignedMore(n, k, w);
    AlignedMore(n, 2 * k, w);
  }

  lemma Layout(l: nat, c: nat, af: int, w: nat)
    requires IsWordSize(w)
    ensures l + 1 <= AliasesAt(l, w) && Aligned(AliasesAt(l, w), w)
    ensures Aligned(AddrsAt(l, w) + Slot(c, af, w), w)
    ensures c > 0 ==> HostentSize(l, c, af, w) == AddrsAt(l, w) + Slot(c, af, w) + Cells(c + 1, w)
    ensures AddrsAt(l, w) <= HostentSize(l, c, af, w)
  {
    var aliases := Align(l + 1, w);
    AlignedMore(aliases, 0, w);
    SlotsAligned(aliases + w, c, af, w);
  }

  // The places, in order, at which the addresses of a family are found
  ghost predicate Picks(places: seq<nat>, addresses: seq<Address>, af: int) {
    && (forall i, j :: 0 <= i < j < |places| ==> places[i] < places[j])
    && (forall i :: 0 <= i < |places| ==> places[i] < |addresses| && addresses[places[i]].family == af)
    && (forall n :: 0 <= n < |addresses| && addresses[n].family == af ==> n in places)
  }

  // m are the addresses at those places.
  ghost predicate FoundAt(m: seq<Address>, places: seq<nat>, addresses: seq<Address>) {
    |m| == |places| && forall k :: 0 <= k < |m| ==> places[k] < |addresses| && m[k] == addresses[places[k]]
  }

  lemma {:induction false} MatchingPicks(addresses: seq<Address>, af: int) returns (places: seq<nat>)
    ensures Picks(places, addresses, af) && FoundAt(Matching(addresses, af), places, addresses)
    decreases |addresses|
  {
    if addresses == [] {
      places := [];
    } else {
      var n := |addresses| - 1;
      var before := MatchingPicks(addresses[..n], af);
      places := if addresses[n].family == af then before + [n] else before;
      PicksMore(before, places, addresses, n, af);
      FoundMore(Matching(addresses[..n], af), before, addresses, n);
    }
  }

  lemma FoundMore(m: seq<Address>, before: seq<nat>, addresses: seq<Address>, n: nat)
    requires |addresses| == n + 1 && FoundAt(m, before, addresses[..n])
    ensures FoundAt(m, before, addresses) && FoundAt(m + [addresses[n]], before + [n], addresses)
  {
  }

  lemma PicksMore(before: seq<nat>, places: seq<nat>, addresses: seq<Address>, n: nat, af: int)
    requires |addresses| == n + 1 && Picks(before, addresses[..n], af)
    requires places == if addresses[n].family == af then before + [n] else before
    ensures Picks(places, addresses, af)
  {
    forall m | 0 <= m < |addresses| && addresses[m].family == af ensures m in places {
      if m < n {
        assert addresses[..n][m] == addresses[m];
        StillThere(before, n, m);
      } else {
        assert places[|before|] == n;
      }
    }
    PicksInOrder(before, places, addresses, n, af);
  }

  lemma StillThere(before: seq<nat>, n: nat, m: nat)
    requires m in before
    ensures m in before + [n]
  {
  }

  lemma PicksInOrder(before: seq<nat>, places: seq<nat>, addresses: seq<Address>, n: nat, af: int)
    requires |addresses| == n + 1
    requires forall i, j :: 0 <= i < j < |before| ==> before[i] < before[j]
    requires forall i :: 0 <= i < |before| ==> before[i] < n && addresses[..n][before[i]].family == af
    requires places == if addresses[n].family == af then before + [n] else before
    ensures forall i, j :: 0 <= i < j < |places| ==> places[i] < places[j]
    ensures forall i :: 0 <= i < |places| ==> places[i] < |addresses| && addresses[places[i]].family == af
  {
  }

  lemma {:induction false} RawAt(m: seq<Address>, size: nat, k: nat)
    requires (forall a :: a in m ==> size <= |a.address|) && k < |m|
    ensures |Raw(m, size)| == |m| && Raw(m, size)[k] == m[k].address[..size]
    decreases |m|
  {
    if |m| > 1 {
      RawAt(m[1..], size, if k > 0 then k - 1 else 0);
    } else {
      assert Raw(m[1..], size) == [];
    }
  }

  lemma {:induction false} RawLength(m: seq<Address>, size: nat)
    requires forall a :: a in m ==> size <= |a.address|
    ensures |Raw(m, size)| == |m|
  {
    if m != [] {
      RawAt(m, size, 0);
    }
  }

  // The list a caller reads holds the first `size` bytes of the addresses at those places.
  ghost predicate FirstBytes(list: seq<seq<byte>>, addresses: seq<Address>, places: seq<nat>, size: nat) {
    |list| == |places| && forall k :: 0 <= k < |list| && places[k] < |addresses| ==>
                            size <= |addresses[places[k]].address| && list[k] == addresses[places[k]].address[..size]
  }

  ghost predicate Holds(mem: seq<byte>, base: nat, w: nat, h: Hostent, hn: seq<byte>, addresses: seq<Address>,
                        af: int, size: nat, places: seq<nat>)
    requires IsWordSize(w)
  {
    && Picks(places, addresses, af) && h.addrtype == af && h.length == size
    && base <= h.name && ReadString(mem, h.name - base) == Some(hn)
    && base <= h.aliases && ReadList(mem, base, h.aliases - base, w, size) == Some([])
    && base <= h.addrList && ReadList(mem, base, h.addrList - base, w, size).Some?
    && FirstBytes(ReadList(mem, base, h.addrList - base, w, size).value, addresses, places, size)
  }

  // Four bytes of every IPv4 address there is, in order, when that family was asked for,
  // and all sixteen of every IPv6 address when that one was
  ghost predicate ReplyHolds(mem: seq<byte>, base: nat, w: nat, h: Hostent, hn: seq<byte>,
                             addresses: seq<Address>, af: int)
    requires IsWordSize(w)
  {
    && (af == 2 ==> exists places :: Holds(mem, base, w, h, hn, addresses, af, 4, places))
    && (af == 10 ==> exists places :: Holds(mem, base, w, h, hn, addresses, af, 16, places))
  }

  lemma RawIsFirstBytes(m: seq<Address>, addresses: seq<Address>, places: seq<nat>, size: nat)
    requires FoundAt(m, places, addresses) && forall a :: a in m ==> size <= |a.address|
    ensures FirstBytes(Raw(m, size), addresses, places, size)
  {
    RawLength(m, size);
    forall k | 0 <= k < |m|
      ensures size <= |addresses[places[k]].address| && Raw(m, size)[k] == addresses[places[k]].address[..size]
    {
      RawAt(m, size, k);
      assert m[k] in m;
    }
  }

  lemma DeliversHolds(mem: seq<byte>, base: nat, w: nat, h: Hostent, hn: seq<byte>, af: int, m: seq<Address>,
                      addresses: seq<Address>, places: seq<nat>, size: nat)
    requires IsWordSize(w) && size == AddressSize(af) <= 16 && forall a :: a in m ==> |a.address| == 16
    requires Delivers(mem, base, w, h, hn, af, m) && Picks(places, addresses, af) && FoundAt(m, places, addresses)
    ensures Holds(mem, base, w, h, hn, addresses, af, size, places)
  {
    RawIsFirstBytes(m, addresses, places, size);
  }

  lemma ReplyMeans(mem: seq<byte>, base: nat, w: nat, h: Hostent, hn: seq<byte>, af: int, addresses: seq<Address>)
    requires IsWordSize(w) && AllWellFormed(addresses)
    requires forall a :: a in Matching(addresses, af) ==> |a.address| == 16
    requires Delivers(mem, base, w, h, hn, af, Matching(addresses, af))
    ensures ReplyHolds(mem, base, w, h, hn, addresses, af)
  {
    var m := Matching(addresses, af);
    var places := MatchingPicks(addresses, af);
    if af == 2 {
      DeliversHolds(mem, base, w, h, hn, af, m, addresses, places, 4);
    } else if af == 10 {
      DeliversHolds(mem, base, w, h, hn, af, m, addresses, places, 16);
    }
  }

  // ms as the code computes it, with products
  lemma SizeAsWritten(l: nat, c: nat, af: int, w: nat)
    requires IsWordSize(w)
    ensures HostentSize(l, c, af, w)
            == Align(l + 1, w) + w + (if c > 0 then c else 1) * Align(AddressSize(af), w)
               + (if c > 0 then c + 1 else 2) * w
  {
    ProductsWrittenOut(if c > 0 then c else 1, af, w);
    ProductsWrittenOut(if c > 0 then c + 1 else 2, af, w);
  }

  method FillInHostent(hn: seq<byte>, af: int, addresses: seq<Address>, buffer: array<byte>, base: nat, w: nat)
    returns (r: HostReply)
    requires Addressable(base, buffer.Length, w) && IsCString(hn) && AllWellFormed(addresses)
    modifies buffer
    ensures forall a :: a in Matching(addresses, af) ==> |a.address| == 16
    ensures var c := |Matching(addresses, af)|;
            var ms := HostentSize(|hn|, c, af, w);
            && (buffer.Length < ms ==>
                  r == HostReply(TryAgain, ENOMEM, NO_RECOVERY, None) && buffer[..] == old(buffer[..]))
            && (buffer.Length >= ms && c == 0 ==>
                  && r == HostReply(TryAgain, ENOMEM, NO_RECOVERY, None)
                  && SameOutside(old(buffer[..]), buffer[..], 0, AddrsAt(|hn|, w)))
            && (buffer.Length >= ms && c > 0 ==>
                  && Succeeds(r, old(buffer[..]), buffer[..], base, w, hn, af, Matching(addresses, af))
                  && ReplyHolds(buffer[..], base, w, r.host.value, hn, addresses, af))
  {
    MatchingAreAddresses(addresses, af);
    var c := CountMatching(addresses, af);
    var l := |hn|;
    SizeAsWritten(l, c, af, w);
    var ms := Align(l + 1, w) + w + (if c > 0 then c else 1) * Align(AddressSize(af), w)
              + (if c > 0 then c + 1 else 2) * w;
    if buffer.Length < ms {
      return HostReply(TryAgain, ENOMEM, NO_RECOVERY, None);
    }
    Layout(l, c, af, w);
    var aliases := AliasesAt(l, w);
    FillNameAndAliases(buffer, hn, w, aliases);
    var addrs := aliases + w;
    if c == 0 {
      return HostReply(TryAgain, ENOMEM, NO_RECOVERY, None);
    }
    ghost var named := buffer[..];
    var host := FillHost(buffer, base, hn, af, w, addresses, aliases, c, ms);
    SameOutsideTwice(old(buffer[..]), named, buffer[..], 0, addrs, ms, ms);
    ReplyMeans(buffer[..], base, w, host, hn, af, addresses);
    r := HostReply(Success, NoErrno, NoHErrno, Some(host));
  }

  // gethostbyname3_r: an unspecified family means IPv4, any other than the two is
  // refused. Both this and gethostbyname4_r ask for the name of the host itself first and
  // give up when the system has none; failure is its error number then.
  method GetHostByName3(name: seq<byte>, af: int, failure: Option<int>, addresses: seq<Address>,
                        buffer: array<byte>, base: nat, w: nat)
    returns (r: HostReply)
    requires Addressable(base, buffer.Length, w) && IsCString(name) && AllWellFormed(addresses)
    modifies buffer
    ensures var family := if af == AF_UNSPEC then AF_INET else af;
            && (family != AF_INET && family != AF_INET6 ==>
                  r == HostReply(Unavail, EAFNOSUPPORT, NO_DATA, None) && buffer[..] == old(buffer[..]))
            && ((family == AF_INET || family == AF_INET6) && failure.Some? ==>
                  && r == HostReply(Unavail, SystemErrno(failure.value), NO_RECOVERY, None)
                  && buffer[..] == old(buffer[..]))
            && (forall a :: a in Matching(addresses, family) ==> |a.address| == 16)
            && (r.status == Success <==>
                  && (family == AF_INET || family == AF_INET6) && failure.None?
                  && Matching(addresses, family) != []
                  && HostentSize(|name|, |Matching(addresses, family)|, family, w) <= buffer.Length)
            && (r.status == Success ==>
                  && Succeeds(r, old(buffer[..]), buffer[..], base, w, name, family, Matching(addresses, family))
                  && ReplyHolds(buffer[..], base, w, r.host.value, name, addresses, family))
            && (family in {AF_INET, AF_INET6} && failure.None? && r.status != Success ==>
                  r == HostReply(TryAgain, ENOMEM, NO_RECOVERY, None))
  {
    var family := if af == AF_UNSPEC then AF_INET else af;
    MatchingAreAddresses(addresses, family);
    if family != AF_INET && family != AF_INET6 {
      return HostReply(Unavail, EAFNOSUPPORT, NO_DATA, None);
    }
    if failure.Some? {
      return HostReply(Unavail, SystemErrno(failure.value), NO_RECOVERY, None);
    }
    r := FillInHostent(name, family, addresses, buffer, base, w);
  }

  // ---------------------------------------------------------------------
  // gethostbyname4_r: a linked list of tuples instead of arrays

  // ALIGN(sizeof(struct gaih_addrtuple)): two pointers, a family, four words of address
  // and a scope.
  function TupleSize(w: nat): nat
    requires IsWordSize(w)
  {
    if w == 4 then 32 else 40
  }

  function Tuples(k: nat, w: nat): nat
    requires IsWordSize(w)
  {
    if w == 4 then 32 * k else 40 * k
  }

  // int to uint32_t
  function ScopeId(ifindex: int): nat { ifindex % 0x1_0000_0000 }

  // struct gaih_addrtuple as its reader sees it, with the address it was found at
  datatype Tuple = Tuple(at: nat, name: nat, family: nat, address: seq<byte>, scope: nat)

  datatype TupleReply = TupleReply(status: Status, errno: Errno, herrno: HErrno, pat: Option<nat>)

  // Follows `next` from p, at most `steps` times.
  function ReadTuples(mem: seq<byte>, base: nat, p: nat, w: nat, steps: nat): Option<seq<Tuple>>
    requires IsWordSize(w)
    decreases steps
  {
    if p == 0 then Some([])
    else if steps == 0 || p < base || p - base + TupleSize(w) > |mem| then None
    else
      var off := p - base;
      var rest := ReadTuples(mem, base, ReadPointer(mem, off, w), w, steps - 1);
      if rest.None? then None
      else
        Some([Tuple(p, ReadPointer(mem, off + w, w), ReadPointer(mem, off + w + w, 4),
                    mem[off + w + w + 4..off + w + w + 20], ReadPointer(mem, off + w + w + 20, 4))] + rest.value)
  }

  ghost predicate NodeAt(mem: seq<byte>, off: nat, w: nat, next: nat, name: nat, a: Address)
    requires IsWordSize(w) && WellFormed(a)
  {
    && PointerAt(mem, off, w, next)
    && PointerAt(mem, off + w, w, name)
    && PointerAt(mem, off + w + w, 4, a.family)
    && At(mem, off + w + w + 4, a.address)
    && PointerAt(mem, off + w + w + 20, 4, ScopeId(a.ifindex))
  }

  lemma NodeKept(mem: seq<byte>, mem': seq<byte>, lo: nat, hi: nat, off: nat, w: nat, next: nat, name: nat, a: Address)
    requires IsWordSize(w) && WellFormed(a) && SameOutside(mem, mem', lo, hi) && NodeAt(mem, off, w, next, name, a)
    requires off + TupleSize(w) <= lo
    ensures NodeAt(mem', off, w, next, name, a)
  {
    PointerKept(mem, mem', lo, hi, off, w, next);
    PointerKept(mem, mem', lo, hi, off + w, w, name);
    PointerKept(mem, mem', lo, hi, off + w + w, 4, a.family);
    AtKept(mem, mem', lo, hi, off + w + w + 4, a.address);
    PointerKept(mem, mem', lo, hi, off + w + w + 20, 4, ScopeId(a.ifindex));
  }

  lemma FourBytes()
    ensures Pow256(4) == 0x1_0000_0000
  {
    assert Pow256(2) == 256 * (256 * Pow256(0));
    assert Pow256(4) == 256 * (256 * Pow256(2));
  }

  // The two pointers at the front of a tuple
  method FillLinks(mem: array<byte>, off: nat, w: nat, next: nat, name: nat)
    requires IsWordSize(w) && off + w + w <= mem.Length && next < Pow256(w) && name < Pow256(w)
    modifies mem
    ensures PointerAt(mem[..], off, w, next) && PointerAt(mem[..], off + w, w, name)
    ensures SameOutside(old(mem[..]), mem[..], off, off + w + w)
  {
    WritePointer(mem, off, w, next);
    ghost var before := mem[..];
    WritePointer(mem, off + w, w, name);
    PointerKept(before, mem[..], off + w, off + w + w, off, w, next);
  }

  // Its family, address and scope
  method FillBody(mem: array<byte>, off: nat, a: Address)
    requires off + 24 <= mem.Length && WellFormed(a)
    modifies mem
    ensures PointerAt(mem[..], off, 4, a.family) && At(mem[..], off + 4, a.address)
    ensures PointerAt(mem[..], off + 20, 4, ScopeId(a.ifindex))
    ensures SameOutside(old(mem[..]), mem[..], off, off + 24)
  {
    FourBytes();
    WritePointer(mem, off, 4, a.family);
    ghost var mem1 := mem[..];
    WritePointer(mem, off + 20, 4, ScopeId(a.ifindex));
    ghost var mem2 := mem[..];
    PointerKept(mem1, mem2, off + 20, off + 24, off, 4, a.family);
    Write(mem, off + 4, a.address);
    PointerKept(mem2, mem[..], off + 4, off + 20, off, 4, a.family);
    PointerKept(mem2, mem[..], off + 4, off + 20, off + 20, 4, ScopeId(a.ifindex));
  }

  method FillNode(mem: array<byte>, off: nat, w: nat, next: nat, name: nat, a: Address)
    requires IsWordSize(w) && off + TupleSize(w) <= mem.Length && WellFormed(a)
    requires next < Pow256(w) && name < Pow256(w)
    modifies mem
    ensures NodeAt(mem[..], off, w, next, name, a)
    ensures SameOutside(old(mem[..]), mem[..], off, off + TupleSize(w))
  {
    FillLinks(mem, off, w, next, name);
    ghost var linked := mem[..];
    FillBody(mem, off + w + w, a);
    PointerKept(linked, mem[..], off + w + w, off + TupleSize(w), off, w, next);
    PointerKept(linked, mem[..], off + w + w, off + TupleSize(w), off + w, w, name);
  }

  // What `next` holds in the k-th tuple written: the one written before it.
  function Link(base: nat, start: nat, w: nat, k: nat): nat
    requires IsWordSize(w)
  {
    if k == 0 then 0 else base + start + Tuples(k - 1, w)
  }

  // The first k tuples written hold the last k addresses, the last one first.
  ghost predicate Nodes(mem: seq<byte>, base: nat, start: nat, w: nat, addresses: seq<Address>, k: nat)
    requires IsWordSize(w) && k <= |addresses| && AllWellFormed(addresses)
  {
    k > 0 ==>
      && Nodes(mem, base, start, w, addresses, k - 1)
      && NodeAt(mem, start + Tuples(k - 1, w), w, Link(base, start, w, k - 1), base, addresses[|addresses| - k])
  }

  lemma TuplesInOrder(j: nat, k: nat, w: nat)
    requires IsWordSize(w) && j < k
    ensures Tuples(j, w) + TupleSize(w) <= Tuples(k, w)
    ensures Tuples(j + 1, w) == Tuples(j, w) + TupleSize(w)
  {
  }

  method FillOneTuple(mem: array<byte>, base: nat, start: nat, w: nat, addresses: seq<Address>, n: nat, prev: nat)
    requires Addressable(base, mem.Length, w) && AllWellFormed(addresses) && n < |addresses|
    requires start + Tuples(|addresses|, w) <= mem.Length && prev == Link(base, start, w, n)
    requires Nodes(mem[..], base, start, w, addresses, n)
    modifies mem
    ensures Nodes(mem[..], base, start, w, addresses, n + 1)
    ensures SameOutside(old(mem[..]), mem[..], start, start + Tuples(|addresses|, w))
  {
    ghost var was, lo, hi := mem[..], start + Tuples(n, w), start + Tuples(n, w) + TupleSize(w);
    ghost var a := addresses[|addresses| - 1 - n];
    TuplesInOrder(n, |addresses|, w);
    LinkFits(base, start, w, n, mem.Length);
    FillNode(mem, start + Tuples(n, w), w, prev, base, addresses[|addresses| - 1 - n]);
    NodesKept(was, mem[..], lo, hi, base, start, w, addresses, n);
    NodesOneMore(mem[..], base, start, w, addresses, n, lo, prev, a);
    SameOutsideMore(was, mem[..], lo, hi, start, start + Tuples(|addresses|, w));
  }

  lemma NodesOneMore(mem: seq<byte>, base: nat, start: nat, w: nat, addresses: seq<Address>, n: nat,
                     off: nat, prev: nat, a: Address)
    requires IsWordSize(w) && AllWellFormed(addresses) && n < |addresses| && a == addresses[|addresses| - 1 - n]
    requires Nodes(mem, base, start, w, addresses, n)
    requires off == start + Tuples(n, w) && prev == Link(base, start, w, n) && WellFormed(a)
    requires NodeAt(mem, off, w, prev, base, a)
    ensures Nodes(mem, base, start, w, addresses, n + 1)
  {
  }

  lemma SameOutsideMore(mem: seq<byte>, mem': seq<byte>, lo: nat, hi: nat, lo': nat, hi': nat)
    requires SameOutside(mem, mem', lo, hi) && lo' <= lo && hi <= hi'
    ensures SameOutside(mem, mem', lo', hi')
  {
  }

  lemma LinkFits(base: nat, start: nat, w: nat, n: nat, length: nat)
    requires Addressable(base, length, w) && start + Tuples(n, w) < length
    ensures Link(base, start, w, n) < Pow256(w) && base < Pow256(w)
  {
  }

  lemma {:induction false} NodesKept(mem: seq<byte>, mem': seq<byte>, lo: nat, hi: nat, base: nat, start: nat, w: nat,
                                     addresses: seq<Address>, k: nat)
    requires IsWordSize(w) && k <= |addresses| && AllWellFormed(addresses)
    requires SameOutside(mem, mem', lo, hi) && Nodes(mem, base, start, w, addresses, k)
    requires start + Tuples(k, w) <= lo
    ensures Nodes(mem', base, start, w, addresses, k)
    decreases k
  {
    if k > 0 {
      var a := addresses[|addresses| - k];
      var off, next, _ := LastNode(mem, base, start, w, addresses, k);
      TuplesInOrder(k - 1, k, w);
      NodesKept(mem, mem', lo, hi, base, start, w, addresses, k - 1);
      NodeKept(mem, mem', lo, hi, off, w, next, base, a);
      NodesOneMore(mem', base, start, w, addresses, k - 1, off, next, a);
    }
  }

  // The list is built backwards, so that it reads forwards.
  method FillTuples(mem: array<byte>, base: nat, start: nat, w: nat, addresses: seq<Address>) returns (prev: nat)
    requires Addressable(base, mem.Length, w) && AllWellFormed(addresses)
    requires start + Tuples(|addresses|, w) <= mem.Length
    modifies mem
    ensures Nodes(mem[..], base, start, w, addresses, |addresses|) && prev == Link(base, start, w, |addresses|)
    ensures SameOutside(old(mem[..]), mem[..], start, start + Tuples(|addresses|, w))
  {
    var n, idx := 0, start;
    ghost var ms := start + Tuples(|addresses|, w);
    prev := 0;
    while n < |addresses|
      invariant n <= |addresses| && idx == start + Tuples(n, w) && prev == Link(base, start, w, n)
      invariant Nodes(mem[..], base, start, w, addresses, n)
      invariant SameOutside(old(mem[..]), mem[..], start, ms)
    {
      ghost var before := mem[..];
      FillOneTuple(mem, base, start, w, addresses, n, prev);
      SameOutsideTwice(old(mem[..]), before, mem[..], start, start, ms, ms);
      TuplesInOrder(n, |addresses|, w);
      prev := base + idx;
      idx := idx + TupleSize(w);
      n := n + 1;
    }
    assert idx == ms;
  }

  function TupleOf(a: Address, at: nat, name: nat): Tuple
    requires WellFormed(a)
  {
    Tuple(at, name, a.family, a.address, ScopeId(a.ifindex))
  }

  // What the reader should see: the addresses in order, each with the name at `base`.
  ghost predicate Lists(t: seq<Tuple>, addresses: seq<Address>, base: nat, start: nat, w: nat)
    requires IsWordSize(w) && AllWellFormed(addresses)
  {
    ListsFrom(t, addresses, 0, base, start, w)
  }

  // The same of the addresses from the n-th on
  ghost predicate ListsFrom(t: seq<Tuple>, addresses: seq<Address>, n: nat, base: nat, start: nat, w: nat)
    requires IsWordSize(w) && AllWellFormed(addresses) && n <= |addresses|
  {
    && |t| == |addresses| - n
    && forall i :: 0 <= i < |t| ==> IsTuple(t[i], addresses[n + i], base + start + Tuples(|t| - 1 - i, w), base)
  }

  ghost predicate IsTuple(t: Tuple, a: Address, at: nat, name: nat) {
    && t.at == at && t.name == name && t.family == a.family && t.address == a.address
    && t.scope == a.ifindex % 0x1_0000_0000
  }

  // Following `next` from p shows the addresses in order.
  ghost predicate ReadsAs(mem: seq<byte>, base: nat, start: nat, w: nat, addresses: seq<Address>, p: nat, steps: nat)
    requires IsWordSize(w) && AllWellFormed(addresses)
  {
    var r := ReadTuples(mem, base, p, w, steps);
    r.Some? && Lists(r.value, addresses, base, start, w)
  }

  lemma ReadOneTuple(mem: seq<byte>, base: nat, off: nat, w: nat, next: nat, name: nat, a: Address, p: nat,
                     steps: nat, rest: seq<Tuple>)
    requires IsWordSize(w) && WellFormed(a) && base > 0 && NodeAt(mem, off, w, next, name, a)
    requires p == base + off && steps > 0 && ReadTuples(mem, base, next, w, steps - 1) == Some(rest)
    ensures ReadTuples(mem, base, p, w, steps) == Some([TupleOf(a, p, name)] + rest)
  {
  }

  function Expected(addresses: seq<Address>, n: nat, base: nat, start: nat, w: nat): seq<Tuple>
    requires IsWordSize(w) && AllWellFormed(addresses) && n <= |addresses|
    decreases |addresses| - n
  {
    if n == |addresses| then []
    else
      [TupleOf(addresses[n], base + (start + Tuples(|addresses| - n - 1, w)), base)]
      + Expected(addresses, n + 1, base, start, w)
  }

  lemma {:induction false} ExpectedLists(addresses: seq<Address>, n: nat, base: nat, start: nat, w: nat)
    requires IsWordSize(w) && AllWellFormed(addresses) && n <= |addresses|
    ensures ListsFrom(Expected(addresses, n, base, start, w), addresses, n, base, start, w)
    decreases |addresses| - n
  {
    if n < |addresses| {
      var rest := Expected(addresses, n + 1, base, start, w);
      ExpectedLists(addresses, n + 1, base, start, w);
      OneMoreTuple(rest, addresses, n, base, start, w, base + (start + Tuples(|addresses| - n - 1, w)));
    }
  }

  // Following next from the k-th tuple written shows the addresses from the n-th on.
  lemma {:induction false} TuplesReadBack(mem: seq<byte>, base: nat, start: nat, w: nat, addresses: seq<Address>,
                                          k: nat, n: nat, p: nat, steps: nat)
    requires IsWordSize(w) && AllWellFormed(addresses) && base > 0 && n + k == |addresses| && k <= steps
    requires Nodes(mem, base, start, w, addresses, k) && p == Link(base, start, w, k)
    ensures ReadTuples(mem, base, p, w, steps) == Some(Expected(addresses, n, base, start, w))
    decreases k
  {
    if k > 0 {
      var next, rest := Link(base, start, w, k - 1), Expected(addresses, n + 1, base, start, w);
      TuplesReadBack(mem, base, start, w, addresses, k - 1, n + 1, next, steps - 1);
      OneTupleBack(mem, base, start, w, addresses, k, n, next, p, steps, rest);
    }
  }

  lemma OneTupleBack(mem: seq<byte>, base: nat, start: nat, w: nat, addresses: seq<Address>, k: nat, n: nat,
                     next: nat, p: nat, steps: nat, rest: seq<Tuple>)
    requires IsWordSize(w) && AllWellFormed(addresses) && base > 0 && n + k == |addresses| && k > 0 && steps > 0
    requires Nodes(mem, base, start, w, addresses, k) && p == Link(base, start, w, k)
    requires next == Link(base, start, w, k - 1) && rest == Expected(addresses, n + 1, base, start, w)
    requires ReadTuples(mem, base, next, w, steps - 1) == Some(rest)
    ensures ReadTuples(mem, base, p, w, steps) == Some(Expected(addresses, n, base, start, w))
  {
    var off, _, _ := LastNode(mem, base, start, w, addresses, k);
    ReadOneTuple(mem, base, off, w, next, base, addresses[n], p, steps, rest);
    ExpectedMore(addresses, n, base, start, w, p, rest);
  }

  lemma ExpectedMore(addresses: seq<Address>, n: nat, base: nat, start: nat, w: nat, p: nat, rest: seq<Tuple>)
    requires IsWordSize(w) && AllWellFormed(addresses) && n < |addresses|
    requires rest == Expected(addresses, n + 1, base, start, w) && p == base + (start + Tuples(|addresses| - n - 1, w))
    ensures Expected(addresses, n, base, start, w) == [TupleOf(addresses[n], p, base)] + rest
  {
  }

  lemma LastNode(mem: seq<byte>, base: nat, start: nat, w: nat, addresses: seq<Address>, k: nat)
    returns (off: nat, next: nat, p: nat)
    requires IsWordSize(w) && AllWellFormed(addresses) && 0 < k <= |addresses|
    requires Nodes(mem, base, start, w, addresses, k)
    ensures Nodes(mem, base, start, w, addresses, k - 1)
    ensures off == start + Tuples(k - 1, w) && p == base + off == Link(base, start, w, k)
    ensures next == Link(base, start, w, k - 1)
    ensures NodeAt(mem, off, w, next, base, addresses[|addresses| - k])
  {
    off := start + Tuples(k - 1, w);
    next, p := Link(base, start, w, k - 1), base + off;
  }

  lemma OneMoreTuple(rest: seq<Tuple>, addresses: seq<Address>, n: nat, base: nat, start: nat, w: nat, p: nat)
    requires IsWordSize(w) && AllWellFormed(addresses) && n < |addresses|
    requires ListsFrom(rest, addresses, n + 1, base, start, w)
    requires p == base + start + Tuples(|addresses| - n - 1, w)
    ensures ListsFrom([TupleOf(addresses[n], p, base)] + rest, addresses, n, base, start, w)
  {
    var t := [TupleOf(addresses[n], p, base)] + rest;
    forall i | 0 <= i < |t|
      ensures IsTuple(t[i], addresses[n + i], base + start + Tuples(|t| - 1 - i, w), base)
    {
      if i > 0 {
        assert t[i] == rest[i - 1] && addresses[n + 1 + (i - 1)] == addresses[n + i];
      }
    }
  }

  // The tuples lie on word boundaries and no two overlap.
  lemma TuplesApart(t: seq<Tuple>, addresses: seq<Address>, base: nat, start: nat, w: nat, i: nat, j: nat)
    requires IsWordSize(w) && AllWellFormed(addresses) && Lists(t, addresses, base, start, w)
    requires Aligned(start, w) && i < j < |t|
    ensures Aligned(t[i].at - base, w) && Aligned(t[j].at - base, w)
    ensures start <= t[j].at - base && t[j].at + TupleSize(w) <= t[i].at
  {
    TuplesInOrder(|t| - 1 - j, |t| - 1 - i, w);
    TupleAligned(start, |t| - 1 - i, w);
    TupleAligned(start, |t| - 1 - j, w);
    assert t[i].at - base == start + Tuples(|t| - 1 - i, w);
    assert t[j].at - base == start + Tuples(|t| - 1 - j, w);
  }

  lemma TupleAligned(start: nat, k: nat, w: nat)
    requires IsWordSize(w) && Aligned(start, w)
    ensures Aligned(start + Tuples(k, w), w)
  {
  }

  function ListSize(l: nat, n: nat, w: nat): nat
    requires IsWordSize(w)
  {
    Align(l + 1, w) + Tuples(if n > 0 then n else 2, w)
  }

  lemma ListSizeAsWritten(l: nat, n: nat, w: nat)
    requires IsWordSize(w)
    ensures ListSize(l, n, w) == Align(l + 1, w) + TupleSize(w) * (if n > 0 then n else 2)
  {
  }

  // What a caller reads out of a successful reply, however many steps it is ready to take.
  ghost predicate DeliversList(mem: seq<byte>, base: nat, w: nat, pat: nat, name: seq<byte>, addresses: seq<Address>)
    requires IsWordSize(w) && AllWellFormed(addresses)
  {
    && ReadString(mem, 0) == Some(name)
    && forall steps: nat {:trigger ReadTuples(mem, base, pat, w, steps)} :: steps >= |addresses| ==>
         ReadsAs(mem, base, Align(|name| + 1, w), w, addresses, pat, steps)
  }

  method GetHostByName4(name: seq<byte>, failure: Option<int>, addresses: seq<Address>,
                        buffer: array<byte>, base: nat, w: nat)
    returns (r: TupleReply)
    requires Addressable(base, buffer.Length, w) && IsCString(name) && AllWellFormed(addresses)
    modifies buffer
    ensures failure.Some? ==>
              && r == TupleReply(Unavail, SystemErrno(failure.value), NO_RECOVERY, None)
              && buffer[..] == old(buffer[..])
    ensures failure.None? ==>
              var ms := ListSize(|name|, |addresses|, w);
              && (buffer.Length < ms ==>
                    r == TupleReply(TryAgain, ENOMEM, NO_RECOVERY, None) && buffer[..] == old(buffer[..]))
              && (buffer.Length >= ms && addresses == [] ==>
                    && r == TupleReply(NotFound, ENOMEM, NO_RECOVERY, None)
                    && At(buffer[..], 0, name + [0])
                    && SameOutside(old(buffer[..]), buffer[..], 0, |name| + 1))
              && (buffer.Length >= ms && addresses != [] ==>
                    && r.status == Success && r.pat.Some?
                    && DeliversList(buffer[..], base, w, r.pat.value, name, addresses)
                    && SameOutside(old(buffer[..]), buffer[..], 0, ms))
  {
    if failure.Some? {
      return TupleReply(Unavail, SystemErrno(failure.value), NO_RECOVERY, None);
    }
    var l := |name|;
    ListSizeAsWritten(l, |addresses|, w);
    var ms := Align(l + 1, w) + TupleSize(w) * (if |addresses| > 0 then |addresses| else 2);
    if buffer.Length < ms {
      return TupleReply(TryAgain, ENOMEM, NO_RECOVERY, None);
    }
    Write(buffer, 0, name + [0]);
    var idx := Align(l + 1, w);
    if |addresses| == 0 {
      return TupleReply(NotFound, ENOMEM, NO_RECOVERY, None);
    }
    ghost var named := buffer[..];
    var pat := FillTuples(buffer, base, idx, w, addresses);
    AtKept(named, buffer[..], idx, ms, 0, name + [0]);
    ListDelivered(buffer[..], base, w, name, addresses, idx);
    SameOutsideTwice(old(buffer[..]), named, buffer[..], 0, idx, ms, ms);
    r := TupleReply(Success, NoErrno, NoHErrno, Some(pat));
  }

  lemma ListDelivered(mem: seq<byte>, base: nat, w: nat, name: seq<byte>, addresses: seq<Address>, start: nat)
    requires IsWordSize(w) && AllWellFormed(addresses) && base > 0 && IsCString(name) && start == Align(|name| + 1, w)
    requires At(mem, 0, name + [0]) && Nodes(mem, base, start, w, addresses, |addresses|)
    ensures DeliversList(mem, base, w, Link(base, start, w, |addresses|), name, addresses)
  {
    StringReadBack(mem, 0, name);
    forall steps: nat | steps >= |addresses|
      ensures ReadsAs(mem, base, start, w, addresses, Link(base, start, w, |addresses|), steps)
    {
      var p := Link(base, start, w, |addresses|);
      TuplesReadBack(mem, base, start, w, addresses, |addresses|, 0, p, steps);
      ExpectedLists(addresses, 0, base, start, w);
    }
  }
}
