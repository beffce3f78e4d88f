// Words of a descriptor set: 32 bits each, as the code requires
// (tunnel_measurement/pttcp/pttcp_util.h:46).
module BitWords {

  // The bits of a word, least significant first.
  type Word = w: seq<bool> | |w| == 32 witness
    [false, false, false, false, false, false, false, false, false, false, false, false, false, false, false, false,
     false, false, false, false, false, false, false, false, false, false, false, false, false, false, false, false]

  // ---------------------------------------------------------------------
  // The bitwise operators of C

  function And(a: Word, b: Word): Word { seq(32, i requires 0 <= i < 32 => a[i] && b[i]) }

  function Or(a: Word, b: Word): Word { seq(32, i requires 0 <= i < 32 => a[i] || b[i]) }

  function Not(a: Word): Word { seq(32, i requires 0 <= i < 32 => !a[i]) }

  // a << k: k places up, zeros coming in
  function ShiftLeft(a: Word, k: nat): Word { seq(32, i requires 0 <= i < 32 => k <= i && a[i - k]) }

  function One(): Word { seq(32, i => i == 0) }         // 1

  function MinusTwo(): Word { seq(32, i => i != 0) }    // -2

  function AllOnes(): Word { seq(32, i => true) }       // ~0

  function Zero(): Word { seq(32, i => false) }         // 0

  // The positions of the bits that are set.
  function Ones(w: Word): (s: set<nat>)
    ensures forall k :: k in s <==> 0 <= k < 32 && w[k]
  {
    set k: nat | k < 32 && w[k]
  }

  // w | (1 << k), the word step of FD_SET
  function SetBit(w: Word, k: nat): (r: Word)
    requires k < 32
    ensures Ones(r) == Ones(w) + {k}
  {
    Or(w, ShiftLeft(One(), k))
  }

  // w & ~(1 << k), the word step of FD_CLR
  function ClearBit(w: Word, k: nat): (r: Word)
    requires k < 32
    ensures Ones(r) == Ones(w) - {k}
  {
    And(w, Not(ShiftLeft(One(), k)))
  }

  // x & ~(-2 << k), the mask FD_POP applies to its last word
  function KeepUpTo(w: Word, k: nat): (r: Word)
    requires k < 32
    ensures Ones(r) == set j | j in Ones(w) && j <= k
  {
    And(w, Not(ShiftLeft(MinusTwo(), k)))
  }

  // x & (~0 << k), the mask FD_FFS applies to its first word
  function KeepFrom(w: Word, k: nat): (r: Word)
    requires k < 32
    ensures Ones(r) == set j | j in Ones(w) && k <= j
  {
    And(w, ShiftLeft(AllOnes(), k))
  }

  lemma ZeroIsEmpty(w: Word)
    ensures w == Zero() <==> Ones(w) == {}
  {
    if Ones(w) == {} {
      assert forall i :: 0 <= i < 32 && w[i] ==> i in Ones(w);
      assert w == Zero();
    }
  }

  // ffs: one plus the position of the least set bit, 0 for the zero word.
  method FindFirst(w: Word) returns (r: nat)
    ensures r == 0 <==> Ones(w) == {}
    ensures r != 0 ==> r - 1 in Ones(w) && forall j :: j in Ones(w) ==> r - 1 <= j
  {
    var k := 0;
    while k < 32
      invariant k <= 32
      invariant forall j :: 0 <= j < k ==> !w[j]
    {
      if w[k] {
        return k + 1;
      }
      k := k + 1;
    }
    r := 0;
  }

  // ---------------------------------------------------------------------
  // Population count. pop_count adds and shifts words as numbers, so it is
  // stated on bit-vectors; AsNumber gives a word as the number it stands for.

  function AsNumber(w: Word): bv32 {
    Join(ByteOf(w, 0), ByteOf(w, 1), ByteOf(w, 2), ByteOf(w, 3))
  }

  function Join(a: bv32, b: bv32, c: bv32, d: bv32): bv32 {
    a | (b << 8) | (c << 16) | (d << 24)
  }

  function ByteOf(w: Word, j: nat): bv32
    requires j < 4
  {
    var n := 8 * j;
    Pack(w[n], w[n + 1], w[n + 2], w[n + 3], w[n + 4], w[n + 5], w[n + 6], w[n + 7])
  }

  function Pack(a: bool, b: bool, c: bool, d: bool, e: bool, f: bool, g: bool, h: bool): bv32 {
    (if a then 1 else 0) | (if b then 2 else 0) | (if c then 4 else 0) | (if d then 8 else 0)
    | (if e then 16 else 0) | (if f then 32 else 0) | (if g then 64 else 0) | (if h then 128 else 0)
  }

  // Each bit can be read back from its byte.
  lemma PackedBits(a: bool, b: bool, c: bool, d: bool, e: bool, f: bool, g: bool, h: bool)
    ensures var x := Pack(a, b, c, d, e, f, g, h);
            && x <= 255
            && (x & 1 != 0) == a && (x & 2 != 0) == b && (x & 4 != 0) == c && (x & 8 != 0) == d
            && (x & 16 != 0) == e && (x & 32 != 0) == f && (x & 64 != 0) == g && (x & 128 != 0) == h
  {
  }

  // pop_count, step by step: bits are added in pairs, then in fields of 2, 4, 8
  // and 16 bits.
  function AddPairs(w: bv32): bv32 { (w & 0x55555555) + ((w >> 1) & 0x55555555) }

  function AddNibbles(w: bv32): bv32 { (w & 0x33333333) + ((w >> 2) & 0x33333333) }

  function AddBytes(w: bv32): bv32 { (w & 0x0F0F0F0F) + ((w >> 4) & 0x0F0F0F0F) }

  function AddHalves(w: bv32): bv32 { (w & 0x00FF00FF) + ((w >> 8) & 0x00FF00FF) }

  function AddWords(w: bv32): bv32 { (w & 0x0000FFFF) + ((w >> 16) & 0x0000FFFF) }

  function PopCount(w: bv32): bv32 {
    AddWords(AddHalves(ByteSums(w)))
  }

  // After three steps each byte holds the number of its own bits.
  function ByteSums(w: bv32): bv32 {
    AddBytes(AddNibbles(AddPairs(w)))
  }

  // The first three steps treat the four bytes alike, and apart.
  lemma BytesApart(a: bv32, b: bv32, c: bv32, d: bv32)
    requires a <= 255 && b <= 255 && c <= 255 && d <= 255
    ensures ByteSums(Join(a, b, c, d)) == Join(ByteSums(a), ByteSums(b), ByteSums(c), ByteSums(d))
  {
    PairsApart(a, b, c, d);
    NibblesApart(AddPairs(a), AddPairs(b), AddPairs(c), AddPairs(d));
    NibblesJoined(AddNibbles(AddPairs(a)), AddNibbles(AddPairs(b)), AddNibbles(AddPairs(c)), AddNibbles(AddPairs(d)));
  }

  lemma PairsApart(a: bv32, b: bv32, c: bv32, d: bv32)
    requires a <= 255 && b <= 255 && c <= 255 && d <= 255
    ensures AddPairs(Join(a, b, c, d)) == Join(AddPairs(a), AddPairs(b), AddPairs(c), AddPairs(d))
    ensures AddPairs(a) <= 170 && AddPairs(b) <= 170 && AddPairs(c) <= 170 && AddPairs(d) <= 170
  {
  }

  lemma NibblesApart(a: bv32, b: bv32, c: bv32, d: bv32)
    requires a <= 170 && b <= 170 && c <= 170 && d <= 170
    ensures AddNibbles(Join(a, b, c, d)) == Join(AddNibbles(a), AddNibbles(b), AddNibbles(c), AddNibbles(d))
    ensures AddNibbles(a) <= 102 && AddNibbles(b) <= 102 && AddNibbles(c) <= 102 && AddNibbles(d) <= 102
  {
  }

  lemma NibblesJoined(a: bv32, b: bv32, c: bv32, d: bv32)
    requires a <= 102 && b <= 102 && c <= 102 && d <= 102
    ensures AddBytes(Join(a, b, c, d)) == Join(AddBytes(a), AddBytes(b), AddBytes(c), AddBytes(d))
  {
  }

  function OneIf(bit: bool): (r: bv32)
    ensures r <= 1
  {
    if bit then 1 else 0
  }

  lemma ByteIsTree(a: bool, b: bool, c: bool, d: bool, e: bool, f: bool, g: bool, h: bool)
    ensures ByteSums(Pack(a, b, c, d, e, f, g, h))
         == ((OneIf(a) + OneIf(b)) + (OneIf(c) + OneIf(d))) + ((OneIf(e) + OneIf(f)) + (OneIf(g) + OneIf(h)))
  {
  }

  lemma AddSmall(a: bv32, b: bv32)
    requires a <= 16 && b <= 16
    ensures (a + b) as nat == a as nat + b as nat
  {
  }

  lemma AddFour(a: bv32, b: bv32, c: bv32, d: bv32)
    requires a <= 8 && b <= 8 && c <= 8 && d <= 8
    ensures ((a + b) + (c + d)) as nat == a as nat + b as nat + c as nat + d as nat
  {
    AddSmall(a, b);
    AddSmall(c, d);
    AddSmall(a + b, c + d);
  }

  function Count(bit: bool): nat { if bit then 1 else 0 }

  lemma OneIfCounts(bit: bool)
    ensures OneIf(bit) as nat == Count(bit)
  {
  }

  lemma FourCounted(a: bool, b: bool, c: bool, d: bool)
    ensures ((OneIf(a) + OneIf(b)) + (OneIf(c) + OneIf(d))) as nat == Count(a) + Count(b) + Count(c) + Count(d)
  {
    AddFour(OneIf(a), OneIf(b), OneIf(c), OneIf(d));
    OneIfCounts(a);
    OneIfCounts(b);
    OneIfCounts(c);
    OneIfCounts(d);
  }

  lemma ByteCounted(a: bool, b: bool, c: bool, d: bool, e: bool, f: bool, g: bool, h: bool)
    ensures ByteSums(Pack(a, b, c, d, e, f, g, h)) <= 8
    ensures ByteSums(Pack(a, b, c, d, e, f, g, h)) as nat
         == (Count(a) + Count(b) + Count(c) + Count(d)) + (Count(e) + Count(f) + Count(g) + Count(h))
  {
    var low, high := (OneIf(a) + OneIf(b)) + (OneIf(c) + OneIf(d)), (OneIf(e) + OneIf(f)) + (OneIf(g) + OneIf(h));
    FourCounted(a, b, c, d);
    FourCounted(e, f, g, h);
    ByteIsTree(a, b, c, d, e, f, g, h);
    SmallSum(OneIf(a), OneIf(b), OneIf(c), OneIf(d), OneIf(e), OneIf(f), OneIf(g), OneIf(h));
    AddSmall(low, high);
  }

  lemma SmallSum(a: bv32, b: bv32, c: bv32, d: bv32, e: bv32, f: bv32, g: bv32, h: bv32)
    requires a <= 1 && b <= 1 && c <= 1 && d <= 1 && e <= 1 && f <= 1 && g <= 1 && h <= 1
    ensures (a + b) + (c + d) <= 4 && (e + f) + (g + h) <= 4
    ensures ((a + b) + (c + d)) + ((e + f) + (g + h)) <= 8
  {
  }

  // The last two steps add the four bytes.
  lemma FoldBytes(a: bv32, b: bv32, c: bv32, d: bv32)
    requires a <= 8 && b <= 8 && c <= 8 && d <= 8
    ensures AddWords(AddHalves(Join(a, b, c, d))) == (a + b) + (c + d)
  {
  }

  lemma FoldByteCounts(a: bv32, b: bv32, c: bv32, d: bv32)
    requires a <= 8 && b <= 8 && c <= 8 && d <= 8
    ensures AddWords(AddHalves(Join(a, b, c, d))) as nat == a as nat + b as nat + c as nat + d as nat
  {
    FoldBytes(a, b, c, d);
    AddFour(a, b, c, d);
  }

  ghost function CountTo(w: Word, n: nat): nat
    requires n <= 32
  {
    if n == 0 then 0 else CountTo(w, n - 1) + Count(w[n - 1])
  }

  lemma OneByteMore(w: Word, j: nat)
    requires j < 4
    ensures ByteOf(w, j) <= 255 && ByteSums(ByteOf(w, j)) <= 8
    ensures CountTo(w, 8 * j + 8) == CountTo(w, 8 * j) + ByteSums(ByteOf(w, j)) as nat
  {
    var n := 8 * j;
    PackedBits(w[n], w[n + 1], w[n + 2], w[n + 3], w[n + 4], w[n + 5], w[n + 6], w[n + 7]);
    ByteCounted(w[n], w[n + 1], w[n + 2], w[n + 3], w[n + 4], w[n + 5], w[n + 6], w[n + 7]);
    FourMore(w, n);
    FourMore(w, n + 4);
  }

  lemma FourMore(w: Word, n: nat)
    requires n + 4 <= 32
    ensures CountTo(w, n + 4) == CountTo(w, n) + (Count(w[n]) + Count(w[n + 1]) + Count(w[n + 2]) + Count(w[n + 3]))
  {
    assert CountTo(w, n + 2) == CountTo(w, n + 1) + Count(w[n + 1]);
    assert CountTo(w, n + 3) == CountTo(w, n + 2) + Count(w[n + 2]);
  }

  // The sum by masks and shifts is the number of set bits, for every word.
  lemma PopCountCorrect(w: Word)
    ensures PopCount(AsNumber(w)) as nat == CountTo(w, 32)
  {
    OneByteMore(w, 0);
    OneByteMore(w, 1);
    OneByteMore(w, 2);
    OneByteMore(w, 3);
    var a, b, c, d := ByteOf(w, 0), ByteOf(w, 1), ByteOf(w, 2), ByteOf(w, 3);
    BytesApart(a, b, c, d);
    FoldByteCounts(ByteSums(a), ByteSums(b), ByteSums(c), ByteSums(d));
  }

  lemma {:induction false} CountIsSize(w: Word, n: nat)
    requires n <= 32
    ensures CountTo(w, n) == |set k: nat | k < n && w[k]|
  {
    if n > 0 {
      CountIsSize(w, n - 1);
      var s := set k: nat | k < n - 1 && w[k];
      assert (set k: nat | k < n && w[k]) == if w[n - 1] then s + {n - 1} else s;
    }
  }

  // pop_count of a word is the size of its set of ones.
  lemma PopCountIsSize(w: Word)
    ensures PopCount(AsNumber(w)) as nat == |Ones(w)|
  {
    PopCountCorrect(w);
    CountIsSize(w, 32);
  }
}
