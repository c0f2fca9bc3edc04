/** Bytes, big-endian words and longwords, and the byte-addressed memory the
    generated programs run in. */
module Bytes {

  type byte = x: int | 0 <= x < 0x100
  type u16 = x: int | 0 <= x < 0x1_0000
  type u32 = x: int | 0 <= x < 0x1_0000_0000

  // A memory maps addresses to bytes; an address nobody wrote reads as zero.
  type Mem = map<int, byte>

  function Byte(m: Mem, a: int): byte {
    if a in m then m[a] else 0
  }

  function Mod32(x: int): u32 {
    if 0 <= x < 0x1_0000_0000 then x else x % 0x1_0000_0000
  }

  /** The two's-complement value of a 16-bit displacement. */
  function Signed16(d: u16): int {
    if d < 0x8000 then d else d - 0x1_0000
  }

  // The k-th byte of a word, counted from the big end.
  function WordByte(v: u16, k: nat): byte
    requires k < 2
  {
    if k == 0 then v / 0x100 else v % 0x100
  }

  function WordBytes(v: u16): seq<byte> {
    seq(2, k requires 0 <= k < 2 => WordByte(v, k))
  }

  // The k-th byte of a longword, counted from the big end.
  function LongByte(v: u32, k: nat): byte
    requires k < 4
  {
    if k == 0 then v / 0x100_0000 else if k == 1 then v / 0x1_0000 % 0x100 else if k == 2 then v / 0x100 % 0x100 else v % 0x100
  }

  function LongBytes(v: u32): seq<byte> {
    seq(4, k requires 0 <= k < 4 => LongByte(v, k))
  }

  function JoinWord(b0: byte, b1: byte): u16 {
    b0 * 0x100 + b1
  }

  // The number a sequence of bytes stands for, big end first.
  function Number(bs: seq<byte>): nat {
    if bs == [] then 0 else Number(bs[..|bs| - 1]) * 0x100 + bs[|bs| - 1]
  }

  lemma NumberOfFour(b0: byte, b1: byte, b2: byte, b3: byte)
    ensures Number([b0, b1, b2, b3]) == b0 * 0x100_0000 + b1 * 0x1_0000 + b2 * 0x100 + b3
  {
    hide Number;
    NumberLast([], b0);
    NumberLast([b0], b1);
    NumberLast([b0, b1], b2);
    NumberLast([b0, b1, b2], b3);
    NumberNone();
    assert [] + [b0] == [b0] && [b0] + [b1] == [b0, b1] && [b0, b1] + [b2] == [b0, b1, b2];
    assert [b0, b1, b2] + [b3] == [b0, b1, b2, b3];
  }

  lemma NumberOfOne(b0: byte)
    ensures Number([b0]) == b0
  {
    hide Number;
    NumberLast([], b0);
    NumberNone();
    assert [] + [b0] == [b0];
  }

  lemma NumberOfTwo(b0: byte, b1: byte)
    ensures Number([b0, b1]) == JoinWord(b0, b1)
  {
    hide Number;
    NumberOfOne(b0);
    NumberLast([b0], b1);
    assert [b0] + [b1] == [b0, b1];
  }

  lemma NumberNone()
    ensures Number([]) == 0
  {
  }

  lemma NumberLast(bs: seq<byte>, b: byte)
    ensures Number(bs + [b]) == Number(bs) * 0x100 + b
  {
    assert (bs + [b])[..|bs|] == bs;
  }

  function JoinLong(b0: byte, b1: byte, b2: byte, b3: byte): u32 {
    NumberOfFour(b0, b1, b2, b3);
    Number([b0, b1, b2, b3])
  }

  function Word(m: Mem, a: int): u16 {
    JoinWord(Byte(m, a), Byte(m, a + 1))
  }

  function Long(m: Mem, a: int): u32 {
    JoinLong(Byte(m, a), Byte(m, a + 1), Byte(m, a + 2), Byte(m, a + 3))
  }

  function Window(m: Mem, a: int, n: nat): (w: seq<byte>)
    ensures |w| == n
    ensures forall i :: 0 <= i < n ==> w[i] == Byte(m, a + i)
  {
    seq<byte>(n, i => Byte(m, a + i))
  }

  /** Stores the bytes `bs` at consecutive addresses from `a`. */
  function StoreBytes(m: Mem, a: int, bs: seq<byte>): (r: Mem)
    ensures forall x :: a <= x < a + |bs| ==> Byte(r, x) == bs[x - a]
    ensures forall x :: !(a <= x < a + |bs|) ==> Byte(r, x) == Byte(m, x)
  {
    m + map x {:trigger bs[x - a]} | a <= x < a + |bs| :: bs[x - a]
  }

  function StoreLong(m: Mem, a: int, v: u32): (r: Mem)
    ensures Long(r, a) == v
    ensures forall x :: !(a <= x < a + 4) ==> Byte(r, x) == Byte(m, x)
  {
    LongSplits(v);
    StoreBytes(m, a, LongBytes(v))
  }

  lemma LongSplits(v: u32)
    ensures var b := LongBytes(v); JoinLong(b[0], b[1], b[2], b[3]) == v
  {
    var b := LongBytes(v);
    NumberOfFour(b[0], b[1], b[2], b[3]);
    hide Number;
    var h := v / 0x100;
    assert v / 0x1_0000 == h / 0x100;
    assert v / 0x100_0000 == h / 0x100 / 0x100;
  }

  lemma WordSplits(v: u16)
    ensures var b := WordBytes(v); JoinWord(b[0], b[1]) == v
  {
  }

  lemma LongJoins(b0: byte, b1: byte, b2: byte, b3: byte)
    ensures LongBytes(JoinLong(b0, b1, b2, b3)) == [b0, b1, b2, b3]
  {
    hide Number;
    NumberOfFour(b0, b1, b2, b3);
    var v := JoinLong(b0, b1, b2, b3);
    var h2 := b0 * 0x100 + b1;
    var h3 := h2 * 0x100 + b2;
    assert v / 0x100 == h3 && v % 0x100 == b3;
    assert v / 0x1_0000 == h3 / 0x100 == h2;
    assert v / 0x100_0000 == h2 / 0x100 == b0;
  }

  /** The bytes `bs` lie in memory from address `a`. */
  predicate CodeAt(m: Mem, a: int, bs: seq<byte>) {
    forall i :: 0 <= i < |bs| ==> Byte(m, a + i) == bs[i]
  }

  lemma CodeAtSplit(m: Mem, a: int, xs: seq<byte>, ys: seq<byte>)
    ensures CodeAt(m, a, xs + ys) <==> CodeAt(m, a, xs) && CodeAt(m, a + |xs|, ys)
  {
    var zs := xs + ys;
    if CodeAt(m, a, zs) {
      forall i | 0 <= i < |xs| ensures Byte(m, a + i) == xs[i] { assert zs[i] == xs[i]; }
      forall i | 0 <= i < |ys| ensures Byte(m, a + |xs| + i) == ys[i] {
        assert zs[|xs| + i] == ys[i];
        assert Byte(m, a + (|xs| + i)) == zs[|xs| + i];
      }
    }
    if CodeAt(m, a, xs) && CodeAt(m, a + |xs|, ys) {
      forall i | 0 <= i < |zs| ensures Byte(m, a + i) == zs[i] {
        if |xs| <= i {
          assert Byte(m, a + |xs| + (i - |xs|)) == ys[i - |xs|];
        }
      }
    }
  }

  /** The two memories hold the same bytes on [lo, hi). */
  ghost predicate Same(m: Mem, m': Mem, lo: int, hi: int) {
    forall x {:trigger Byte(m', x)} :: lo <= x < hi ==> Byte(m', x) == Byte(m, x)
  }

  /** The two memories hold the same bytes everywhere but on [lo, hi). */
  ghost predicate SameOutside(m: Mem, m': Mem, lo: int, hi: int) {
    forall x {:trigger Byte(m', x)} :: !(lo <= x < hi) ==> Byte(m', x) == Byte(m, x)
  }

  lemma CodeKept(m: Mem, m': Mem, a: int, bs: seq<byte>)
    requires CodeAt(m, a, bs) && Same(m, m', a, a + |bs|)
    ensures CodeAt(m', a, bs)
  {
  }

  lemma LongKept(m: Mem, m': Mem, a: int)
    requires Same(m, m', a, a + 4)
    ensures Long(m', a) == Long(m, a)
  {
  }

  predicate Disjoint(a: int, la: int, b: int, lb: int) {
    a + la <= b || b + lb <= a
  }
}
