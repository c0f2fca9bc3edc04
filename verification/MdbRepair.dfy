/** repair_hfs_mdb_stamps.py: a Master Directory Block in which stray opcode words
    overwrote fixed slots is repaired in place. */
module MdbRepair {
  import opened Bytes

  const MDB_LEN: nat := 512

  type Mdb = m: seq<byte> | |m| == MDB_LEN witness seq<byte>(MDB_LEN, _ => 0)

  // ---- Slots and stamps ----

  function SlotsFrom(base: nat): seq<nat>
    decreases MDB_LEN - base
  {
    if base >= MDB_LEN then [] else [base + 0x14, base + 0x1C, base + 0x30, base + 0x38] + SlotsFrom(base + 0x40)
  }

  /** The slots in the order the script visits them. */
  function Slots(): seq<nat> {
    [0x0C] + SlotsFrom(0)
  }

  predicate IsSlot(s: int): (slot: bool)
    ensures slot ==> 0x0C <= s && s + 2 <= MDB_LEN
  {
    s == 0x0C || (0 <= s < MDB_LEN && s % 0x40 in {0x14, 0x1C, 0x30, 0x38})
  }

  lemma {:induction false} SlotsFromMean(base: nat)
    requires base % 0x40 == 0
    ensures forall s: int :: s in SlotsFrom(base) <==> base <= s < MDB_LEN && s % 0x40 in {0x14, 0x1C, 0x30, 0x38}
    decreases MDB_LEN - base
  {
    if base < MDB_LEN {
      SlotsFromMean(base + 0x40);
      forall s: int | base <= s < base + 0x40
        ensures s % 0x40 == s - base
      {
      }
    }
  }

  lemma SlotsMean()
    ensures forall s: int :: s in Slots() <==> IsSlot(s)
  {
    SlotsFromMean(0);
  }

  function WordAt(m: seq<byte>, o: nat): u16
    requires o + 2 <= |m|
  {
    JoinWord(m[o], m[o + 1])
  }

  function LongAt(m: seq<byte>, o: nat): u32
    requires o + 4 <= |m|
  {
    JoinLong(m[o], m[o + 1], m[o + 2], m[o + 3])
  }

  predicate IsStamp(w: u16) {
    w == 0x229A || w == 0x51C9
  }

  predicate Stamped(m: Mdb, s: int) {
    IsSlot(s) && IsStamp(WordAt(m, s))
  }

  // ---- The repaired block ----

  // Byte i belongs to a stamped slot.
  predicate InStamp(m: Mdb, i: int) {
    Stamped(m, i) || Stamped(m, i - 1)
  }

  function Cleared(m: Mdb): Mdb {
    seq<byte>(MDB_LEN, i requires 0 <= i < MDB_LEN => if InStamp(m, i) then 0 else m[i])
  }

  function Put(m: Mdb, o: nat, w: u16): Mdb
    requires o + 2 <= MDB_LEN
  {
    m[o := w / 0x100][o + 1 := w % 0x100]
  }

  // drVBMSt and drNmAlBlks, which no slot covers.
  function BitmapStart(m: Mdb): u16 { WordAt(m, 0x0E) }
  function BlockCount(m: Mdb): u16 { WordAt(m, 0x12) }

  function CeilDiv(x: nat, y: nat): nat
    requires y > 0
  {
    (x + y - 1) / y
  }

  /** drAlBlSt as it is recomputed. */
  function FirstBlock(m: Mdb): nat {
    BitmapStart(m) + CeilDiv(BlockCount(m), 4096)
  }

  predicate FirstBlockRecomputed(m: Mdb) {
    Stamped(m, 0x1C) || WordAt(Cleared(m), 0x1C) == 0
  }

  /** The low word of drCTFlSize as it is recomputed. */
  function CatalogLow(m: Mdb): u16 {
    WordAt(m, 0x98) * LongAt(Cleared(m), 0x14) % 0x1_0000
  }

  // A repair that gets as far as writing the block back.
  predicate Succeeds(m: Mdb) {
    FirstBlockRecomputed(m) ==> FirstBlock(m) < 0x1_0000
  }

  function Repaired(m: Mdb): Mdb
    requires Succeeds(m)
  {
    var c := Cleared(m);
    var c1 := if FirstBlockRecomputed(m) then Put(c, 0x1C, FirstBlock(m)) else c;
    var c2 := if Stamped(m, 0x0C) then Put(c1, 0x0C, 7) else c1;
    if Stamped(m, 0x94) then Put(c2, 0x94, CatalogLow(m)) else c2
  }

  datatype Outcome = NoSignature | NothingToDo | Overflow | Fixed

  predicate HasSignature(m: Mdb) {
    m[0] == 0x42 && m[1] == 0x44
  }

  ghost predicate AnyStamped(m: Mdb) {
    exists s: int :: Stamped(m, s)
  }

  /** What the script does to a block, and the block it writes back. A recomputed drAlBlSt above 65535
      makes the byte store fail before anything is written. */
  ghost predicate Outcomes(m: Mdb, r: Outcome, m': Mdb) {
    if !HasSignature(m) then r == NoSignature && m' == m
    else if !AnyStamped(m) then r == NothingToDo && m' == m
    else if FirstBlockRecomputed(m) && FirstBlock(m) >= 0x1_0000 then r == Overflow && m' == m
    else r == Fixed && m' == Repaired(m)
  }

  // ---- The script ----

  method W(mdb: array<byte>, off: nat, val: u16)
    requires mdb.Length == MDB_LEN && off + 2 <= MDB_LEN
    modifies mdb
    ensures mdb[..] == Put(old(mdb[..]), off, val)
  {
    mdb[off], mdb[off + 1] := val / 0x100, val % 0x100;
  }

  method FindStamped(mdb: array<byte>) returns (stamped: seq<nat>)
    requires mdb.Length == MDB_LEN
    ensures forall s: int :: s in stamped <==> Stamped(mdb[..], s)
  {
    hide IsSlot, Slots;
    var all := Slots();
    SlotsMean();
    stamped := [];
    for k := 0 to |all|
      invariant forall s: int :: s in stamped <==> s in all[..k] && Stamped(mdb[..], s)
    {
      var s := all[k];
      assert s in all;
      if IsStamp(WordAt(mdb[..], s)) {
        stamped := stamped + [s];
      }
      assert all[..k + 1] == all[..k] + [s];
    }
    assert all[..|all|] == all;
  }

  // Byte i belongs to one of the slots listed.
  predicate Listed(slots: seq<nat>, i: int) {
    i in slots || i - 1 in slots
  }

  method ClearStamps(mdb: array<byte>, stamped: seq<nat>)
    requires mdb.Length == MDB_LEN && forall s: int :: s in stamped <==> Stamped(mdb[..], s)
    modifies mdb
    ensures mdb[..] == Cleared(old(mdb[..]))
  {
    hide IsSlot, IsStamp, WordAt;
    ghost var m := mdb[..];
    for k := 0 to |stamped|
      invariant forall i :: 0 <= i < MDB_LEN ==> mdb[i] == if Listed(stamped[..k], i) then 0 else m[i]
    {
      var s := stamped[k];
      assert Stamped(m, s);
      ghost var was := mdb[..];
      W(mdb, s, 0);
      assert stamped[..k + 1] == stamped[..k] + [s];
      forall i | 0 <= i < MDB_LEN
        ensures mdb[i] == if Listed(stamped[..k + 1], i) then 0 else m[i]
      {
        assert mdb[..][i] == Put(was, s, 0)[i];
      }
    }
    assert stamped[..|stamped|] == stamped;
    assert mdb[..] == Cleared(m);
  }

  /** Repairs the block stored in `disk`. */
  method Repair(disk: array<byte>) returns (r: Outcome)
    requires disk.Length == MDB_LEN
    modifies disk
    ensures Outcomes(old(disk[..]), r, disk[..])
  {
    hide IsSlot, IsStamp, Cleared, Put, CeilDiv, Stamped, WordAt, LongAt;
    ghost var m := disk[..];
    if !(disk[0] == 0x42 && disk[1] == 0x44) { return NoSignature; }
    var mdb := new byte[MDB_LEN](_ => 0);
    Copy(disk, mdb);
    assert mdb[..] == m;
    var stamped := FindStamped(mdb);
    assert forall s: int :: s in stamped <==> Stamped(m, s);
    if stamped == [] { return NothingToDo; }
    assert stamped[0] in stamped;
    ClearStamps(mdb, stamped);
    HeaderKept(m);
    var blocks, bitmap, size := WordAt(mdb[..], 0x12), WordAt(mdb[..], 0x0E), LongAt(mdb[..], 0x14);
    if 0x1C in stamped || WordAt(mdb[..], 0x1C) == 0 {
      var val := bitmap + CeilDiv(blocks, 4096);
      if val / 0x100 > 0xFF { return Overflow; }
      W(mdb, 0x1C, val);
    }
    if 0x0C in stamped {
      W(mdb, 0x0C, 7);
    }
    if 0x94 in stamped {
      CatalogCountKept(m);
      W(mdb, 0x94, WordAt(mdb[..], 0x98) * size % 0x1_0000);
    }
    Copy(mdb, disk);
    return Fixed;
  }

  // f.read and f.write of the one sector.
  method Copy(src: array<byte>, dst: array<byte>)
    requires src.Length == dst.Length && src != dst
    modifies dst
    ensures dst[..] == src[..]
  {
    for i := 0 to dst.Length
      invariant dst[..i] == src[..i]
    {
      dst[i] := src[i];
    }
  }

  // No slot covers the words the repair is computed from.
  lemma HeaderKept(m: Mdb)
    ensures WordAt(Cleared(m), 0x12) == BlockCount(m) && WordAt(Cleared(m), 0x0E) == BitmapStart(m)
    ensures WordAt(Cleared(m), 0x98) == WordAt(m, 0x98)
  {
    ClearedByte(m, 0x12);
    ClearedByte(m, 0x13);
    ClearedByte(m, 0x0E);
    ClearedByte(m, 0x0F);
    ClearedByte(m, 0x98);
    ClearedByte(m, 0x99);
  }

  lemma ClearedByte(m: Mdb, i: nat)
    requires i < MDB_LEN
    ensures Cleared(m)[i] == if InStamp(m, i) then 0 else m[i]
    ensures !IsSlot(i) && !IsSlot(i - 1) ==> Cleared(m)[i] == m[i]
  {
  }

  lemma CatalogCountKept(m: Mdb)
    ensures forall c: Mdb, v: u16 :: WordAt(Put(c, 0x1C, v), 0x98) == WordAt(c, 0x98)
    ensures forall c: Mdb, v: u16 :: WordAt(Put(c, 0x0C, v), 0x98) == WordAt(c, 0x98)
  {
  }

  // ---- What the repair touches ----

  /** Only the bytes of stamped slots and of a recomputed drAlBlSt change. */
  lemma TouchesOnlyStamps(m: Mdb, i: nat)
    requires Succeeds(m) && i < MDB_LEN
    requires !InStamp(m, i) && !(FirstBlockRecomputed(m) && (i == 0x1C || i == 0x1D))
    ensures Repaired(m)[i] == m[i]
  {
    hide IsStamp, WordAt, LongAt, CeilDiv, FirstBlock, CatalogLow, FirstBlockRecomputed, IsSlot;
    ClearedByte(m, i);
  }

  // The words of the repaired block, slot by slot.
  lemma RepairedSlot(m: Mdb, s: int)
    requires Succeeds(m) && IsSlot(s)
    ensures WordAt(Repaired(m), s) ==
      if s == 0x1C && FirstBlockRecomputed(m) then FirstBlock(m)
      else if s == 0x0C && Stamped(m, 0x0C) then 7
      else if s == 0x94 && Stamped(m, 0x94) then CatalogLow(m)
      else if Stamped(m, s) then 0 else WordAt(m, s)
  {
    hide IsStamp, LongAt, CeilDiv, FirstBlock, CatalogLow, FirstBlockRecomputed, Stamped, IsSlot, Cleared, Put, WordAt;
    SlotConsts();
    ClearedWord(m, s);
    var c := Cleared(m);
    var c1 := if FirstBlockRecomputed(m) then Put(c, 0x1C, FirstBlock(m)) else c;
    var c2 := if Stamped(m, 0x0C) then Put(c1, 0x0C, 7) else c1;
    if FirstBlockRecomputed(m) { PutSlot(c, 0x1C, FirstBlock(m), s); }
    if Stamped(m, 0x0C) { PutSlot(c1, 0x0C, 7, s); }
    if Stamped(m, 0x94) { PutSlot(c2, 0x94, CatalogLow(m), s); }
  }

  // ---- The repaired words, byte by byte ----

  /** A slot is stamped if its two bytes are 22 9A or 51 C9. */
  lemma StampedBytes(m: Mdb, s: int)
    requires IsSlot(s)
    ensures Stamped(m, s) <==> (m[s] == 0x22 && m[s + 1] == 0x9A) || (m[s] == 0x51 && m[s + 1] == 0xC9)
  {
    hide IsSlot;
  }

  /** drAlBlSt is recomputed where it is stamped and where it is zero. */
  lemma FirstBlockWhen(m: Mdb)
    ensures FirstBlockRecomputed(m) <==> Stamped(m, 0x1C) || (m[0x1C] == 0 && m[0x1D] == 0)
  {
    hide Stamped, Cleared, WordAt;
    SlotConsts();
    ClearedWord(m, 0x1C);
    WordZero(m, 0x1C);
  }

  lemma WordZero(m: Mdb, o: nat)
    requires o + 2 <= MDB_LEN
    ensures WordAt(m, o) == 0 <==> m[o] == 0 && m[o + 1] == 0
  {
  }

  /** A stamped low word of drCTFlSize becomes the low 16 bits of the block count in bytes 98 and 99 times the block
      size in bytes 14 to 17, whose high word is the second stamp slot and counts as zero if it is stamped. */
  lemma CatalogWord(m: Mdb)
    requires Succeeds(m) && Stamped(m, 0x94)
    ensures var size := if Stamped(m, 0x14) then Number(m[0x16..0x18]) else Number(m[0x14..0x18]);
            var low := Number(m[0x98..0x9A]) * size % 0x1_0000;
            Repaired(m)[0x94] == low / 0x100 && Repaired(m)[0x95] == low % 0x100
  {
    hide Stamped, Repaired, Cleared, LongAt, IsSlot, Number;
    CatalogBytes(m);
    BlockSizeBytes(m);
    assert m[0x98..0x9A] == [m[0x98], m[0x99]];
    NumberOfTwo(m[0x98], m[0x99]);
  }

  lemma CatalogBytes(m: Mdb)
    requires Succeeds(m) && Stamped(m, 0x94)
    ensures Repaired(m)[0x94] == CatalogLow(m) / 0x100 && Repaired(m)[0x95] == CatalogLow(m) % 0x100
  {
    hide Stamped, FirstBlockRecomputed, FirstBlock, CatalogLow, Cleared;
  }

  lemma BlockSizeBytes(m: Mdb)
    ensures LongAt(Cleared(m), 0x14) == if Stamped(m, 0x14) then Number(m[0x16..0x18]) else Number(m[0x14..0x18])
  {
    hide Stamped, IsSlot, WordAt, Number;
    var c := Cleared(m);
    SlotConsts();
    NotSlots(m);
    ClearedByte(m, 0x14);
    ClearedByte(m, 0x15);
    ClearedByte(m, 0x16);
    ClearedByte(m, 0x17);
    SizeSlot(m);
    assert m[0x14..0x18] == [m[0x14], m[0x15], m[0x16], m[0x17]] && m[0x16..0x18] == [m[0x16], m[0x17]];
    NumberOfFour(c[0x14], c[0x15], c[0x16], c[0x17]);
    NumberOfFour(m[0x14], m[0x15], m[0x16], m[0x17]);
    NumberOfTwo(m[0x16], m[0x17]);
  }

  // The first two of the four bytes are a slot, neither is part of another one.
  lemma SizeSlot(m: Mdb)
    ensures InStamp(m, 0x14) <==> Stamped(m, 0x14)
    ensures InStamp(m, 0x15) <==> Stamped(m, 0x14)
  {
  }

  lemma PutSlot(m: Mdb, o: int, w: u16, s: int)
    requires IsSlot(o) && IsSlot(s)
    ensures WordAt(Put(m, o, w), s) == if s == o then w else WordAt(m, s)
  {
    hide IsSlot;
    SlotEven(o);
    SlotEven(s);
    WordSplits(w);
  }

  lemma SlotEven(s: int)
    requires IsSlot(s)
    ensures s % 2 == 0
  {
  }

  lemma ClearedWord(m: Mdb, s: int)
    requires IsSlot(s)
    ensures WordAt(Cleared(m), s) == if Stamped(m, s) then 0 else WordAt(m, s)
  {
    hide IsStamp, IsSlot;
    SlotsApart(s);
    ClearedByte(m, s);
    ClearedByte(m, s + 1);
  }

  lemma SlotsApart(s: int)
    requires IsSlot(s)
    ensures !IsSlot(s - 1) && !IsSlot(s + 1)
  {
  }

  /** The recomputed words are not stamps themselves. */
  predicate NoNewStamp(m: Mdb) {
    && !(FirstBlockRecomputed(m) && (FirstBlock(m) == 0x229A || FirstBlock(m) == 0x51C9))
    && !(Stamped(m, 0x94) && IsStamp(CatalogLow(m)))
  }

  /** After a repair no slot holds a stamp word if and only if neither recomputed word happens to be one. */
  lemma StampsGone(m: Mdb)
    requires Succeeds(m)
    ensures !AnyStamped(Repaired(m)) <==> NoNewStamp(m)
  {
    hide IsSlot, CeilDiv, FirstBlock, CatalogLow, FirstBlockRecomputed, Repaired, WordAt;
    SlotConsts();
    RepairedSlot(m, 0x1C);
    RepairedSlot(m, 0x94);
    if !NoNewStamp(m) {
      if Stamped(m, 0x94) && IsStamp(CatalogLow(m)) {
        assert Stamped(Repaired(m), 0x94);
      } else {
        assert Stamped(Repaired(m), 0x1C);
      }
    } else {
      forall s: int
        ensures !Stamped(Repaired(m), s)
      {
        if IsSlot(s) { RepairedSlot(m, s); }
      }
    }
  }

  // A block of a volume of one allocation block whose bitmap begins at vbm, stamped at drAlBlSt.
  function Fossil(vbm: u16): Mdb {
    seq<byte>(MDB_LEN, i => FossilByte(vbm, i))
  }

  function FossilByte(vbm: u16, i: int): byte {
    match i
    case 0 => 0x42 case 1 => 0x44                              // signature
    case 0x0E => vbm / 0x100 case 0x0F => vbm % 0x100          // drVBMSt
    case 0x13 => 1                                             // drNmAlBlks
    case 0x1C => 0x22 case 0x1D => 0x9A                        // drAlBlSt
    case _ => 0
  }

  lemma FossilWords(vbm: u16)
    ensures var m := Fossil(vbm);
            HasSignature(m) && BitmapStart(m) == vbm && BlockCount(m) == 1 && Stamped(m, 0x1C) && FirstBlock(m) == vbm + 1
  {
    WordSplits(vbm);
  }

  /** A repair that leaves a stamp: with the bitmap at 0x2299 the recomputed drAlBlSt is the stamp word 0x229A. */
  lemma StampStays()
    ensures var m := Fossil(0x2299);
            Succeeds(m) && !NoNewStamp(m) && AnyStamped(Repaired(m)) && Outcomes(m, Fixed, Repaired(m))
  {
    hide Fossil, FirstBlock, Repaired, CatalogLow;
    FossilWords(0x2299);
    StampsGone(Fossil(0x2299));
  }

  /** A repair that fails: with the bitmap at 0xFFFF the recomputed drAlBlSt does not fit its word. */
  lemma FirstBlockOverflows()
    ensures var m := Fossil(0xFFFF); !Succeeds(m) && Outcomes(m, Overflow, m)
  {
    hide Fossil, FirstBlock;
    FossilWords(0xFFFF);
  }

  lemma SlotConsts()
    ensures IsSlot(0x0C) && IsSlot(0x1C) && IsSlot(0x94) && IsSlot(0x14)
  {
  }

  /** That is so on every volume whose block size is a multiple of 512 and whose bitmap begins well below
      sector 0x229A. */
  lemma SoundVolumesLoseStamps(m: Mdb)
    requires Succeeds(m) && LongAt(Cleared(m), 0x14) % 512 == 0 && BitmapStart(m) + 16 < 0x229A
    ensures !AnyStamped(Repaired(m))
  {
    hide Cleared, WordAt, LongAt, Stamped, FirstBlockRecomputed, Repaired;
    StampsGone(m);
    MultipleOf512(WordAt(m, 0x98), LongAt(Cleared(m), 0x14));
  }

  lemma MultipleOf512(n: nat, size: nat)
    requires size % 512 == 0
    ensures n * size % 0x1_0000 % 512 == 0
  {
    var k := size / 512;
    assert n * size == n * k * 512;
    var q := n * k * 512 / 0x1_0000;
    assert n * k * 512 % 0x1_0000 == 512 * (n * k - 128 * q);
  }

  // The words the repair is computed from are the same after it.
  lemma InputsKept(m: Mdb)
    requires Succeeds(m)
    ensures var m' := Repaired(m); FirstBlock(m') == FirstBlock(m) && CatalogLow(m') == CatalogLow(m)
  {
    hide CeilDiv, IsStamp, Repaired, Cleared, FirstBlockRecomputed;
    HeaderWords(m);
    BlockSizeKept(m);
  }

  lemma HeaderWords(m: Mdb)
    requires Succeeds(m)
    ensures var m' := Repaired(m);
            BitmapStart(m') == BitmapStart(m) && BlockCount(m') == BlockCount(m) && WordAt(m', 0x98) == WordAt(m, 0x98)
  {
    hide CeilDiv, IsStamp, Repaired, Cleared, FirstBlockRecomputed, Stamped, IsSlot;
    NotSlots(m);
    TouchesOnlyStamps(m, 0x0E);
    TouchesOnlyStamps(m, 0x0F);
    TouchesOnlyStamps(m, 0x12);
    TouchesOnlyStamps(m, 0x13);
    TouchesOnlyStamps(m, 0x98);
    TouchesOnlyStamps(m, 0x99);
  }

  lemma NotSlots(m: Mdb)
    ensures !InStamp(m, 0) && !InStamp(m, 1) && !InStamp(m, 0x0E) && !InStamp(m, 0x0F) && !InStamp(m, 0x12)
    ensures !InStamp(m, 0x13) && !InStamp(m, 0x16) && !InStamp(m, 0x17) && !InStamp(m, 0x98) && !InStamp(m, 0x99)
  {
  }

  lemma BlockSizeKept(m: Mdb)
    requires Succeeds(m)
    ensures LongAt(Cleared(Repaired(m)), 0x14) == LongAt(Cleared(m), 0x14)
  {
    hide CeilDiv, IsStamp, Repaired, Cleared, FirstBlockRecomputed, Stamped, IsSlot, FirstBlock, CatalogLow, WordAt, InStamp;
    var m' := Repaired(m);
    SlotConsts();
    NotSlots(m);
    NotSlots(m');
    SecondStamp(m, 0x14);
    ClearedWord(m, 0x14);
    ClearedWord(m', 0x14);
    RepairedSlot(m, 0x14);
    SameWord(Cleared(m'), Cleared(m), 0x14);
    TouchesOnlyStamps(m, 0x16);
    TouchesOnlyStamps(m, 0x17);
    ClearedByte(m, 0x16);
    ClearedByte(m, 0x17);
    ClearedByte(m', 0x16);
    ClearedByte(m', 0x17);
  }

  lemma SameWord(x: Mdb, y: Mdb, o: nat)
    requires o + 2 <= MDB_LEN && WordAt(x, o) == WordAt(y, o)
    ensures x[o] == y[o] && x[o + 1] == y[o + 1]
  {
  }

  // A slot other than the two recomputed ones holds no stamp after a repair.
  lemma SecondStamp(m: Mdb, s: int)
    requires Succeeds(m) && IsSlot(s) && s != 0x1C && s != 0x94
    ensures !Stamped(Repaired(m), s)
  {
    hide Repaired, FirstBlock, CatalogLow, FirstBlockRecomputed, WordAt, IsSlot;
    RepairedSlot(m, s);
  }

  // drAlBlSt is recomputed a second time only if it was the first time.
  lemma SecondFirstBlock(m: Mdb)
    requires Succeeds(m)
    ensures FirstBlockRecomputed(Repaired(m)) ==> FirstBlockRecomputed(m)
    ensures FirstBlockRecomputed(m) ==> WordAt(Repaired(m), 0x1C) == FirstBlock(m)
    ensures Succeeds(Repaired(m))
  {
    hide Repaired, FirstBlock, CatalogLow, WordAt, IsSlot, Cleared;
    var m' := Repaired(m);
    SlotConsts();
    RepairedSlot(m, 0x1C);
    ClearedWord(m, 0x1C);
    ClearedWord(m', 0x1C);
    InputsKept(m);
  }

  lemma SecondSlot(m: Mdb, s: int)
    requires Succeeds(m) && IsSlot(s)
    ensures Succeeds(Repaired(m)) && WordAt(Repaired(Repaired(m)), s) == WordAt(Repaired(m), s)
  {
    hide Repaired, FirstBlock, CatalogLow, WordAt, IsSlot, Cleared, Succeeds, IsStamp;
    var m' := Repaired(m);
    SlotConsts();
    SecondFirstBlock(m);
    InputsKept(m);
    RepairedSlot(m, s);
    RepairedSlot(m', s);
    SecondFirstBlock(m');
    if s != 0x1C && s != 0x94 {
      SecondStamp(m, s);
    }
  }

  /** Repairing a repaired block changes nothing, whatever the recomputed words are: a second run either
      finds nothing to do or writes the same bytes again. */
  lemma RepairIdempotent(m: Mdb)
    requires HasSignature(m) && Succeeds(m)
    ensures var m' := Repaired(m);
            HasSignature(m') && Succeeds(m') && Repaired(m') == m'
  {
    hide IsSlot, IsStamp, CeilDiv, WordAt, LongAt, Cleared, Put, Repaired, Succeeds, HasSignature;
    var m' := Repaired(m);
    SignatureKept(m);
    SlotConsts();
    SecondSlot(m, 0x1C);
    forall i | 0 <= i < MDB_LEN
      ensures Repaired(m')[i] == m'[i]
    {
      if IsSlot(i) {
        SecondSlot(m, i);
        SameWord(Repaired(m'), m', i);
      } else if IsSlot(i - 1) {
        SecondSlot(m, i - 1);
        SameWord(Repaired(m'), m', i - 1);
      } else {
        TouchesOnlyStamps(m', i);
      }
    }
  }

  lemma SignatureKept(m: Mdb)
    requires HasSignature(m) && Succeeds(m)
    ensures HasSignature(Repaired(m))
  {
    hide IsStamp, WordAt, LongAt, CeilDiv, FirstBlock, CatalogLow, FirstBlockRecomputed;
    TouchesOnlyStamps(m, 0);
    TouchesOnlyStamps(m, 1);
  }

  // ---- Geometry of the rebuilt volume ----

  /** With allocation block 0 at partition sector `first`, the bitmap byte of every allocation block lies
      in front of block 0; bit ab is in byte ab / 8 of the bitmap. */
  ghost predicate BitmapFits(bitmapStart: nat, blocks: nat, first: int) {
    bitmapStart <= first && forall ab :: 0 <= ab < blocks ==> bitmapStart * 512 + ab / 8 < first * 512
  }

  /** The recomputed drAlBlSt leaves room for exactly the bitmap: it fits, and no smaller value would do. */
  lemma FirstBlockExact(m: Mdb, first: int)
    ensures BitmapFits(BitmapStart(m), BlockCount(m), first) <==> FirstBlock(m) <= first
  {
    hide WordAt;
    var b, n := BitmapStart(m), BlockCount(m);
    if n > 0 && BitmapFits(b, n, first) {
      assert b * 512 + (n - 1) / 8 < first * 512;
    }
  }
}
