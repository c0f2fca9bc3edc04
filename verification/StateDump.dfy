/** The register and scratch-RAM dump of the CPU benches: emit_state_dump of
    cpu_bench.c and of cpu_test_macii.c, which are the same code. */
module StateDump {
  import opened Bytes
  import opened M68k
  import opened Machine
  import opened Emit

  const SCRATCH_LEN: nat := 64

  // sizeof(Snapshot): D0..D7, A0..A7, the CCR word, two bytes of padding, scratch RAM
  const SNAPSHOT_LEN: nat := 0x84

  // The fields of a Snapshot; the padding is not compared by anything.
  datatype Snapshot = Snapshot(d: Bank, a: Bank, ccr: u16, ram: seq<byte>)

  function Longs(m: Mem, at: int): Bank {
    seq(8, n requires 0 <= n < 8 => Long(m, at + n * 4))
  }

  function ReadSnapshot(m: Mem, base: int): Snapshot {
    Snapshot(Longs(m, base), Longs(m, base + 0x20), Word(m, base + 0x40), Window(m, base + 0x44, SCRATCH_LEN))
  }

  /** What a faithful snapshot of a machine state holds. */
  function Observed(s: State, scratch: int): Snapshot {
    Snapshot(s.regs.d, s.regs.a, CcrByte(s.regs.ccr), Window(s.mem, scratch, SCRATCH_LEN))
  }

  // ---- The emitted instructions ----

  function SavesA(at: u32): seq<Instr> {
    seq(8, n requires 0 <= n < 8 => Store(A(n), Mod32(at + n * 4)))
  }

  function SavesD(at: u32): seq<Instr> {
    seq(8, n requires 0 <= n < 8 => Store(D(n), Mod32(at + n * 4)))
  }

  function SavesRam(at: u32, scratch: u32): seq<Instr> {
    seq(SCRATCH_LEN / 4, i requires 0 <= i < 16 => Store(Abs(Mod32(scratch + i * 4)), Mod32(at + i * 4)))
  }

  function Saves(base: u32, scratch: u32): seq<Instr> {
    SavesA(Mod32(base + 0x20)) + SavesD(base) + SavesRam(Mod32(base + 0x44), scratch)
  }

  function SaveCcr(base: u32): Instr {
    MoveCcrAbs(Mod32(base + 0x40))
  }

  /** CCR is stored last by the dump before the test and first by the dump after it. */
  function Dump(base: u32, scratch: u32, isInit: bool): seq<Instr> {
    if isInit then Saves(base, scratch) + [SaveCcr(base)] else [SaveCcr(base)] + Saves(base, scratch)
  }

  lemma SavesSize(base: u32, scratch: u32)
    ensures |EncodeAll(SavesA(base))| == 48 && |EncodeAll(SavesD(base))| == 48
    ensures |EncodeAll(SavesRam(base, scratch))| == 160
  {
    UniformSize(SavesA(base), 6);
    UniformSize(SavesD(base), 6);
    UniformSize(SavesRam(base, scratch), 10);
  }

  lemma EncodeOne(i: Instr)
    ensures EncodeAll([i]) == Encode(i)
  {
    assert EncodeAll([i]) == Encode(i) + EncodeAll([]);
  }

  /** The code of a dump, loop by loop. */
  lemma DumpCode(base: u32, scratch: u32, isInit: bool)
    ensures var a, d, r := EncodeAll(SavesA(Mod32(base + 0x20))), EncodeAll(SavesD(base)),
                           EncodeAll(SavesRam(Mod32(base + 0x44), scratch));
            EncodeAll(Dump(base, scratch, isInit)) ==
              if isInit then a + d + r + Encode(SaveCcr(base)) else Encode(SaveCcr(base)) + a + d + r
    ensures |EncodeAll(Dump(base, scratch, isInit))| == 262
  {
    hide Encode, EncodeAll, SavesA, SavesD, SavesRam;
    var a, d, r := SavesA(Mod32(base + 0x20)), SavesD(base), SavesRam(Mod32(base + 0x44), scratch);
    EncodeAllAppend(a, d);
    EncodeAllAppend(a + d, r);
    EncodeOne(SaveCcr(base));
    EncodeAllAppend(a + d + r, [SaveCcr(base)]);
    EncodeAllAppend([SaveCcr(base)], a + d + r);
    SavesSize(Mod32(base + 0x20), 0);
    SavesSize(base, 0);
    SavesSize(Mod32(base + 0x44), scratch);
    assert Size(SaveCcr(base)) == 6 by { CcrSize(base); }
    var c := Encode(SaveCcr(base));
    assert c + (EncodeAll(a) + EncodeAll(d) + EncodeAll(r)) == c + EncodeAll(a) + EncodeAll(d) + EncodeAll(r);
  }

  lemma CcrSize(base: u32)
    ensures Size(SaveCcr(base)) == 6
  {
  }

  // ---- The emitters ----

  method EmitSavesA(buf: array<byte>, p: nat, at: u32) returns (q: nat)
    requires p + 48 <= buf.Length
    modifies buf
    ensures q == p + 48 && Wrote(old(buf[..]), buf[..], p, EncodeAll(SavesA(at)))
  {
    hide Wrote, EncodeAll, Encode;
    ghost var prog := SavesA(at);
    q := p;
    WroteNone(buf[..], p, prog);
    for n := 0 to 8
      invariant q == p + 6 * n
      invariant Wrote(old(buf[..]), buf[..], p, EncodeAll(prog[..n]))
      invariant |EncodeAll(prog[..n])| == q - p
    {
      ghost var was := buf[..];
      q := EmitMoveLAnToAbs(buf, q, n, Mod32(at + n * 4));
      WroteNext(old(buf[..]), was, buf[..], p, prog, n);
    }
    assert prog[..8] == prog;
  }

  method EmitSavesD(buf: array<byte>, p: nat, at: u32) returns (q: nat)
    requires p + 48 <= buf.Length
    modifies buf
    ensures q == p + 48 && Wrote(old(buf[..]), buf[..], p, EncodeAll(SavesD(at)))
  {
    hide Wrote, EncodeAll, Encode;
    ghost var prog := SavesD(at);
    q := p;
    WroteNone(buf[..], p, prog);
    for n := 0 to 8
      invariant q == p + 6 * n
      invariant Wrote(old(buf[..]), buf[..], p, EncodeAll(prog[..n]))
      invariant |EncodeAll(prog[..n])| == q - p
    {
      ghost var was := buf[..];
      q := EmitMoveLDnToAbs(buf, q, n, Mod32(at + n * 4));
      WroteNext(old(buf[..]), was, buf[..], p, prog, n);
    }
    assert prog[..8] == prog;
  }

  method EmitSavesRam(buf: array<byte>, p: nat, at: u32, scratch: u32) returns (q: nat)
    requires p + 160 <= buf.Length
    modifies buf
    ensures q == p + 160 && Wrote(old(buf[..]), buf[..], p, EncodeAll(SavesRam(at, scratch)))
  {
    hide Wrote, EncodeAll, Encode;
    ghost var prog := SavesRam(at, scratch);
    q := p;
    WroteNone(buf[..], p, prog);
    for i := 0 to 16
      invariant q == p + 10 * i
      invariant Wrote(old(buf[..]), buf[..], p, EncodeAll(prog[..i]))
      invariant |EncodeAll(prog[..i])| == q - p
    {
      ghost var was := buf[..];
      q := EmitMoveLAbsToAbs(buf, q, Mod32(scratch + i * 4), Mod32(at + i * 4));
      WroteNext(old(buf[..]), was, buf[..], p, prog, i);
    }
    assert prog[..16] == prog;
  }

  method EmitStateDump(buf: array<byte>, p: nat, base: u32, scratch: u32, isInit: bool) returns (q: nat)
    requires p + 262 <= buf.Length
    modifies buf
    ensures q == p + 262 == p + |EncodeAll(Dump(base, scratch, isInit))|
    ensures Wrote(old(buf[..]), buf[..], p, EncodeAll(Dump(base, scratch, isInit)))
  {
    hide Wrote, EncodeAll, Encode, SavesA, SavesD, SavesRam, Dump, Mod32;
    ghost var b0 := buf[..];
    ghost var c := if isInit then [] else Encode(SaveCcr(base));
    q := p;
    if !isInit { q := EmitMoveCcrToAbs(buf, q, Mod32(base + 0x40)); }
    ghost var b1 := buf[..];
    assert Wrote(b0, b1, p, c) && |c| == q - p by { if isInit { WroteNone(b0, p, []); } }
    q := EmitSavesA(buf, q, Mod32(base + 0x20));
    ghost var b2, a := buf[..], EncodeAll(SavesA(Mod32(base + 0x20)));
    SavesSize(Mod32(base + 0x20), 0);
    WroteThen(b0, b1, b2, p, c, a);
    q := EmitSavesD(buf, q, base);
    ghost var b3, d := buf[..], EncodeAll(SavesD(base));
    SavesSize(base, 0);
    WroteThen(b0, b2, b3, p, c + a, d);
    q := EmitSavesRam(buf, q, Mod32(base + 0x44), scratch);
    ghost var b4, r := buf[..], EncodeAll(SavesRam(Mod32(base + 0x44), scratch));
    SavesSize(Mod32(base + 0x44), scratch);
    WroteThen(b0, b3, b4, p, c + a + d, r);
    DumpCode(base, scratch, isInit);
    if isInit {
      q := EmitMoveCcrToAbs(buf, q, Mod32(base + 0x40));
      WroteThen(b0, b4, buf[..], p, c + a + d + r, Encode(SaveCcr(base)));
      assert [] + a + d + r == a + d + r;
    }
  }

  // ---- What executing a dump does ----

  // The snapshot and the scratch RAM lie apart inside the address space.
  predicate DumpPlaced(base: u32, scratch: u32) {
    && base + SNAPSHOT_LEN < 0x1_0000_0000 && scratch + SCRATCH_LEN < 0x1_0000_0000
    && Disjoint(base, SNAPSHOT_LEN, scratch, SCRATCH_LEN)
  }

  // Source and offset in the snapshot of the k-th store.
  function SaveAt(base: u32, scratch: u32, k: nat): (i: Instr)
    requires DumpPlaced(base, scratch) && k < 32
    ensures i.Store?
  {
    if k < 8 then Store(A(k), base + 0x20 + k * 4)
    else if k < 16 then Store(D(k - 8), base + (k - 8) * 4)
    else Store(Abs(scratch + (k - 16) * 4), base + 0x44 + (k - 16) * 4)
  }

  // Every store of the list has put its source's value of state s into t.
  ghost predicate AllSaved(base: u32, scratch: u32, s: State, t: State)
    requires DumpPlaced(base, scratch)
  {
    forall k :: 0 <= k < 32 ==>
      Long(t.mem, SaveAt(base, scratch, k).addr) == Value(SaveAt(base, scratch, k).src, s)
  }

  lemma SavesIndexed(base: u32, scratch: u32)
    requires DumpPlaced(base, scratch)
    ensures |Saves(base, scratch)| == 32
    ensures forall k :: 0 <= k < 32 ==> Saves(base, scratch)[k] == SaveAt(base, scratch, k)
  {
    hide SavesA, SavesD, SavesRam;
    SavesAAt(base, scratch);
    SavesDAt(base, scratch);
    SavesRamAt(base, scratch);
  }

  lemma SavesAAt(base: u32, scratch: u32)
    requires DumpPlaced(base, scratch)
    ensures var a := SavesA(Mod32(base + 0x20));
            |a| == 8 && forall k :: 0 <= k < 8 ==> a[k] == SaveAt(base, scratch, k)
  {
  }

  lemma SavesDAt(base: u32, scratch: u32)
    requires DumpPlaced(base, scratch)
    ensures var d := SavesD(base);
            |d| == 8 && forall k :: 8 <= k < 16 ==> d[k - 8] == SaveAt(base, scratch, k)
  {
  }

  lemma SavesRamAt(base: u32, scratch: u32)
    requires DumpPlaced(base, scratch)
    ensures var r := SavesRam(Mod32(base + 0x44), scratch);
            |r| == 16 && forall k :: 16 <= k < 32 ==> r[k - 16] == SaveAt(base, scratch, k)
  {
  }

  lemma SavesApart(base: u32, scratch: u32)
    requires DumpPlaced(base, scratch)
    ensures AllStores(Saves(base, scratch)) && Apart(Saves(base, scratch))
  {
    SavesIndexed(base, scratch);
    hide Saves;
  }

  /** The saves write the registers and the scratch RAM into the snapshot and nothing else. */
  lemma SavesEffect(env: Env, base: u32, scratch: u32, s: State)
    requires DumpPlaced(base, scratch)
    ensures var t := ExecSeq(env, Saves(base, scratch), s);
            && t.regs == s.regs.(pc := t.regs.pc, ccr := MoveCcr(s.regs.ccr.x, Long(s.mem, scratch + 60)))
            && Longs(t.mem, base) == s.regs.d && Longs(t.mem, base + 0x20) == s.regs.a
            && Window(t.mem, base + 0x44, SCRATCH_LEN) == Window(s.mem, scratch, SCRATCH_LEN)
            && Same(s.mem, t.mem, base + 0x40, base + 0x44) && SameOutside(s.mem, t.mem, base, base + SNAPSHOT_LEN)
  {
    hide *;
    var t := ExecSeq(env, Saves(base, scratch), s);
    SavesSaved(env, base, scratch, s);
    SavesSpareOutside(env, base, scratch, s);
    SavedRegs(base, scratch, s, t);
    SavedRam(base, scratch, s, t);
  }

  lemma SavesSaved(env: Env, base: u32, scratch: u32, s: State)
    requires DumpPlaced(base, scratch)
    ensures var t := ExecSeq(env, Saves(base, scratch), s);
            && AllSaved(base, scratch, s, t)
            && t.regs == s.regs.(pc := t.regs.pc, ccr := MoveCcr(s.regs.ccr.x, Long(s.mem, scratch + 60)))
  {
    hide Saves, Long, ExecSeq, Apart, SaveAt, SparesAll, Same, MoveCcr;
    var p := Saves(base, scratch);
    SavesIndexed(base, scratch);
    SavesApart(base, scratch);
    StoresEffect(env, p, s);
    StoresSpare(env, p, s, 0, 0);
    LastSave(base, scratch);
    assert p[31] == Store(Abs(scratch + 60), base + 0x80);
  }

  lemma LastSave(base: u32, scratch: u32)
    requires DumpPlaced(base, scratch)
    ensures SaveAt(base, scratch, 31) == Store(Abs(scratch + 60), base + 0x80)
  {
  }

  lemma SavesSpareOutside(env: Env, base: u32, scratch: u32, s: State)
    requires DumpPlaced(base, scratch)
    ensures var t := ExecSeq(env, Saves(base, scratch), s);
            SameOutside(s.mem, t.mem, base, base + SNAPSHOT_LEN) && Same(s.mem, t.mem, base + 0x40, base + 0x44)
  {
    var p := Saves(base, scratch);
    SavesIndexed(base, scratch);
    hide Saves, ExecSeq;
    StoresSpare(env, p, s, base + 0x40, base + 0x44);
    forall x {:trigger Byte(ExecSeq(env, p, s).mem, x)} | !(base <= x < base + SNAPSHOT_LEN)
      ensures Byte(ExecSeq(env, p, s).mem, x) == Byte(s.mem, x)
    {
      StoresSpare(env, p, s, x, x + 1);
    }
  }

  lemma SavedRegs(base: u32, scratch: u32, s: State, t: State)
    requires DumpPlaced(base, scratch) && AllSaved(base, scratch, s, t)
    ensures Longs(t.mem, base) == s.regs.d && Longs(t.mem, base + 0x20) == s.regs.a
  {
    hide Long;
    forall n | 0 <= n < 8
      ensures Long(t.mem, base + n * 4) == s.regs.d[n] && Long(t.mem, base + 0x20 + n * 4) == s.regs.a[n]
    {
      var a, d := SaveAt(base, scratch, n), SaveAt(base, scratch, n + 8);
    }
    LongsAre(t.mem, base, s.regs.d);
    LongsAre(t.mem, base + 0x20, s.regs.a);
  }

  lemma LongsAre(m: Mem, at: int, b: Bank)
    requires forall n :: 0 <= n < 8 ==> Long(m, at + n * 4) == b[n]
    ensures Longs(m, at) == b
  {
    hide Long;
  }

  lemma SavedRam(base: u32, scratch: u32, s: State, t: State)
    requires DumpPlaced(base, scratch) && AllSaved(base, scratch, s, t)
    ensures Window(t.mem, base + 0x44, SCRATCH_LEN) == Window(s.mem, scratch, SCRATCH_LEN)
  {
    hide Long;
    forall x | 0 <= x < SCRATCH_LEN
      ensures Window(t.mem, base + 0x44, SCRATCH_LEN)[x] == Window(s.mem, scratch, SCRATCH_LEN)[x]
    {
      var i := x / 4;
      var save := SaveAt(base, scratch, 16 + i);
      LongInjective(t.mem, base + 0x44 + i * 4, s.mem, scratch + i * 4, x % 4);
    }
  }

  lemma LongInjective(m: Mem, a: int, m': Mem, a': int, i: nat)
    requires Long(m, a) == Long(m', a') && i < 4
    ensures Byte(m, a + i) == Byte(m', a' + i)
  {
    hide LongBytes, JoinLong, Byte;
    var b := [Byte(m, a), Byte(m, a + 1), Byte(m, a + 2), Byte(m, a + 3)];
    var b' := [Byte(m', a'), Byte(m', a' + 1), Byte(m', a' + 2), Byte(m', a' + 3)];
    LongJoins(b[0], b[1], b[2], b[3]);
    LongJoins(b'[0], b'[1], b'[2], b'[3]);
    assert b == b';
    assert Byte(m, a + i) == b[i] && Byte(m', a' + i) == b'[i];
  }

  /** State-dump correctness from any machine state: registers and scratch RAM are left alone, the
      snapshot holds exactly them, and the CCR recorded is the one on exit for the initial dump and the
      one on entry for the final dump. */
  lemma DumpEffect(env: Env, base: u32, scratch: u32, isInit: bool, s: State)
    requires DumpPlaced(base, scratch)
    ensures var t := ExecSeq(env, Dump(base, scratch, isInit), s);
            && t.regs == s.regs.(pc := t.regs.pc, ccr := MoveCcr(s.regs.ccr.x, Long(s.mem, scratch + 60)))
            && SameOutside(s.mem, t.mem, base, base + SNAPSHOT_LEN)
            && ReadSnapshot(t.mem, base) == Observed(if isInit then t else s, scratch)
  {
    var p, i := Saves(base, scratch), SaveCcr(base);
    hide Exec, ExecSeq, Saves, Long, Byte, MoveCcr, ReadSnapshot, Observed;
    if isInit {
      var u := ExecSeq(env, p, s);
      SavesEffect(env, base, scratch, s);
      ExecSeqAppend(env, p, [i], s);
      ExecOne(env, i, u);
      InitSnapshot(env, base, scratch, s, u);
    } else {
      var u := Exec(env, i, s);
      CcrStored(env, i, s);
      ExecSeqAppend(env, [i], p, s);
      ExecOne(env, i, s);
      SavesEffect(env, base, scratch, u);
      FinalSnapshot(env, base, scratch, s, ExecSeq(env, p, u));
    }
  }

  lemma ExecOne(env: Env, i: Instr, s: State)
    ensures ExecSeq(env, [i], s) == Exec(env, i, s)
  {
    assert [i][1..] == [];
  }

  // The CCR store completes the snapshot begun by the saves.
  lemma InitSnapshot(env: Env, base: u32, scratch: u32, s: State, u: State)
    requires DumpPlaced(base, scratch)
    requires Longs(u.mem, base) == u.regs.d && Longs(u.mem, base + 0x20) == u.regs.a
    requires Window(u.mem, base + 0x44, SCRATCH_LEN) == Window(s.mem, scratch, SCRATCH_LEN)
    requires SameOutside(s.mem, u.mem, base, base + SNAPSHOT_LEN)
    ensures var t := Exec(env, SaveCcr(base), u);
            && t.regs == u.regs.(pc := t.regs.pc) && SameOutside(s.mem, t.mem, base, base + SNAPSHOT_LEN)
            && ReadSnapshot(t.mem, base) == Observed(t, scratch)
  {
    hide Exec, Byte, Longs, Word, Window;
    var t := Exec(env, SaveCcr(base), u);
    CcrStored(env, SaveCcr(base), u);
    LongsKept(u.mem, t.mem, base);
    LongsKept(u.mem, t.mem, base + 0x20);
    WindowKept(u.mem, t.mem, base + 0x44, SCRATCH_LEN);
    WindowKept(s.mem, t.mem, scratch, SCRATCH_LEN);
  }

  // The saves complete the snapshot begun by the CCR store.
  lemma FinalSnapshot(env: Env, base: u32, scratch: u32, s: State, t: State)
    requires DumpPlaced(base, scratch)
    requires var u := Exec(env, SaveCcr(base), s);
             && Longs(t.mem, base) == u.regs.d && Longs(t.mem, base + 0x20) == u.regs.a
             && Window(t.mem, base + 0x44, SCRATCH_LEN) == Window(u.mem, scratch, SCRATCH_LEN)
             && Same(u.mem, t.mem, base + 0x40, base + 0x44) && SameOutside(u.mem, t.mem, base, base + SNAPSHOT_LEN)
    ensures ReadSnapshot(t.mem, base) == Observed(s, scratch)
    ensures SameOutside(s.mem, t.mem, base, base + SNAPSHOT_LEN)
    ensures Long(Exec(env, SaveCcr(base), s).mem, scratch + 60) == Long(s.mem, scratch + 60)
  {
    hide Exec, Byte, Longs, Word, Window, Long;
    var u := Exec(env, SaveCcr(base), s);
    CcrStored(env, SaveCcr(base), s);
    WindowKept(s.mem, u.mem, scratch, SCRATCH_LEN);
    LongKept(s.mem, u.mem, scratch + 60);
    WordKept(u.mem, t.mem, base + 0x40);
  }

  lemma CcrStored(env: Env, i: Instr, s: State)
    requires i.MoveCcrAbs?
    ensures var t := Exec(env, i, s);
            && t.regs == s.regs.(pc := t.regs.pc) && Word(t.mem, i.addr) == CcrByte(s.regs.ccr)
            && SameOutside(s.mem, t.mem, i.addr, i.addr + 2)
  {
  }

  lemma LongsKept(m: Mem, m': Mem, at: int)
    requires Same(m, m', at, at + 32)
    ensures Longs(m', at) == Longs(m, at)
  {
    hide Long;
    forall i | 0 <= i < 8
      ensures Long(m', at + i * 4) == Long(m, at + i * 4)
    {
      LongKept(m, m', at + i * 4);
    }
    LongsAre(m', at, Longs(m, at));
  }

  lemma WindowKept(m: Mem, m': Mem, at: int, n: nat)
    requires Same(m, m', at, at + n)
    ensures Window(m', at, n) == Window(m, at, n)
  {
  }

  lemma WordKept(m: Mem, m': Mem, at: int)
    requires Same(m, m', at, at + 2)
    ensures Word(m', at) == Word(m, at)
  {
  }

  /** A dump writes only its snapshot, so it leaves code placed elsewhere alone. */
  lemma DumpSpares(env: Env, base: u32, scratch: u32, isInit: bool, s: State, lo: int, hi: int)
    requires DumpPlaced(base, scratch) && lo <= hi && Disjoint(base, SNAPSHOT_LEN, lo, hi - lo)
    ensures SparesAll(env, Dump(base, scratch, isInit), s, lo, hi)
    ensures forall i | i in Dump(base, scratch, isInit) :: Linear(i)
  {
    hide Saves, Exec, ExecSeq, SparesAll, Spares, SaveAt;
    var p, i := Saves(base, scratch), SaveCcr(base);
    SavesPlaced(base, scratch);
    var q := if isInit then ExecSeq(env, p, s) else Exec(env, i, s);
    StoresSpare(env, p, if isInit then s else q, lo, hi);
    CcrSpares(env, base, if isInit then q else s, lo, hi);
    if isInit {
      SparesAllAppend(env, p, [i], s, lo, hi);
    } else {
      ExecOne(env, i, s);
      SparesAllAppend(env, [i], p, s, lo, hi);
    }
  }

  lemma SavesPlaced(base: u32, scratch: u32)
    requires DumpPlaced(base, scratch)
    ensures var p := Saves(base, scratch);
            AllStores(p) && forall k :: 0 <= k < |p| ==> base <= p[k].addr && p[k].addr + 4 <= base + SNAPSHOT_LEN
  {
    hide Saves;
    SavesIndexed(base, scratch);
  }

  lemma CcrSpares(env: Env, base: u32, s: State, lo: int, hi: int)
    requires base + SNAPSHOT_LEN < 0x1_0000_0000 && lo <= hi && Disjoint(base, SNAPSHOT_LEN, lo, hi - lo)
    ensures SparesAll(env, [SaveCcr(base)], s, lo, hi)
  {
  }

  lemma {:induction false} SparesAllAppend(env: Env, p: seq<Instr>, q: seq<Instr>, s: State, lo: int, hi: int)
    requires SparesAll(env, p, s, lo, hi) && SparesAll(env, q, ExecSeq(env, p, s), lo, hi)
    ensures SparesAll(env, p + q, s, lo, hi)
    decreases |p|
  {
    hide Exec, Spares;
    if p == [] {
      assert p + q == q;
    } else {
      assert (p + q)[0] == p[0] && (p + q)[1..] == p[1..] + q;
      SparesAllAppend(env, p[1..], q, Exec(env, p[0], s), lo, hi);
    }
  }

  // ---- The register loops on their own, for the benches with another snapshot layout ----

  lemma SavesAEffect(env: Env, at: u32, s: State)
    requires at + 32 < 0x1_0000_0000
    ensures var t := ExecSeq(env, SavesA(at), s);
            && t.regs == s.regs.(pc := t.regs.pc, ccr := t.regs.ccr)
            && Longs(t.mem, at) == s.regs.a && SameOutside(s.mem, t.mem, at, at + 32)
  {
    hide Long, ExecSeq, Byte, MoveCcr;
    var p, t := SavesA(at), ExecSeq(env, SavesA(at), s);
    assert forall k :: 0 <= k < 8 ==> p[k] == Store(A(k), at + k * 4);
    StoresEffect(env, p, s);
    forall n | 0 <= n < 8
      ensures Long(t.mem, at + n * 4) == s.regs.a[n]
    {
      assert Long(t.mem, p[n].addr) == Value(p[n].src, s);
    }
    LongsAre(t.mem, at, s.regs.a);
    RegSavesOutside(env, p, at, s);
  }

  lemma SavesDEffect(env: Env, at: u32, s: State)
    requires at + 32 < 0x1_0000_0000
    ensures var t := ExecSeq(env, SavesD(at), s);
            && t.regs == s.regs.(pc := t.regs.pc, ccr := t.regs.ccr)
            && Longs(t.mem, at) == s.regs.d && SameOutside(s.mem, t.mem, at, at + 32)
  {
    hide Long, ExecSeq, Byte, MoveCcr;
    var p, t := SavesD(at), ExecSeq(env, SavesD(at), s);
    assert forall k :: 0 <= k < 8 ==> p[k] == Store(D(k), at + k * 4);
    StoresEffect(env, p, s);
    forall n | 0 <= n < 8
      ensures Long(t.mem, at + n * 4) == s.regs.d[n]
    {
      assert Long(t.mem, p[n].addr) == Value(p[n].src, s);
    }
    LongsAre(t.mem, at, s.regs.d);
    RegSavesOutside(env, p, at, s);
  }

  // Eight stores to the longwords from `at` up.
  predicate RegSaves(p: seq<Instr>, at: u32) {
    && at + 32 < 0x1_0000_0000 && |p| == 8 && AllStores(p)
    && forall k :: 0 <= k < 8 ==> p[k].addr == at + k * 4
  }

  lemma RegSavesOutside(env: Env, p: seq<Instr>, at: u32, s: State)
    requires RegSaves(p, at)
    ensures var t := ExecSeq(env, p, s);
            && t.regs == s.regs.(pc := t.regs.pc, ccr := t.regs.ccr) && SameOutside(s.mem, t.mem, at, at + 32)
    ensures forall i | i in p :: Linear(i)
  {
    hide ExecSeq;
    StoresSpare(env, p, s, 0, 0);
    forall x {:trigger Byte(ExecSeq(env, p, s).mem, x)} | !(at <= x < at + 32)
      ensures Byte(ExecSeq(env, p, s).mem, x) == Byte(s.mem, x)
    {
      StoresSpare(env, p, s, x, x + 1);
    }
  }

  lemma RegSavesSpare(env: Env, p: seq<Instr>, at: u32, s: State, lo: int, hi: int)
    requires RegSaves(p, at) && lo <= hi && Disjoint(at, 32, lo, hi - lo)
    ensures SparesAll(env, p, s, lo, hi)
  {
    StoresSpare(env, p, s, lo, hi);
  }
}
