/** fpu_bench.c: the program around a floating-point test and its register dump,
    which goes through A0 because FMOVE.X is stored with postincrement. */
module FpuBench {
  import opened Bytes
  import opened M68k
  import opened Machine
  import opened Emit
  import opened StateDump
  import CpuHarness

  const PROG_LEN: nat := 512

  // sizeof(Snapshot): FP0..FP7 in 96 bits each, D0..D7, A0..A7, FPCR, FPSR, FPIAR
  const FPU_SNAPSHOT_LEN: nat := 0xAC

  datatype FpuSnapshot = FpuSnapshot(fp: FpBank, d: Bank, a: Bank, fpcr: u32, fpsr: u32, fpiar: u32)

  function Extendeds(m: Mem, at: int): FpBank {
    seq(8, n requires 0 <= n < 8 => Extended12(m, at + 12 * n))
  }

  function Extended12(m: Mem, at: int): Extended {
    Window(m, at, 12)
  }

  function ReadFpuSnapshot(m: Mem, base: int): FpuSnapshot {
    FpuSnapshot(Extendeds(m, base), Longs(m, base + 0x60), Longs(m, base + 0x80),
                Long(m, base + 0xA0), Long(m, base + 0xA4), Long(m, base + 0xA8))
  }

  // ---- The emitted instructions ----

  function SavesFp(first: Reg): seq<Instr> {
    seq(8 - first, k requires 0 <= k < 8 - first => FmoveX(first + k, 0))
  }

  function SavesCtrl(base: u32): seq<Instr> {
    [FmoveCtrl(FPCR, Mod32(base + 0xA0)), FmoveCtrl(FPSR, Mod32(base + 0xA4)), FmoveCtrl(FPIAR, Mod32(base + 0xA8))]
  }

  function FpuDump(base: u32): seq<Instr> {
    SavesA(Mod32(base + 0x80)) + [MoveaImm(0, base)] + SavesFp(0) + SavesD(Mod32(base + 0x60)) + SavesCtrl(base)
  }

  // ---- What executing the dump does ----

  // The control registers after FMOVE.X of FPfirst.. to memory, the first of them at address pc.
  function StatusFrom(env: Env, f: Fpu, first: nat, pc: int): Fpu
    requires first <= 8
    decreases 8 - first
  {
    if first == 8 then f
    else
      var (fpsr, fpiar) := env.fmoveStatus(f, first, Mod32(pc));
      StatusFrom(env, f.(fpsr := fpsr, fpiar := fpiar), first + 1, pc + 4)
  }

  lemma ExecFmoveX(env: Env, fp: Reg, s: State)
    requires s.regs.a[0] as int + 12 < 0x1_0000_0000 && s.regs.pc as int + 4 < 0x1_0000_0000
    ensures var t := Exec(env, FmoveX(fp, 0), s);
            var st := env.fmoveStatus(s.regs.fpu, fp, s.regs.pc);
            && t.regs == s.regs.(pc := s.regs.pc + 4, a := s.regs.a[0 := s.regs.a[0] + 12],
                                 fpu := s.regs.fpu.(fpsr := st.0, fpiar := st.1))
            && Extended12(t.mem, s.regs.a[0]) == s.regs.fpu.fp[fp]
            && SameOutside(s.mem, t.mem, s.regs.a[0], s.regs.a[0] + 12)
  {
  }

  // The loop from FPfirst on stays inside the address space.
  predicate FpRoom(first: nat, s: State) {
    && first <= 8 && s.regs.a[0] + 12 * (8 - first) < 0x1_0000_0000 && s.regs.pc + 4 * (8 - first) < 0x1_0000_0000
  }

  lemma SavesFpStep(env: Env, first: Reg, s: State)
    requires FpRoom(first, s)
    ensures var s1 := Exec(env, FmoveX(first, 0), s);
            ExecSeq(env, SavesFp(first), s) == (if first < 7 then ExecSeq(env, SavesFp(first + 1), s1) else s1)
            && FpRoom(first + 1, s1)
  {
    hide Exec;
    ExecFmoveX(env, first, s);
    assert SavesFp(first)[0] == FmoveX(first, 0);
    if first < 7 {
      assert SavesFp(first)[1..] == SavesFp(first + 1);
    } else {
      assert SavesFp(first)[1..] == [];
    }
  }

  /** The FMOVE.X loop leaves A0 behind the last of its 12-byte stores; of the registers it changes only
      A0, the status and instruction-address registers of the FPU, and pc. */
  lemma {:induction false} SavesFpRegs(env: Env, first: Reg, s: State)
    requires FpRoom(first, s)
    ensures var t := ExecSeq(env, SavesFp(first), s);
            t.regs == s.regs.(pc := t.regs.pc, a := s.regs.a[0 := s.regs.a[0] + 12 * (8 - first)],
                              fpu := StatusFrom(env, s.regs.fpu, first, s.regs.pc))
    decreases 8 - first
  {
    hide Exec, ExecSeq, SavesFp, Byte, Extended12;
    var s1 := Exec(env, FmoveX(first, 0), s);
    SavesFpStep(env, first, s);
    ExecFmoveX(env, first, s);
    if first < 7 {
      SavesFpRegs(env, first + 1, s1);
    }
  }

  /** The FMOVE.X loop stores FPfirst..FP7 in 12-byte steps from A0 and nothing else. */
  lemma {:induction false} SavesFpMem(env: Env, first: Reg, s: State)
    requires FpRoom(first, s)
    ensures var t := ExecSeq(env, SavesFp(first), s);
            var a0 := s.regs.a[0];
            && (forall n :: first <= n < 8 ==> Extended12(t.mem, a0 + 12 * (n - first)) == s.regs.fpu.fp[n])
            && SameOutside(s.mem, t.mem, a0, a0 + 12 * (8 - first))
    decreases 8 - first
  {
    hide Exec, ExecSeq, SavesFp, Byte, Extended12;
    var s1, t := Exec(env, FmoveX(first, 0), s), ExecSeq(env, SavesFp(first), s);
    SavesFpStep(env, first, s);
    ExecFmoveX(env, first, s);
    if first < 7 {
      SavesFpMem(env, first + 1, s1);
      Extended12Kept(s1.mem, t.mem, s.regs.a[0]);
    }
  }

  lemma {:induction false} SavesFpSpare(env: Env, first: Reg, s: State, lo: int, hi: int)
    requires FpRoom(first, s)
    requires lo <= hi && Disjoint(s.regs.a[0], 12 * (8 - first), lo, hi - lo)
    ensures SparesAll(env, SavesFp(first), s, lo, hi)
    decreases 8 - first
  {
    hide Exec, Byte, Extended12, Spares;
    ExecFmoveX(env, first, s);
    FmoveXSpares(env, first, s, lo, hi);
    assert SavesFp(first)[0] == FmoveX(first, 0);
    if first < 7 {
      assert SavesFp(first)[1..] == SavesFp(first + 1);
      SavesFpSpare(env, first + 1, Exec(env, FmoveX(first, 0), s), lo, hi);
    } else {
      assert SavesFp(first)[1..] == [];
    }
  }

  lemma FmoveXSpares(env: Env, fp: Reg, s: State, lo: int, hi: int)
    requires lo <= hi && Disjoint(s.regs.a[0], 12, lo, hi - lo)
    ensures Spares(FmoveX(fp, 0), s, lo, hi)
  {
  }

  lemma Extended12Kept(m: Mem, m': Mem, at: int)
    requires Same(m, m', at, at + 12)
    ensures Extended12(m', at) == Extended12(m, at)
  {
  }

  lemma ExecCtrl(env: Env, i: Instr, s: State)
    requires i.FmoveCtrl?
    ensures var t := Exec(env, i, s);
            var f := s.regs.fpu;
            && t.regs == s.regs.(pc := t.regs.pc) && SameOutside(s.mem, t.mem, i.addr, i.addr + 4)
            && Long(t.mem, i.addr) == match i.ctrl case FPCR => f.fpcr case FPSR => f.fpsr case FPIAR => f.fpiar
  {
    var f := s.regs.fpu;
    LongSplits(f.fpcr);
    LongSplits(f.fpsr);
    LongSplits(f.fpiar);
  }

  lemma SavesCtrlEffect(env: Env, base: u32, s: State)
    requires base + FPU_SNAPSHOT_LEN < 0x1_0000_0000
    ensures var t := ExecSeq(env, SavesCtrl(base), s);
            && t.regs == s.regs.(pc := t.regs.pc)
            && Long(t.mem, base + 0xA0) == s.regs.fpu.fpcr && Long(t.mem, base + 0xA4) == s.regs.fpu.fpsr
            && Long(t.mem, base + 0xA8) == s.regs.fpu.fpiar
            && SameOutside(s.mem, t.mem, base + 0xA0, base + 0xAC)
  {
    hide Exec, Byte, Long;
    var p := SavesCtrl(base);
    var s1 := Exec(env, p[0], s);
    var s2 := Exec(env, p[1], s1);
    var s3 := Exec(env, p[2], s2);
    ExecCtrl(env, p[0], s);
    ExecCtrl(env, p[1], s1);
    ExecCtrl(env, p[2], s2);
    ExecThree(env, p[0], p[1], p[2], s);
    LongKept(s1.mem, s2.mem, base + 0xA0);
    LongKept(s2.mem, s3.mem, base + 0xA0);
    LongKept(s2.mem, s3.mem, base + 0xA4);
  }

  lemma ExecThree(env: Env, i: Instr, j: Instr, k: Instr, s: State)
    ensures ExecSeq(env, [i, j, k], s) == Exec(env, k, Exec(env, j, Exec(env, i, s)))
  {
    hide Exec;
    assert [i, j, k][1..] == [j, k] && [j, k][1..] == [k];
    ExecOne(env, k, Exec(env, j, Exec(env, i, s)));
  }

  // ---- The dump as a whole ----

  predicate FpuPlaced(base: u32) {
    base + FPU_SNAPSHOT_LEN < 0x1_0000_0000
  }

  // The states between the parts of a dump entered in state s with its code inside the address space.
  function AfterA(env: Env, base: u32, s: State): State { ExecSeq(env, SavesA(Mod32(base + 0x80)), s) }
  function AfterA0(env: Env, base: u32, s: State): State { Exec(env, MoveaImm(0, base), AfterA(env, base, s)) }
  function AfterFp(env: Env, base: u32, s: State): State { ExecSeq(env, SavesFp(0), AfterA0(env, base, s)) }
  function AfterD(env: Env, base: u32, s: State): State { ExecSeq(env, SavesD(Mod32(base + 0x60)), AfterFp(env, base, s)) }
  function AfterCtrl(env: Env, base: u32, s: State): State { ExecSeq(env, SavesCtrl(base), AfterD(env, base, s)) }

  lemma FpuDumpParts(env: Env, base: u32, s: State)
    ensures ExecSeq(env, FpuDump(base), s) == AfterCtrl(env, base, s)
  {
    hide SavesA, SavesFp, SavesD, SavesCtrl, ExecSeq, Exec;
    var a, i, f, d, c := SavesA(Mod32(base + 0x80)), MoveaImm(0, base), SavesFp(0), SavesD(Mod32(base + 0x60)), SavesCtrl(base);
    ExecSeqAppend(env, a + [i] + f + d, c, s);
    ExecSeqAppend(env, a + [i] + f, d, s);
    ExecSeqAppend(env, a + [i], f, s);
    ExecSeqAppend(env, a, [i], s);
    ExecOne(env, i, AfterA(env, base, s));
  }

  lemma FpuSizes(base: u32)
    ensures |EncodeAll(SavesA(base))| == 48 && |EncodeAll(SavesD(base))| == 48 && |EncodeAll(SavesFp(0))| == 32
    ensures |EncodeAll(SavesCtrl(base))| == 24 && Size(MoveaImm(0, base)) == 6
  {
    hide Encode, EncodeAll, SavesA, SavesD, SavesFp, SavesCtrl;
    SavesSize(base, 0);
    FpSize();
    CtrlSize(base);
  }

  lemma FpSize()
    ensures |EncodeAll(SavesFp(0))| == 32
  {
    UniformSize(SavesFp(0), 4);
  }

  lemma CtrlSize(base: u32)
    ensures |EncodeAll(SavesCtrl(base))| == 24 && Size(MoveaImm(0, base)) == 6
  {
    UniformSize(SavesCtrl(base), 8);
  }

  lemma MoveaStep(env: Env, base: u32, s: State)
    requires s.regs.pc as int + 6 < 0x1_0000_0000
    ensures var t := Exec(env, MoveaImm(0, base), s);
            && t.regs == s.regs.(pc := s.regs.pc + 6, a := s.regs.a[0 := base])
            && forall x :: Byte(t.mem, x) == Byte(s.mem, x)
  {
  }

  /** The A registers are stored and A0 set to the snapshot before any FMOVE.X runs. */
  lemma ToFpEffect(env: Env, base: u32, s: State)
    requires FpuPlaced(base) && s.regs.pc as int + 158 < 0x1_0000_0000
    ensures var t := AfterA0(env, base, s);
            && t.regs == s.regs.(pc := s.regs.pc + 54, ccr := t.regs.ccr, a := s.regs.a[0 := base])
            && Longs(t.mem, base + 0x80) == s.regs.a && SameOutside(s.mem, t.mem, base + 0x80, base + 0xA0)
  {
    hide ExecSeq, Exec, Byte, Longs, SavesA, EncodeAll;
    var at, u := Mod32(base + 0x80), AfterA(env, base, s);
    SavesAEffect(env, at, s);
    SavesALinear(at);
    FpuSizes(at);
    LinearSeqPc(env, SavesA(at), s);
    MoveaStep(env, base, u);
    LongsKept(u.mem, AfterA0(env, base, s).mem, base + 0x80);
  }

  lemma SavesALinear(at: u32)
    ensures forall i | i in SavesA(at) :: Linear(i)
    ensures forall i | i in SavesD(at) :: Linear(i)
    ensures forall i | i in SavesFp(0) :: Linear(i)
    ensures forall i | i in SavesCtrl(at) :: Linear(i)
  {
  }

  lemma ExtendedsAre(m: Mem, at: int, f: FpBank)
    requires forall n :: 0 <= n < 8 ==> Extended12(m, at + 12 * n) == f[n]
    ensures Extendeds(m, at) == f
  {
    hide Extended12;
  }

  lemma ExtendedsKept(m: Mem, m': Mem, at: int)
    requires Same(m, m', at, at + 96)
    ensures Extendeds(m', at) == Extendeds(m, at)
  {
    hide Extended12, Byte;
    forall n | 0 <= n < 8
      ensures Extended12(m', at + 12 * n) == Extended12(m, at + 12 * n)
    {
      Extended12Kept(m, m', at + 12 * n);
    }
    ExtendedsAre(m', at, Extendeds(m, at));
  }

  // The FPU after the eight FMOVE.X of a dump that starts at address pc.
  function Dumped(env: Env, f: Fpu, pc: int): Fpu {
    StatusFrom(env, f, 0, pc + 54)
  }

  lemma {:induction false} StatusKeeps(env: Env, f: Fpu, first: nat, pc: int)
    requires first <= 8
    ensures StatusFrom(env, f, first, pc).fp == f.fp && StatusFrom(env, f, first, pc).fpcr == f.fpcr
    decreases 8 - first
  {
    if first < 8 {
      var (fpsr, fpiar) := env.fmoveStatus(f, first, Mod32(pc));
      StatusKeeps(env, f.(fpsr := fpsr, fpiar := fpiar), first + 1, pc + 4);
    }
  }

  // t is s with the A registers and FP0-FP7 in the snapshot and A0 behind the latter.
  ghost predicate FpSaved(env: Env, base: u32, s: State, t: State)
    requires FpuPlaced(base) && s.regs.pc as int + 158 < 0x1_0000_0000
  {
    && t.regs == s.regs.(pc := s.regs.pc + 86, ccr := t.regs.ccr, a := s.regs.a[0 := base + 0x60],
                         fpu := Dumped(env, s.regs.fpu, s.regs.pc))
    && Extendeds(t.mem, base) == s.regs.fpu.fp && Longs(t.mem, base + 0x80) == s.regs.a
    && SameOutside(s.mem, t.mem, base, base + FPU_SNAPSHOT_LEN)
  }

  lemma FpEffect(env: Env, base: u32, s: State)
    requires FpuPlaced(base) && s.regs.pc as int + 158 < 0x1_0000_0000
    ensures FpSaved(env, base, s, AfterFp(env, base, s))
  {
    hide ExecSeq, Exec, Byte, Longs, SavesFp, Extended12, Extendeds, EncodeAll, AfterA0, StatusFrom;
    var u, t := AfterA0(env, base, s), AfterFp(env, base, s);
    ToFpEffect(env, base, s);
    SavesFpRegs(env, 0, u);
    SavesFpMem(env, 0, u);
    SavesALinear(base);
    FpuSizes(base);
    LinearSeqPc(env, SavesFp(0), u);
    forall n | 0 <= n < 8
      ensures Extended12(t.mem, base + 12 * n) == s.regs.fpu.fp[n]
    {
      assert Extended12(t.mem, base + 12 * (n - 0)) == u.regs.fpu.fp[n];
    }
    ExtendedsAre(t.mem, base, s.regs.fpu.fp);
    LongsKept(u.mem, t.mem, base + 0x80);
  }

  // The D registers and the control registers, stored from state u on.
  lemma DCtrlEffect(env: Env, base: u32, u: State)
    requires FpuPlaced(base) && u.regs.pc as int + 72 < 0x1_0000_0000
    ensures var t := ExecSeq(env, SavesCtrl(base), ExecSeq(env, SavesD(Mod32(base + 0x60)), u));
            && t.regs == u.regs.(pc := u.regs.pc + 72, ccr := t.regs.ccr) && Longs(t.mem, base + 0x60) == u.regs.d
            && Long(t.mem, base + 0xA0) == u.regs.fpu.fpcr && Long(t.mem, base + 0xA4) == u.regs.fpu.fpsr
            && Long(t.mem, base + 0xA8) == u.regs.fpu.fpiar && Same(u.mem, t.mem, base, base + 0x60)
            && Same(u.mem, t.mem, base + 0x80, base + 0xA0) && SameOutside(u.mem, t.mem, base, base + FPU_SNAPSHOT_LEN)
  {
    hide ExecSeq, Exec, Byte, Long, Longs, SavesA, SavesD, SavesCtrl, SavesFp, EncodeAll, Linear;
    var at := Mod32(base + 0x60);
    var v := ExecSeq(env, SavesD(at), u);
    SavesDEffect(env, at, u);
    SavesCtrlEffect(env, base, v);
    SavesALinear(at);
    SavesALinear(base);
    FpuSizes(at);
    FpuSizes(base);
    LinearSeqPc(env, SavesD(at), u);
    LinearSeqPc(env, SavesCtrl(base), v);
    LongsKept(v.mem, ExecSeq(env, SavesCtrl(base), v).mem, base + 0x60);
  }

  /** The dump from any state: D0-D7, A1-A7, FP0-FP7 and FPCR keep their values, A0 ends behind the FP
      area, and the snapshot holds every register as it was on entry - A0 too - except that FPSR and
      FPIAR are the ones the FMOVE.X instructions of the dump itself leave. */
  lemma FpuDumpEffect(env: Env, base: u32, s: State)
    requires FpuPlaced(base) && s.regs.pc as int + 158 < 0x1_0000_0000
    ensures var t := ExecSeq(env, FpuDump(base), s);
            var f := Dumped(env, s.regs.fpu, s.regs.pc);
            && t.regs == s.regs.(pc := s.regs.pc + 158, ccr := t.regs.ccr, a := s.regs.a[0 := base + 0x60], fpu := f)
            && f.fp == s.regs.fpu.fp && f.fpcr == s.regs.fpu.fpcr
            && ReadFpuSnapshot(t.mem, base)
               == FpuSnapshot(s.regs.fpu.fp, s.regs.d, s.regs.a, s.regs.fpu.fpcr, f.fpsr, f.fpiar)
            && SameOutside(s.mem, t.mem, base, base + FPU_SNAPSHOT_LEN)
  {
    hide ExecSeq, Exec, Byte, Long, Longs, SavesA, SavesD, SavesCtrl, SavesFp, Extendeds, EncodeAll, AfterFp, Dumped;
    var u, t := AfterFp(env, base, s), AfterCtrl(env, base, s);
    FpuDumpParts(env, base, s);
    FpEffect(env, base, s);
    DumpedKeeps(env, s.regs.fpu, s.regs.pc);
    DCtrlEffect(env, base, u);
    ExtendedsKept(u.mem, t.mem, base);
    LongsKept(u.mem, t.mem, base + 0x80);
  }

  lemma DumpedKeeps(env: Env, f: Fpu, pc: int)
    ensures Dumped(env, f, pc).fp == f.fp && Dumped(env, f, pc).fpcr == f.fpcr
  {
    StatusKeeps(env, f, 0, pc + 54);
  }

  // ---- The stores of the dump tile the snapshot ----

  // Where each instruction of a list writes, as executed: address and length.
  function WritesOf(env: Env, p: seq<Instr>, s: State): seq<(int, nat)>
    decreases |p|
  {
    if p == [] then []
    else
      var n := |WriteData(p[0], s.regs, Loaded(p[0], s))|;
      (if n == 0 then [] else [(WriteAddr(p[0], s.regs), n)]) + WritesOf(env, p[1..], Exec(env, p[0], s))
  }

  lemma {:induction false} WritesAppend(env: Env, p: seq<Instr>, q: seq<Instr>, s: State)
    ensures WritesOf(env, p + q, s) == WritesOf(env, p, s) + WritesOf(env, q, ExecSeq(env, p, s))
    decreases |p|
  {
    hide Exec, WriteData, WriteAddr;
    if p == [] {
      assert p + q == q;
    } else {
      assert (p + q)[0] == p[0] && (p + q)[1..] == p[1..] + q;
      WritesAppend(env, p[1..], q, Exec(env, p[0], s));
    }
  }

  // n cells of equal length from `at` up.
  function Cells(at: int, len: nat, n: nat): seq<(int, nat)> {
    seq(n, k requires 0 <= k < n => (at + k * len, len))
  }

  lemma CellsNone(at: int, len: nat)
    ensures Cells(at, len, 0) == []
  {
  }

  lemma CellsFirst(at: int, len: nat, n: nat)
    requires n > 0
    ensures Cells(at, len, n) == [(at, len)] + Cells(at + len, len, n - 1)
  {
    forall k | 0 < k < n
      ensures Cells(at, len, n)[k] == Cells(at + len, len, n - 1)[k - 1]
    {
      assert at + k * len == at + len + (k - 1) * len;
    }
  }

  // What a list of stores of one longword each, `at` onwards, writes.
  lemma {:induction false} StoreWrites(env: Env, p: seq<Instr>, at: int, s: State)
    requires AllStores(p) && forall k :: 0 <= k < |p| ==> p[k].addr == at + k * 4
    ensures WritesOf(env, p, s) == Cells(at, 4, |p|)
    decreases |p|
  {
    hide Exec, Cells, Loaded;
    if p == [] {
      CellsNone(at, 4);
    } else {
      StoreWrites(env, p[1..], at + 4, Exec(env, p[0], s));
      CellsFirst(at, 4, |p|);
    }
  }

  lemma {:induction false} FpWrites(env: Env, first: Reg, s: State)
    requires FpRoom(first, s)
    ensures WritesOf(env, SavesFp(first), s) == Cells(s.regs.a[0], 12, 8 - first)
    decreases 8 - first
  {
    hide Exec, Byte, Cells;
    var s1 := Exec(env, FmoveX(first, 0), s);
    ExecFmoveX(env, first, s);
    CellsFirst(s.regs.a[0], 12, 8 - first);
    var at: int := s.regs.a[0];
    assert SavesFp(first)[0] == FmoveX(first, 0);
    if first < 7 {
      assert SavesFp(first)[1..] == SavesFp(first + 1);
      FpWrites(env, first + 1, s1);
    } else {
      assert SavesFp(first)[1..] == [];
      CellsNone(at + 12, 12);
    }
  }

  lemma {:induction false} CtrlWrites(env: Env, p: seq<Instr>, at: int, s: State)
    requires forall k :: 0 <= k < |p| ==> p[k].FmoveCtrl? && p[k].addr == at + k * 4
    ensures WritesOf(env, p, s) == Cells(at, 4, |p|)
    decreases |p|
  {
    hide Exec, Cells, Loaded;
    if p == [] {
      CellsNone(at, 4);
    } else {
      CtrlWrites(env, p[1..], at + 4, Exec(env, p[0], s));
      CellsFirst(at, 4, |p|);
    }
  }

  // The cells in the order the dump writes them.
  function DumpCells(base: u32): seq<(int, nat)> {
    Cells(base + 0x80, 4, 8) + Cells(base, 12, 8) + Cells(base + 0x60, 4, 8) + Cells(base + 0xA0, 4, 3)
  }

  lemma FpuDumpWrites(env: Env, base: u32, s: State)
    requires FpuPlaced(base) && s.regs.pc as int + 158 < 0x1_0000_0000
    ensures WritesOf(env, FpuDump(base), s) == DumpCells(base)
  {
    hide ExecSeq, Exec, Byte, Long, Longs, SavesA, SavesFp, SavesD, SavesCtrl, Extendeds, EncodeAll, WritesOf, Cells;
    var a, i, f, d, c := SavesA(Mod32(base + 0x80)), MoveaImm(0, base), SavesFp(0), SavesD(Mod32(base + 0x60)), SavesCtrl(base);
    var s1, s2, s3, s4 := AfterA(env, base, s), AfterA0(env, base, s), AfterFp(env, base, s), AfterD(env, base, s);
    RegListsPlaced(base);
    ToFpEffect(env, base, s);
    ExecOne(env, i, s1);
    WritesAppend(env, a + [i] + f + d, c, s);
    WritesAppend(env, a + [i] + f, d, s);
    WritesAppend(env, a + [i], f, s);
    WritesAppend(env, a, [i], s);
    ExecSeqAppend(env, a + [i] + f, d, s);
    ExecSeqAppend(env, a + [i], f, s);
    ExecSeqAppend(env, a, [i], s);
    StoreWrites(env, a, base + 0x80, s);
    MoveaWrites(env, base, s1);
    FpWrites(env, 0, s2);
    StoreWrites(env, d, base + 0x60, s3);
    CtrlPlaced(base);
    CtrlWrites(env, c, base + 0xA0, s4);
  }

  lemma MoveaWrites(env: Env, base: u32, s: State)
    ensures WritesOf(env, [MoveaImm(0, base)], s) == []
  {
  }

  lemma CtrlPlaced(base: u32)
    requires FpuPlaced(base)
    ensures var c := SavesCtrl(base);
            |c| == 3 && forall k :: 0 <= k < 3 ==> c[k].FmoveCtrl? && c[k].addr == base + 0xA0 + k * 4
  {
  }

  // The cell of DumpCells that holds offset o of the snapshot.
  function CellOf(o: nat): nat
    requires o < FPU_SNAPSHOT_LEN
  {
    if o < 0x60 then 8 + o / 12 else if o < 0x80 then 16 + (o - 0x60) / 4
    else if o < 0xA0 then (o - 0x80) / 4 else 24 + (o - 0xA0) / 4
  }

  /** The dump's stores tile the snapshot: they write inside it, and every byte of it is written by
      exactly one of them. */
  lemma FpuDumpTiles(env: Env, base: u32, s: State, o: int, k: nat)
    requires FpuPlaced(base) && s.regs.pc as int + 158 < 0x1_0000_0000 && k < |WritesOf(env, FpuDump(base), s)|
    ensures |WritesOf(env, FpuDump(base), s)| == 27
    ensures var w := WritesOf(env, FpuDump(base), s)[k];
            w.0 <= base + o < w.0 + w.1 <==> 0 <= o < FPU_SNAPSHOT_LEN && k == CellOf(o)
  {
    hide WritesOf, FpuDump;
    FpuDumpWrites(env, base, s);
    CellAt(base, k);
  }

  lemma CellAt(base: u32, k: nat)
    requires k < 27
    ensures |DumpCells(base)| == 27
    ensures DumpCells(base)[k] ==
      if k < 8 then (base + 0x80 + k * 4, 4) else if k < 16 then (base + (k - 8) * 12, 12)
      else if k < 24 then (base + 0x60 + (k - 16) * 4, 4) else (base + 0xA0 + (k - 24) * 4, 4)
  {
  }

  /** On an FPU that loads FPIAR with the address of each FMOVE.X, the recorded FPIAR is the address of
      the dump's last FMOVE.X: it equals the FPIAR the test left only if that was this very address. */
  lemma RecordedFpiar(env: Env, base: u32, s: State)
    requires FpuPlaced(base) && s.regs.pc as int + 158 < 0x1_0000_0000
    requires forall f: Fpu, n: Reg, pc: u32 :: env.fmoveStatus(f, n, pc).1 == pc
    ensures ReadFpuSnapshot(ExecSeq(env, FpuDump(base), s).mem, base).fpiar == s.regs.pc + 82
  {
    hide ExecSeq, ReadFpuSnapshot;
    FpuDumpEffect(env, base, s);
    LastFpiar(env, s.regs.fpu, 0, s.regs.pc + 54);
  }

  lemma {:induction false} LastFpiar(env: Env, f: Fpu, first: nat, pc: int)
    requires first < 8 && 0 <= pc && pc + 4 * (8 - first) < 0x1_0000_0000
    requires forall f: Fpu, n: Reg, pc: u32 :: env.fmoveStatus(f, n, pc).1 == pc
    ensures StatusFrom(env, f, first, pc).fpiar == pc + 4 * (7 - first)
    decreases 8 - first
  {
    var (fpsr, fpiar) := env.fmoveStatus(f, first, Mod32(pc));
    if first < 7 {
      LastFpiar(env, f.(fpsr := fpsr, fpiar := fpiar), first + 1, pc + 4);
    }
  }

  // ---- Emitting the dump ----

  method EmitSavesFp(buf: array<byte>, p: nat) returns (q: nat)
    requires p + 32 <= buf.Length
    modifies buf
    ensures q == p + 32 && Wrote(old(buf[..]), buf[..], p, EncodeAll(SavesFp(0)))
  {
    hide Wrote, EncodeAll, Encode;
    ghost var prog := SavesFp(0);
    q := p;
    WroteNone(buf[..], p, prog);
    for n := 0 to 8
      invariant q == p + 4 * n
      invariant Wrote(old(buf[..]), buf[..], p, EncodeAll(prog[..n]))
      invariant |EncodeAll(prog[..n])| == q - p
    {
      ghost var was := buf[..];
      q := EmitFmoveXToAnPostinc(buf, q, n, 0);
      WroteNext(old(buf[..]), was, buf[..], p, prog, n);
    }
    assert prog[..8] == prog;
  }

  method EmitSavesCtrl(buf: array<byte>, p: nat, base: u32) returns (q: nat)
    requires p + 24 <= buf.Length
    modifies buf
    ensures q == p + 24 && Wrote(old(buf[..]), buf[..], p, EncodeAll(SavesCtrl(base)))
  {
    hide Wrote, EncodeAll, Encode;
    ghost var prog := SavesCtrl(base);
    ghost var b0 := buf[..];
    WroteNone(b0, p, prog);
    q := EmitFmoveLCtrlToAbs(buf, p, FPCR, Mod32(base + 0xA0));
    ghost var b1 := buf[..];
    WroteNext(b0, b0, b1, p, prog, 0);
    q := EmitFmoveLCtrlToAbs(buf, q, FPSR, Mod32(base + 0xA4));
    ghost var b2 := buf[..];
    WroteNext(b0, b1, b2, p, prog, 1);
    q := EmitFmoveLCtrlToAbs(buf, q, FPIAR, Mod32(base + 0xA8));
    WroteNext(b0, b2, buf[..], p, prog, 2);
    assert prog[..3] == prog;
  }

  lemma FpuDumpCode(base: u32)
    ensures EncodeAll(FpuDump(base)) ==
            EncodeAll(SavesA(Mod32(base + 0x80))) + Encode(MoveaImm(0, base)) + EncodeAll(SavesFp(0))
            + EncodeAll(SavesD(Mod32(base + 0x60))) + EncodeAll(SavesCtrl(base))
    ensures |EncodeAll(FpuDump(base))| == 158
  {
    hide SavesA, SavesFp, SavesD, SavesCtrl, Encode, EncodeAll;
    var a, i, f, d, c := SavesA(Mod32(base + 0x80)), MoveaImm(0, base), SavesFp(0), SavesD(Mod32(base + 0x60)), SavesCtrl(base);
    EncodeAllAppend(a + [i] + f + d, c);
    EncodeAllAppend(a + [i] + f, d);
    EncodeAllAppend(a + [i], f);
    EncodeAllAppend(a, [i]);
    EncodeOne(i);
    FpuSizes(Mod32(base + 0x80));
    FpuSizes(Mod32(base + 0x60));
    FpuSizes(base);
  }

  method EmitFpuDump(buf: array<byte>, p: nat, base: u32) returns (q: nat)
    requires p + 158 <= buf.Length
    modifies buf
    ensures q == p + 158 == p + |EncodeAll(FpuDump(base))|
    ensures Wrote(old(buf[..]), buf[..], p, EncodeAll(FpuDump(base)))
  {
    hide Wrote, EncodeAll, Encode, SavesA, SavesD, SavesFp, SavesCtrl, FpuDump;
    ghost var b0 := buf[..];
    q := EmitSavesA(buf, p, Mod32(base + 0x80));
    ghost var b1 := buf[..];
    q := EmitMoveaLImmToAn(buf, q, 0, base);
    ghost var b2 := buf[..];
    q := EmitSavesFp(buf, q);
    ghost var b3 := buf[..];
    q := EmitSavesD(buf, q, Mod32(base + 0x60));
    ghost var b4 := buf[..];
    q := EmitSavesCtrl(buf, q, base);
    WroteDump(base, p, b0, b1, b2, b3, b4, buf[..]);
  }

  lemma WroteDump(base: u32, p: nat, b0: seq<byte>, b1: seq<byte>, b2: seq<byte>, b3: seq<byte>, b4: seq<byte>, b5: seq<byte>)
    requires Wrote(b0, b1, p, EncodeAll(SavesA(Mod32(base + 0x80)))) && Wrote(b1, b2, p + 48, Encode(MoveaImm(0, base)))
    requires Wrote(b2, b3, p + 54, EncodeAll(SavesFp(0))) && Wrote(b3, b4, p + 86, EncodeAll(SavesD(Mod32(base + 0x60))))
    requires Wrote(b4, b5, p + 134, EncodeAll(SavesCtrl(base)))
    ensures Wrote(b0, b5, p, EncodeAll(FpuDump(base))) && |EncodeAll(FpuDump(base))| == 158
  {
    hide Wrote, SavesA, SavesFp, SavesD, SavesCtrl, FpuDump, Encode, EncodeAll;
    var a, i, f, d, c := EncodeAll(SavesA(Mod32(base + 0x80))), Encode(MoveaImm(0, base)), EncodeAll(SavesFp(0)),
                         EncodeAll(SavesD(Mod32(base + 0x60))), EncodeAll(SavesCtrl(base));
    FpuSizes(Mod32(base + 0x80));
    FpuSizes(Mod32(base + 0x60));
    FpuSizes(base);
    FpuDumpCode(base);
    WroteThen(b0, b1, b2, p, a, i);
    WroteThen(b0, b2, b3, p, a + i, f);
    WroteThen(b0, b3, b4, p, a + i + f, d);
    WroteThen(b0, b4, b5, p, a + i + f + d, c);
  }

  // ---- build_program ----

  datatype FpuSpec = FpuSpec(preload: seq<byte>, test: seq<byte>)
  type FpuTest = t: FpuSpec | |t.preload| <= 40 && |t.test| <= 8 witness FpuSpec([], [])

  // Addresses of prog_buffer, init_snap and final_snap.
  datatype FpuLayout = FpuLayout(code: u32, initSnap: u32, finalSnap: u32)

  predicate FpuLaidOut(L: FpuLayout) {
    && L.code + PROG_LEN < 0x1_0000_0000 && FpuPlaced(L.initSnap) && FpuPlaced(L.finalSnap)
    && Disjoint(L.initSnap, FPU_SNAPSHOT_LEN, L.finalSnap, FPU_SNAPSHOT_LEN)
    && Disjoint(L.code, PROG_LEN, L.initSnap, FPU_SNAPSHOT_LEN) && Disjoint(L.code, PROG_LEN, L.finalSnap, FPU_SNAPSHOT_LEN)
  }

  function Reset(): seq<Instr> {
    ClearD(0) + ClearA(7)
  }

  function FpuFinal(L: FpuLayout): seq<byte> {
    EncodeAll(FpuDump(L.finalSnap)) + Encode(Rts)
  }

  function FpuFromInit(L: FpuLayout, t: FpuTest): seq<byte> {
    EncodeAll(FpuDump(L.initSnap)) + (t.test + FpuFinal(L))
  }

  function FpuProgram(L: FpuLayout, t: FpuTest): seq<byte> {
    EncodeAll(Reset()) + (t.preload + FpuFromInit(L, t))
  }

  function FpuInitAt(t: FpuTest): nat { 30 + |t.preload| }
  function FpuTestAt(t: FpuTest): nat { FpuInitAt(t) + 158 }
  function FpuFinalAt(t: FpuTest): nat { FpuTestAt(t) + |t.test| }
  function FpuRtsAt(t: FpuTest): nat { FpuFinalAt(t) + 158 }

  lemma ResetCode()
    ensures EncodeAll(Reset()) == EncodeAll(ClearD(0)) + EncodeAll(ClearA(7))
    ensures |EncodeAll(ClearD(0))| == 16 && |EncodeAll(ClearA(7))| == 14 && Size(Rts) == 2
  {
    assert Size(Rts) == 2;
    hide EncodeAll, ClearD, ClearA;
    ClearDSize(0);
    ClearASize(7);
    EncodeAllAppend(ClearD(0), ClearA(7));
  }

  lemma FpuProgramLength(L: FpuLayout, t: FpuTest)
    ensures |FpuProgram(L, t)| == 348 + |t.preload| + |t.test| == FpuRtsAt(t) + 2 <= PROG_LEN
  {
    hide EncodeAll, Encode, Reset, FpuDump;
    ResetCode();
    FpuDumpCode(L.initSnap);
    FpuDumpCode(L.finalSnap);
  }

  method BuildProgram(prog: array<byte>, L: FpuLayout, t: FpuTest) returns (entry: u32)
    requires prog.Length == PROG_LEN
    modifies prog
    ensures entry == L.code && Wrote(old(prog[..]), prog[..], 0, FpuProgram(L, t))
  {
    hide Wrote, EncodeAll, Encode, ClearD, ClearA, FpuDump, FpuProgram;
    ghost var b0 := prog[..];
    entry := L.code;
    var p := EmitReset(prog, 0);
    ghost var b2 := prog[..];
    p := PutBytes(prog, p, t.preload);
    ghost var b3 := prog[..];
    p := EmitFpuDump(prog, p, L.initSnap);
    ghost var b4 := prog[..];
    p := PutBytes(prog, p, t.test);
    ghost var b5 := prog[..];
    p := EmitFpuDump(prog, p, L.finalSnap);
    ghost var b6 := prog[..];
    p := EmitRts(prog, p);
    WroteProgram(L, t, b0, b2, b3, b4, b5, b6, prog[..]);
  }

  method EmitReset(buf: array<byte>, p: nat) returns (q: nat)
    requires p + 30 <= buf.Length
    modifies buf
    ensures q == p + 30 && Wrote(old(buf[..]), buf[..], p, EncodeAll(Reset()))
  {
    hide Wrote, EncodeAll, Encode, ClearD, ClearA;
    ghost var b0 := buf[..];
    q := EmitClearD(buf, p, 0);
    ghost var b1 := buf[..];
    q := EmitClearA(buf, q, 7);
    ResetCode();
    WroteThen(b0, b1, buf[..], p, EncodeAll(ClearD(0)), EncodeAll(ClearA(7)));
  }

  lemma WroteProgram(L: FpuLayout, t: FpuTest, b0: seq<byte>, b1: seq<byte>, b2: seq<byte>, b3: seq<byte>, b4: seq<byte>,
                     b5: seq<byte>, b6: seq<byte>)
    requires Wrote(b0, b1, 0, EncodeAll(Reset())) && Wrote(b1, b2, 30, t.preload)
    requires Wrote(b2, b3, FpuInitAt(t), EncodeAll(FpuDump(L.initSnap))) && Wrote(b3, b4, FpuTestAt(t), t.test)
    requires Wrote(b4, b5, FpuFinalAt(t), EncodeAll(FpuDump(L.finalSnap))) && Wrote(b5, b6, FpuRtsAt(t), Encode(Rts))
    ensures Wrote(b0, b6, 0, FpuProgram(L, t))
  {
    hide Wrote, EncodeAll, Encode, Reset, FpuDump;
    var r, x, y, z := EncodeAll(Reset()), EncodeAll(FpuDump(L.initSnap)), EncodeAll(FpuDump(L.finalSnap)), Encode(Rts);
    ResetCode();
    FpuDumpCode(L.initSnap);
    FpuDumpCode(L.finalSnap);
    WroteThen(b0, b1, b2, 0, r, t.preload);
    WroteThen(b0, b2, b3, 0, r + t.preload, x);
    WroteThen(b0, b3, b4, 0, r + t.preload + x, t.test);
    WroteThen(b0, b4, b5, 0, r + t.preload + x + t.test, y);
    WroteThen(b0, b5, b6, 0, r + t.preload + x + t.test + y, z);
    FpuProgramParts(L, t);
  }

  lemma FpuProgramParts(L: FpuLayout, t: FpuTest)
    ensures EncodeAll(Reset()) + t.preload + EncodeAll(FpuDump(L.initSnap)) + t.test + EncodeAll(FpuDump(L.finalSnap))
            + Encode(Rts) == FpuProgram(L, t)
  {
    hide EncodeAll, Encode, Reset, FpuDump;
    var r, x, y, z := EncodeAll(Reset()), EncodeAll(FpuDump(L.initSnap)), EncodeAll(FpuDump(L.finalSnap)), Encode(Rts);
    assert r + t.preload + x + t.test + y + z == r + t.preload + x + (t.test + FpuFinal(L));
  }

  // ---- Running the program ----

  // t is s after a dump to `base`: the snapshot holds s, A0 and the FPU status are the dump's.
  ghost predicate FpuDumped(env: Env, base: u32, s: State, t: State)
    requires FpuPlaced(base) && s.regs.pc as int + 158 < 0x1_0000_0000
  {
    var f := Dumped(env, s.regs.fpu, s.regs.pc);
    && t.regs == s.regs.(pc := s.regs.pc + 158, ccr := t.regs.ccr, a := s.regs.a[0 := base + 0x60], fpu := f)
    && f.fp == s.regs.fpu.fp && f.fpcr == s.regs.fpu.fpcr
    && ReadFpuSnapshot(t.mem, base) == FpuSnapshot(s.regs.fpu.fp, s.regs.d, s.regs.a, s.regs.fpu.fpcr, f.fpsr, f.fpiar)
    && SameOutside(s.mem, t.mem, base, base + FPU_SNAPSHOT_LEN)
  }

  lemma FpuDumpSpares(env: Env, base: u32, s: State, lo: int, hi: int)
    requires FpuPlaced(base) && s.regs.pc as int + 158 < 0x1_0000_0000
    requires lo <= hi && Disjoint(base, FPU_SNAPSHOT_LEN, lo, hi - lo)
    ensures SparesAll(env, FpuDump(base), s, lo, hi)
  {
    hide ExecSeq, Exec, Byte, Long, Longs, SavesA, SavesFp, SavesCtrl, SavesD, Extendeds, EncodeAll, SparesAll, Dumped;
    var a, i, f, d, c := SavesA(Mod32(base + 0x80)), MoveaImm(0, base), SavesFp(0), SavesD(Mod32(base + 0x60)), SavesCtrl(base);
    var s1, s2, s3, s4 := AfterA(env, base, s), AfterA0(env, base, s), AfterFp(env, base, s), AfterD(env, base, s);
    RegListsPlaced(base);
    ToFpEffect(env, base, s);
    RegSavesSpare(env, a, base + 0x80, s, lo, hi);
    MoveaSpares(env, base, s1, lo, hi);
    SavesFpSpare(env, 0, s2, lo, hi);
    RegSavesSpare(env, d, base + 0x60, s3, lo, hi);
    SavesCtrlSpare(env, base, s4, lo, hi);
    ExecOne(env, i, s1);
    SparesAllAppend(env, a, [i], s, lo, hi);
    ExecSeqAppend(env, a, [i], s);
    SparesAllAppend(env, a + [i], f, s, lo, hi);
    ExecSeqAppend(env, a + [i], f, s);
    SparesAllAppend(env, a + [i] + f, d, s, lo, hi);
    ExecSeqAppend(env, a + [i] + f, d, s);
    SparesAllAppend(env, a + [i] + f + d, c, s, lo, hi);
  }

  lemma RegListsPlaced(base: u32)
    requires FpuPlaced(base)
    ensures RegSaves(SavesA(Mod32(base + 0x80)), base + 0x80) && RegSaves(SavesD(Mod32(base + 0x60)), base + 0x60)
  {
  }

  lemma MoveaSpares(env: Env, base: u32, s: State, lo: int, hi: int)
    ensures SparesAll(env, [MoveaImm(0, base)], s, lo, hi)
  {
  }

  lemma CtrlSpares(env: Env, i: Instr, s: State, lo: int, hi: int)
    requires i.FmoveCtrl? && lo <= hi && Disjoint(i.addr, 4, lo, hi - lo)
    ensures Spares(i, s, lo, hi)
  {
  }

  lemma SavesCtrlSpare(env: Env, base: u32, s: State, lo: int, hi: int)
    requires FpuPlaced(base) && lo <= hi && Disjoint(base, FPU_SNAPSHOT_LEN, lo, hi - lo)
    ensures SparesAll(env, SavesCtrl(base), s, lo, hi)
  {
    hide Exec, Spares;
    var p := SavesCtrl(base);
    var s1 := Exec(env, p[0], s);
    CtrlSpares(env, p[0], s, lo, hi);
    CtrlSpares(env, p[1], s1, lo, hi);
    var s2 := Exec(env, p[1], s1);
    CtrlSpares(env, p[2], s2, lo, hi);
    assert p[1..] == [p[1], p[2]] && [p[1], p[2]][1..] == [p[2]] && [p[2]][1..] == [];
    assert SparesAll(env, [p[2]], s2, lo, hi);
    assert SparesAll(env, [p[1], p[2]], s1, lo, hi);
  }

  /** Dump code runs in 28 steps with the effect of the dump. */
  lemma FpuDumpRuns(env: Env, base: u32, s: State, lo: int, hi: int)
    requires FpuPlaced(base) && Disjoint(base, FPU_SNAPSHOT_LEN, lo, hi - lo)
    requires CodeAt(s.mem, s.regs.pc, EncodeAll(FpuDump(base)))
    requires lo <= s.regs.pc && s.regs.pc as int + 158 <= hi < 0x1_0000_0000
    ensures FpuDumped(env, base, s, Run(env, s, 28))
  {
    hide Run, ExecSeq, Encode, EncodeAll, CodeAt, ReadFpuSnapshot, Dumped, SparesAll, FpuDump, Linear;
    FpuDumpCode(base);
    FpuDumpSpares(env, base, s, lo, hi);
    FpuDumpLinear(base);
    FpuDumpEffect(env, base, s);
    RunLinear(env, FpuDump(base), s, lo, hi);
  }

  lemma FpuDumpLinear(base: u32)
    ensures |FpuDump(base)| == 28 && forall i | i in FpuDump(base) :: Linear(i)
  {
    SavesALinear(Mod32(base + 0x80));
    SavesALinear(Mod32(base + 0x60));
    SavesALinear(base);
    hide SavesA, SavesD, SavesFp, SavesCtrl;
    FpuLengths(base);
  }

  lemma FpuLengths(base: u32)
    ensures |SavesA(Mod32(base + 0x80))| == 8 && |SavesD(Mod32(base + 0x60))| == 8
    ensures |SavesFp(0)| == 8 && |SavesCtrl(base)| == 3
  {
  }

  lemma ResetQuiet()
    ensures |Reset()| == 15 && forall i | i in Reset() :: CpuHarness.Quiet(i)
  {
  }

  lemma ResetRuns(env: Env, s: State, hi: int)
    requires CodeAt(s.mem, s.regs.pc, EncodeAll(Reset())) && s.regs.pc as int + 30 <= hi < 0x1_0000_0000
    ensures var t := Run(env, s, 15);
            && (forall n :: 0 <= n < 8 ==> t.regs.d[n] == 0) && (forall n :: 0 <= n < 7 ==> t.regs.a[n] == 0)
            && t.regs.a[7] == s.regs.a[7] && t.regs.fpu == s.regs.fpu && t.regs.pc == s.regs.pc + 30
            && forall x :: Byte(t.mem, x) == Byte(s.mem, x)
  {
    hide Run, ExecSeq, Encode, EncodeAll, CodeAt, SparesAll, ClearD, ClearA, CpuHarness.Quiet, Linear;
    var p := Reset();
    ResetQuiet();
    ResetCode();
    CpuHarness.QuietSeq(env, p, s, s.regs.pc, hi);
    RunLinear(env, p, s, s.regs.pc, hi);
    ExecSeqAppend(env, ClearD(0), ClearA(7), s);
    CpuHarness.ClearDEffect(env, 0, s);
    CpuHarness.ClearAEffect(env, 7, ExecSeq(env, ClearD(0), s));
  }

  predicate FpuAt(L: FpuLayout, s: State, off: nat, code: seq<byte>) {
    s.regs.pc == L.code + off && CodeAt(s.mem, L.code + off, code)
  }

  lemma FpuSnapshotKept(m: Mem, m': Mem, base: int)
    requires Same(m, m', base, base + FPU_SNAPSHOT_LEN)
    ensures ReadFpuSnapshot(m', base) == ReadFpuSnapshot(m, base)
  {
    hide Longs, Long, Extendeds, Byte;
    ExtendedsKept(m, m', base);
    LongsKept(m, m', base + 0x60);
    LongsKept(m, m', base + 0x80);
    LongKept(m, m', base + 0xA0);
    LongKept(m, m', base + 0xA4);
    LongKept(m, m', base + 0xA8);
  }

  // The two dumps around a test that falls through.
  lemma FpuAroundTest(env: Env, L: FpuLayout, t: FpuTest, loaded: State, kt: nat)
    requires FpuLaidOut(L) && FpuAt(L, loaded, FpuInitAt(t), FpuFromInit(L, t))
    requires FpuAt(L, Run(env, Run(env, loaded, 28), kt), FpuFinalAt(t), FpuFinal(L))
    ensures var start := Run(env, loaded, 28);
            var end := Run(env, start, kt);
            var done := Run(env, end, 28);
            && FpuDumped(env, L.initSnap, loaded, start) && FpuAt(L, start, FpuTestAt(t), t.test + FpuFinal(L))
            && FpuDumped(env, L.finalSnap, end, done) && FpuAt(L, done, FpuRtsAt(t), Encode(Rts))
            && (Same(start.mem, end.mem, L.initSnap, L.initSnap + FPU_SNAPSHOT_LEN)
                ==> ReadFpuSnapshot(done.mem, L.initSnap) == ReadFpuSnapshot(start.mem, L.initSnap))
  {
    hide Run, Byte, CodeAt, EncodeAll, Encode, FpuDump, ReadFpuSnapshot, Dumped;
    var start := Run(env, loaded, 28);
    var end := Run(env, start, kt);
    var done := Run(env, end, 28);
    FpuProgramLength(L, t);
    ResetCode();
    FpuInitRuns(env, L, t, loaded);
    FpuFinalRuns(env, L, t, end);
    if Same(start.mem, end.mem, L.initSnap, L.initSnap + FPU_SNAPSHOT_LEN) {
      FpuSnapshotKept(start.mem, done.mem, L.initSnap);
    }
  }

  // What the reset leaves: D0-D7 and A0-A6 zero, A7 and the FPU as they were.
  predicate FpuCleared(r: Regs, was: Regs) {
    && (forall n :: 0 <= n < 8 ==> r.d[n] == 0) && (forall n :: 0 <= n < 7 ==> r.a[n] == 0)
    && r.a[7] == was.a[7] && r.fpu == was.fpu
  }

  lemma FpuResetFalls(env: Env, L: FpuLayout, t: FpuTest, s: State)
    requires FpuLaidOut(L) && FpuAt(L, s, 0, FpuProgram(L, t))
    ensures var u := Run(env, s, 15);
            && FpuCleared(u.regs, s.regs) && FpuAt(L, u, 30, t.preload + FpuFromInit(L, t))
            && forall x :: Byte(u.mem, x) == Byte(s.mem, x)
  {
    hide Run, CodeAt, FpuFromInit, EncodeAll, Byte, Reset;
    ResetCode();
    var rest := t.preload + FpuFromInit(L, t);
    CodeAtSplit(s.mem, s.regs.pc, EncodeAll(Reset()), rest);
    ResetRuns(env, s, L.code + PROG_LEN);
    CodeKept(s.mem, Run(env, s, 15).mem, L.code + 30, rest);
  }

  /** Observation from the entry point. Whatever the preload and the test do, if each falls through to the
      dump behind it and leaves the code still to run alone: init_snap records the state the preload left -
      of FPSR and FPIAR what the dump's own FMOVE.X made of them - and the test starts in that state but for
      A0, which points behind the FP area of init_snap, CCR, and the same two FPU registers; final_snap
      records the state the test ended in, in the same sense. */
  lemma FpuObservation(env: Env, L: FpuLayout, t: FpuTest, s: State, kp: nat, kt: nat)
    requires FpuLaidOut(L) && FpuAt(L, s, 0, FpuProgram(L, t))
    requires FpuAt(L, Run(env, Run(env, s, 15), kp), FpuInitAt(t), FpuFromInit(L, t))
    requires var start := Run(env, Run(env, Run(env, s, 15), kp), 28);
             FpuAt(L, Run(env, start, kt), FpuFinalAt(t), FpuFinal(L))
    ensures var first := Run(env, s, 15);          // the preload's first instruction
            var loaded := Run(env, first, kp);     // the initial dump's first instruction
            var start := Run(env, loaded, 28);     // the test's first instruction
            var end := Run(env, start, kt);        // the final dump's first instruction
            var done := Run(env, end, 28);         // the RTS
            && FpuCleared(first.regs, s.regs) && FpuAt(L, first, 30, t.preload + FpuFromInit(L, t))
            && FpuDumped(env, L.initSnap, loaded, start) && FpuAt(L, start, FpuTestAt(t), t.test + FpuFinal(L))
            && FpuDumped(env, L.finalSnap, end, done) && FpuAt(L, done, FpuRtsAt(t), Encode(Rts))
            && (Same(start.mem, end.mem, L.initSnap, L.initSnap + FPU_SNAPSHOT_LEN)
                ==> ReadFpuSnapshot(done.mem, L.initSnap) == ReadFpuSnapshot(start.mem, L.initSnap))
            && done == Run(env, s, 15 + kp + 28 + kt + 28)
  {
    hide Run, Byte, CodeAt, EncodeAll, Encode, FpuDumped, ReadFpuSnapshot, FpuFinal, FpuFromInit, FpuProgram, FpuCleared;
    FpuResetFalls(env, L, t, s);
    FpuAroundTest(env, L, t, Run(env, Run(env, s, 15), kp), kt);
    FpuProgramLength(L, t);
    RunAdd(env, s, 15, kp);
    RunAdd(env, s, 15 + kp, 28);
    RunAdd(env, s, 15 + kp + 28, kt);
    RunAdd(env, s, 15 + kp + 28 + kt, 28);
  }

  lemma FpuInitRuns(env: Env, L: FpuLayout, t: FpuTest, s: State)
    requires FpuLaidOut(L) && FpuAt(L, s, FpuInitAt(t), FpuFromInit(L, t))
    ensures var u := Run(env, s, 28);
            FpuDumped(env, L.initSnap, s, u) && FpuAt(L, u, FpuTestAt(t), t.test + FpuFinal(L))
  {
    hide Run, Byte, CodeAt, EncodeAll, Encode, FpuDump, ReadFpuSnapshot, Dumped, FpuFinal;
    var rest := t.test + FpuFinal(L);
    FpuFinalLength(L);
    FpuDumpCode(L.initSnap);
    CodeAtSplit(s.mem, s.regs.pc, EncodeAll(FpuDump(L.initSnap)), rest);
    FpuDumpRuns(env, L.initSnap, s, L.code, L.code + PROG_LEN);
    CodeOff(s.mem, Run(env, s, 28).mem, L.initSnap, L.code + FpuTestAt(t), rest);
  }

  lemma FpuFinalRuns(env: Env, L: FpuLayout, t: FpuTest, s: State)
    requires FpuLaidOut(L) && FpuAt(L, s, FpuFinalAt(t), FpuFinal(L))
    ensures var u := Run(env, s, 28);
            FpuDumped(env, L.finalSnap, s, u) && FpuAt(L, u, FpuRtsAt(t), Encode(Rts))
  {
    hide Run, Byte, CodeAt, EncodeAll, Encode, FpuDump, ReadFpuSnapshot, Dumped;
    FpuFinalLength(L);
    ResetCode();
    FpuDumpCode(L.finalSnap);
    CodeAtSplit(s.mem, s.regs.pc, EncodeAll(FpuDump(L.finalSnap)), Encode(Rts));
    FpuDumpRuns(env, L.finalSnap, s, L.code, L.code + PROG_LEN);
    CodeOff(s.mem, Run(env, s, 28).mem, L.finalSnap, L.code + FpuRtsAt(t), Encode(Rts));
  }

  lemma FpuFinalLength(L: FpuLayout)
    ensures |FpuFinal(L)| == 160
  {
    hide EncodeAll, Encode, FpuDump;
    FpuDumpCode(L.finalSnap);
    ResetCode();
  }

  lemma CodeOff(m: Mem, m': Mem, base: int, a: int, code: seq<byte>)
    requires SameOutside(m, m', base, base + FPU_SNAPSHOT_LEN) && Disjoint(base, FPU_SNAPSHOT_LEN, a, |code|)
    requires CodeAt(m, a, code)
    ensures CodeAt(m', a, code)
  {
  }

  /** The test finds in A0 what init_snap records there exactly when the preload left A0 at the address
      behind the FP area of init_snap: the dump's own use of A0 is visible to the test. */
  lemma InheritedA0(env: Env, L: FpuLayout, t: FpuTest, loaded: State)
    requires FpuLaidOut(L) && FpuAt(L, loaded, FpuInitAt(t), FpuFromInit(L, t))
    ensures var start := Run(env, loaded, 28);
            && (forall n :: 1 <= n < 8 ==> ReadFpuSnapshot(start.mem, L.initSnap).a[n] == start.regs.a[n])
            && (ReadFpuSnapshot(start.mem, L.initSnap).a[0] == start.regs.a[0]
                <==> loaded.regs.a[0] == L.initSnap + 0x60)
  {
    hide Run, Byte, CodeAt, EncodeAll, Encode, FpuDump, ReadFpuSnapshot, Dumped, FpuFinal;
    FpuInitRuns(env, L, t, loaded);
  }

  /** It differs for every test without preload: the reset leaves A0 zero, init_snap records zero, and the
      test finds the address behind the FP area. */
  lemma ResetA0Differs(env: Env, L: FpuLayout, t: FpuTest, s: State)
    requires FpuLaidOut(L) && FpuAt(L, s, 0, FpuProgram(L, t)) && t.preload == []
    ensures var start := Run(env, Run(env, s, 15), 28);
            && ReadFpuSnapshot(start.mem, L.initSnap).a[0] == 0 && start.regs.a[0] == L.initSnap + 0x60 != 0
  {
    hide Run, Byte, CodeAt, EncodeAll, Encode, FpuDump, ReadFpuSnapshot, Dumped, FpuFinal;
    FpuResetFalls(env, L, t, s);
    assert [] + FpuFromInit(L, t) == FpuFromInit(L, t);
    FpuInitRuns(env, L, t, Run(env, s, 15));
  }
}
