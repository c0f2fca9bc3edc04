/** What cpu_bench.c and cpu_test_macii.c share around a test: where the buffers
    lie, the register reset in front of the preload, and the running of a dump. */
module CpuHarness {
  import opened Bytes
  import opened M68k
  import opened Machine
  import opened Emit
  import opened StateDump

  const PROG_LEN: nat := 1024

  // A test specification; the tables bound both byte strings.
  datatype Spec = Spec(name: string, preload: seq<byte>, test: seq<byte>)
  type CpuTest = t: Spec | |t.preload| <= 30 && |t.test| <= 18 witness Spec("", [], [])

  // Addresses of prog_buffer, init_snap, final_snap, scratch_ram and the saved stack pointer cell
  // (g_saved_sp, saved_a7).
  datatype Layout = Layout(code: u32, initSnap: u32, finalSnap: u32, scratch: u32, savedSp: u32)

  predicate Placed(L: Layout) {
    && L.code + PROG_LEN < 0x1_0000_0000 && L.savedSp + 4 < 0x1_0000_0000
    && DumpPlaced(L.initSnap, L.scratch) && DumpPlaced(L.finalSnap, L.scratch)
    && Disjoint(L.initSnap, SNAPSHOT_LEN, L.finalSnap, SNAPSHOT_LEN)
    && Disjoint(L.code, PROG_LEN, L.initSnap, SNAPSHOT_LEN) && Disjoint(L.code, PROG_LEN, L.finalSnap, SNAPSHOT_LEN)
    && Disjoint(L.code, PROG_LEN, L.scratch, SCRATCH_LEN) && Disjoint(L.code, PROG_LEN, L.savedSp, 4)
    && Disjoint(L.savedSp, 4, L.initSnap, SNAPSHOT_LEN) && Disjoint(L.savedSp, 4, L.finalSnap, SNAPSHOT_LEN)
    && Disjoint(L.savedSp, 4, L.scratch, SCRATCH_LEN)
  }

  // ---- The prelude: registers to zero, A6 to the scratch RAM, CCR to zero ----

  function Prelude(scratch: u32): seq<Instr> {
    ClearD(0) + ClearA(6) + [MoveaImm(6, scratch), MoveImmCcr(0)]
  }

  lemma PreludeCode(scratch: u32)
    ensures EncodeAll(Prelude(scratch)) ==
            EncodeAll(ClearD(0)) + EncodeAll(ClearA(6)) + Encode(MoveaImm(6, scratch)) + Encode(MoveImmCcr(0))
    ensures |EncodeAll(ClearD(0))| == 16 && |EncodeAll(ClearA(6))| == 12
    ensures |EncodeAll(Prelude(scratch))| == 38
  {
    hide Encode, EncodeAll, ClearD, ClearA;
    var d, a, m, c := ClearD(0), ClearA(6), MoveaImm(6, scratch), MoveImmCcr(0);
    PreludeSizes(scratch);
    EncodeAllAppend(d, a);
    EncodeOne(m);
    EncodeOne(c);
    EncodeAllAppend([m], [c]);
    EncodeAllAppend(d + a, [m, c]);
    assert [m] + [c] == [m, c];
    assert EncodeAll(d) + EncodeAll(a) + (Encode(m) + Encode(c)) == EncodeAll(d) + EncodeAll(a) + Encode(m) + Encode(c);
  }

  lemma PreludeSizes(scratch: u32)
    ensures Size(MoveaImm(6, scratch)) == 6 && Size(MoveImmCcr(0)) == 4
    ensures |EncodeAll(ClearD(0))| == 16 && |EncodeAll(ClearA(6))| == 12
  {
    hide EncodeAll, ClearD, ClearA;
    ClearDSize(0);
    ClearASize(6);
  }

  method EmitPrelude(buf: array<byte>, p: nat, scratch: u32) returns (q: nat)
    requires p + 38 <= buf.Length
    modifies buf
    ensures q == p + 38 == p + |EncodeAll(Prelude(scratch))|
    ensures Wrote(old(buf[..]), buf[..], p, EncodeAll(Prelude(scratch)))
  {
    hide Wrote, EncodeAll, Encode, ClearD, ClearA, Prelude;
    PreludeCode(scratch);
    ghost var d, a := EncodeAll(ClearD(0)), EncodeAll(ClearA(6));
    ghost var b0 := buf[..];
    q := EmitClearD(buf, p, 0);
    ghost var b1 := buf[..];
    q := EmitClearA(buf, q, 6);
    ghost var b2 := buf[..];
    WroteThen(b0, b1, b2, p, d, a);
    q := EmitMoveaLImmToAn(buf, q, 6, scratch);
    ghost var b3 := buf[..];
    WroteThen(b0, b2, b3, p, d + a, Encode(MoveaImm(6, scratch)));
    q := EmitMoveWImmToCcr(buf, q, 0);
    WroteThen(b0, b3, buf[..], p, d + a + Encode(MoveaImm(6, scratch)), Encode(MoveImmCcr(0)));
  }

  // The registers the preload inherits: D0-D7, A0-A5 and CCR zero, A6 the scratch base, A7 kept.
  predicate Zeroed(r: Regs, scratch: u32, a7: u32) {
    && (forall n :: 0 <= n < 8 ==> r.d[n] == 0) && (forall n :: 0 <= n < 6 ==> r.a[n] == 0)
    && r.a[6] == scratch && r.a[7] == a7 && r.ccr == Ccr(false, false, false, false, false)
  }

  // An instruction that writes only registers.
  predicate Quiet(i: Instr) {
    i.Moveq? || i.Suba? || i.MoveaImm? || i.MoveImmD? || i.MoveImmCcr? || i.LoadA? || i.SubqA7?
  }

  lemma {:induction false} QuietSeq(env: Env, p: seq<Instr>, s: State, lo: int, hi: int)
    requires forall i | i in p :: Quiet(i)
    ensures SparesAll(env, p, s, lo, hi)
    ensures forall x :: Byte(ExecSeq(env, p, s).mem, x) == Byte(s.mem, x)
    ensures forall i | i in p :: Linear(i)
    decreases |p|
  {
    hide Exec, Spares, Byte;
    if p != [] {
      QuietOne(env, p[0], s, lo, hi);
      QuietSeq(env, p[1..], Exec(env, p[0], s), lo, hi);
    }
  }

  lemma QuietOne(env: Env, i: Instr, s: State, lo: int, hi: int)
    requires Quiet(i)
    ensures Spares(i, s, lo, hi)
    ensures forall x :: Byte(Exec(env, i, s).mem, x) == Byte(s.mem, x)
  {
  }

  lemma {:induction false} ClearDEffect(env: Env, first: Reg, s: State)
    ensures var t := ExecSeq(env, ClearD(first), s);
            && (forall n :: first <= n < 8 ==> t.regs.d[n] == 0) && (forall n :: 0 <= n < first ==> t.regs.d[n] == s.regs.d[n])
            && t.regs.a == s.regs.a && t.regs.fpu == s.regs.fpu
    decreases 8 - first
  {
    var s1 := Exec(env, Moveq(first, 0), s);
    assert ClearD(first)[0] == Moveq(first, 0);
    if first < 7 {
      assert ClearD(first)[1..] == ClearD(first + 1);
      ClearDEffect(env, first + 1, s1);
    } else {
      assert ClearD(first)[1..] == [];
    }
  }

  lemma {:induction false} ClearAEffect(env: Env, count: nat, s: State)
    requires count <= 8
    ensures var t := ExecSeq(env, ClearA(count), s);
            && (forall n :: 0 <= n < count ==> t.regs.a[n] == 0) && (forall n :: count <= n < 8 ==> t.regs.a[n] == s.regs.a[n])
            && t.regs.d == s.regs.d && t.regs.fpu == s.regs.fpu
  {
    if count > 0 {
      var p := ClearA(count - 1);
      assert ClearA(count) == p + [Suba(count - 1, count - 1)];
      ExecSeqAppend(env, p, [Suba(count - 1, count - 1)], s);
      ClearAEffect(env, count - 1, s);
      ExecOne(env, Suba(count - 1, count - 1), ExecSeq(env, p, s));
    }
  }

  lemma PreludeEffect(env: Env, scratch: u32, s: State)
    ensures Zeroed(ExecSeq(env, Prelude(scratch), s).regs, scratch, s.regs.a[7])
    ensures ExecSeq(env, Prelude(scratch), s).regs.fpu == s.regs.fpu
  {
    hide ClearD, ClearA;
    var d, a, tail := ClearD(0), ClearA(6), [MoveaImm(6, scratch), MoveImmCcr(0)];
    var s1 := ExecSeq(env, d, s);
    var s2 := ExecSeq(env, a, s1);
    ClearDEffect(env, 0, s);
    ClearAEffect(env, 6, s1);
    ExecSeqAppend(env, d, a, s);
    ExecSeqAppend(env, d + a, tail, s);
    PreludeTail(env, scratch, s2);
  }

  lemma PreludeTail(env: Env, scratch: u32, s: State)
    ensures var t := ExecSeq(env, [MoveaImm(6, scratch), MoveImmCcr(0)], s);
            t.regs == s.regs.(a := s.regs.a[6 := scratch], ccr := Ccr(false, false, false, false, false), pc := t.regs.pc)
  {
    var i, j := MoveaImm(6, scratch), MoveImmCcr(0);
    assert [i, j][1..] == [j];
    ExecOne(env, j, Exec(env, i, s));
  }

  lemma PreludeQuiet(scratch: u32)
    ensures |Prelude(scratch)| == 16 && forall i | i in Prelude(scratch) :: Quiet(i)
  {
  }

  /** The prelude runs in 16 steps and leaves every register the preload inherits at its fixed value. */
  lemma PreludeRuns(env: Env, scratch: u32, s: State, hi: int)
    requires CodeAt(s.mem, s.regs.pc, EncodeAll(Prelude(scratch)))
    requires s.regs.pc + 38 <= hi < 0x1_0000_0000
    ensures var t := Run(env, s, 16);
            && Zeroed(t.regs, scratch, s.regs.a[7]) && t.regs.fpu == s.regs.fpu
            && t.regs.pc == s.regs.pc + 38 && forall x :: Byte(t.mem, x) == Byte(s.mem, x)
  {
    hide Prelude, ExecSeq, Run, SparesAll, EncodeAll, Encode, Quiet, Linear, Zeroed, CodeAt, Byte;
    var p := Prelude(scratch);
    PreludeQuiet(scratch);
    PreludeCode(scratch);
    QuietSeq(env, p, s, s.regs.pc, hi);
    RunLinear(env, p, s, s.regs.pc, hi);
    PreludeEffect(env, scratch, s);
  }

  // ---- Running a dump ----

  /** Dump code runs in 33 steps, with the effect of the dump, and leaves [lo, hi) alone. */
  lemma DumpRuns(env: Env, base: u32, scratch: u32, isInit: bool, s: State, lo: int, hi: int)
    requires DumpPlaced(base, scratch) && Disjoint(base, SNAPSHOT_LEN, lo, hi - lo)
    requires CodeAt(s.mem, s.regs.pc, EncodeAll(Dump(base, scratch, isInit)))
    requires lo <= s.regs.pc && s.regs.pc + 262 <= hi < 0x1_0000_0000
    ensures var t := Run(env, s, 33);
            && t.regs == s.regs.(pc := s.regs.pc + 262, ccr := MoveCcr(s.regs.ccr.x, Long(s.mem, scratch + 60)))
            && SameOutside(s.mem, t.mem, base, base + SNAPSHOT_LEN)
            && ReadSnapshot(t.mem, base) == Observed(if isInit then t else s, scratch)
  {
    hide *;
    DumpLength(base, scratch, isInit);
    DumpCode(base, scratch, isInit);
    DumpSpares(env, base, scratch, isInit, s, lo, hi);
    RunLinear(env, Dump(base, scratch, isInit), s, lo, hi);
    DumpEffect(env, base, scratch, isInit, s);
  }

  lemma DumpLength(base: u32, scratch: u32, isInit: bool)
    ensures |Dump(base, scratch, isInit)| == 33
  {
  }
}
