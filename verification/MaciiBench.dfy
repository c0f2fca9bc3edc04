/** cpu_test_macii.c: the same bench with the test bracketed by a save and a
    restore of A7. */
module MaciiBench {
  import opened Bytes
  import opened M68k
  import opened Machine
  import opened Emit
  import opened StateDump
  import opened CpuHarness
  import CpuBench
  import Invoke

  // ---- The program, part by part; L.savedSp is the address of saved_a7 ----

  function SaveA7(L: Layout): Instr { Store(A(7), L.savedSp) }
  function RestoreA7(L: Layout): Instr { LoadA(7, L.savedSp) }

  function Final(L: Layout): seq<byte> {
    Encode(RestoreA7(L)) + (EncodeAll(Dump(L.finalSnap, L.scratch, false)) + Encode(Rts))
  }

  function FromTest(L: Layout, t: CpuTest): seq<byte> {
    t.test + Final(L)
  }

  function FromInit(L: Layout, t: CpuTest): seq<byte> {
    EncodeAll(Dump(L.initSnap, L.scratch, true)) + (Encode(SaveA7(L)) + FromTest(L, t))
  }

  function Program(L: Layout, t: CpuTest): seq<byte> {
    EncodeAll(Prelude(L.scratch)) + (t.preload + FromInit(L, t))
  }

  function InitDumpAt(t: CpuTest): nat { 38 + |t.preload| }
  function TestAt(t: CpuTest): nat { InitDumpAt(t) + 262 + 6 }
  function RestoreAt(t: CpuTest): nat { TestAt(t) + |t.test| }
  function RtsAt(t: CpuTest): nat { RestoreAt(t) + 6 + 262 }

  lemma ProgramLength(L: Layout, t: CpuTest)
    ensures |Program(L, t)| == 576 + |t.preload| + |t.test| <= PROG_LEN
    ensures |Program(L, t)| == RtsAt(t) + 2 && |Final(L)| == 270
    ensures Size(SaveA7(L)) == 6 && Size(RestoreA7(L)) == 6 && Size(Rts) == 2
  {
    hide EncodeAll, Encode, Prelude, Dump;
    PreludeCode(L.scratch);
    DumpCode(L.initSnap, L.scratch, true);
    DumpCode(L.finalSnap, L.scratch, false);
    BracketSizes(L);
  }

  lemma BracketSizes(L: Layout)
    ensures Size(SaveA7(L)) == 6 && Size(RestoreA7(L)) == 6 && Size(Rts) == 2
  {
  }

  // ---- build_program ----

  function ToTest(L: Layout, t: CpuTest): seq<byte> {
    EncodeAll(Prelude(L.scratch)) + t.preload + EncodeAll(Dump(L.initSnap, L.scratch, true)) + Encode(SaveA7(L))
  }

  lemma WroteToTest(L: Layout, t: CpuTest, b0: seq<byte>, b1: seq<byte>, b2: seq<byte>, b3: seq<byte>, b4: seq<byte>)
    requires Wrote(b0, b1, 0, EncodeAll(Prelude(L.scratch))) && Wrote(b1, b2, 38, t.preload)
    requires Wrote(b2, b3, InitDumpAt(t), EncodeAll(Dump(L.initSnap, L.scratch, true)))
    requires Wrote(b3, b4, InitDumpAt(t) + 262, Encode(SaveA7(L)))
    ensures Wrote(b0, b4, 0, ToTest(L, t)) && |ToTest(L, t)| == TestAt(t)
  {
    hide Wrote, EncodeAll, Encode, Prelude, Dump;
    var x, y, z := EncodeAll(Prelude(L.scratch)), EncodeAll(Dump(L.initSnap, L.scratch, true)), Encode(SaveA7(L));
    PreludeCode(L.scratch);
    DumpCode(L.initSnap, L.scratch, true);
    BracketSizes(L);
    WroteThen(b0, b1, b2, 0, x, t.preload);
    WroteThen(b0, b2, b3, 0, x + t.preload, y);
    WroteThen(b0, b3, b4, 0, x + t.preload + y, z);
  }

  lemma WroteFromTest(L: Layout, t: CpuTest, b0: seq<byte>, b4: seq<byte>, b5: seq<byte>, b6: seq<byte>, b7: seq<byte>,
                      b8: seq<byte>)
    requires Wrote(b0, b4, 0, ToTest(L, t)) && Wrote(b4, b5, TestAt(t), t.test) && |ToTest(L, t)| == TestAt(t)
    requires Wrote(b5, b6, RestoreAt(t), Encode(RestoreA7(L)))
    requires Wrote(b6, b7, RestoreAt(t) + 6, EncodeAll(Dump(L.finalSnap, L.scratch, false)))
    requires Wrote(b7, b8, RtsAt(t), Encode(Rts))
    ensures Wrote(b0, b8, 0, Program(L, t))
  {
    hide Wrote, EncodeAll, Encode, Prelude, Dump, ToTest;
    var w, x, y, z := ToTest(L, t), Encode(RestoreA7(L)), EncodeAll(Dump(L.finalSnap, L.scratch, false)), Encode(Rts);
    DumpCode(L.finalSnap, L.scratch, false);
    BracketSizes(L);
    WroteThen(b0, b4, b5, 0, w, t.test);
    WroteThen(b0, b5, b6, 0, w + t.test, x);
    WroteThen(b0, b6, b7, 0, w + t.test + x, y);
    WroteThen(b0, b7, b8, 0, w + t.test + x + y, z);
    ProgramParts(L, t);
  }

  lemma ProgramParts(L: Layout, t: CpuTest)
    ensures ToTest(L, t) + t.test + Encode(RestoreA7(L)) + EncodeAll(Dump(L.finalSnap, L.scratch, false)) + Encode(Rts)
            == Program(L, t)
  {
    hide EncodeAll, Encode, Prelude, Dump;
    var x, y, z := Encode(RestoreA7(L)), EncodeAll(Dump(L.finalSnap, L.scratch, false)), Encode(Rts);
    assert ToTest(L, t) + t.test + x + y + z == ToTest(L, t) + FromTest(L, t);
    assert ToTest(L, t) + FromTest(L, t) == Program(L, t);
  }

  class Bench {
    const addrs: Layout
    const prog: array<byte>
    var initPc: u32
    var finalPc: u32

    constructor (L: Layout)
      ensures addrs == L && prog.Length == PROG_LEN && fresh(prog)
    {
      addrs := L;
      prog := new byte[PROG_LEN](_ => 0);
      initPc, finalPc := 0, 0;
    }

    /** Assembles the program of one test; the PC markers point at the test's own bytes. */
    method BuildProgram(t: CpuTest) returns (entry: u32)
      requires prog.Length == PROG_LEN
      modifies this`initPc, this`finalPc, prog
      ensures entry == addrs.code
      ensures Wrote(old(prog[..]), prog[..], 0, Program(addrs, t))
      ensures initPc == Mod32(addrs.code + TestAt(t)) && finalPc == Mod32(addrs.code + RestoreAt(t))
    {
      hide Wrote, EncodeAll, Encode, Prelude, Dump, Program, ToTest, Final, FromTest, Mod32;
      BracketSizes(addrs);
      entry := addrs.code;
      ghost var b0 := prog[..];
      var p := EmitToTest(t);
      ghost var b4 := prog[..];
      initPc := Mod32(addrs.code + p);
      p := PutBytes(prog, p, t.test);
      ghost var b5 := prog[..];
      finalPc := Mod32(addrs.code + p);
      p := EmitMoveaLAbsToA7(prog, p, addrs.savedSp);
      ghost var b6 := prog[..];
      p := EmitStateDump(prog, p, addrs.finalSnap, addrs.scratch, false);
      ghost var b7 := prog[..];
      p := EmitRts(prog, p);
      WroteFromTest(addrs, t, b0, b4, b5, b6, b7, prog[..]);
    }

    method EmitToTest(t: CpuTest) returns (p: nat)
      requires prog.Length == PROG_LEN
      modifies prog
      ensures p == TestAt(t) == |ToTest(addrs, t)| && Wrote(old(prog[..]), prog[..], 0, ToTest(addrs, t))
    {
      hide Wrote, EncodeAll, Encode, Prelude, Dump, ToTest;
      ghost var b0 := prog[..];
      p := EmitPrelude(prog, 0, addrs.scratch);
      ghost var b1 := prog[..];
      p := PutBytes(prog, p, t.preload);
      ghost var b2 := prog[..];
      p := EmitStateDump(prog, p, addrs.initSnap, addrs.scratch, true);
      ghost var b3 := prog[..];
      p := EmitMoveLAnToAbs(prog, p, 7, addrs.savedSp);
      WroteToTest(addrs, t, b0, b1, b2, b3, prog[..]);
    }
  }

  // ---- Running the program ----

  /** The initial dump and the save of A7 run into the test. The test starts with the registers and the
      scratch RAM that init_snap records, but with the flags of A7: MOVE.L A7 sets them after CCR was
      recorded. */
  lemma InitRuns(env: Env, L: Layout, t: CpuTest, s: State)
    requires Placed(L) && CpuBench.At(L, s, InitDumpAt(t), FromInit(L, t))
    ensures var u := Run(env, s, 34);
            && u.regs == s.regs.(pc := u.regs.pc, ccr := MoveCcr(s.regs.ccr.x, s.regs.a[7]))
            && CpuBench.At(L, u, TestAt(t), FromTest(L, t)) && Long(u.mem, L.savedSp) == s.regs.a[7]
            && Window(u.mem, L.scratch, SCRATCH_LEN) == Window(s.mem, L.scratch, SCRATCH_LEN)
            && ReadSnapshot(u.mem, L.initSnap)
               == Observed(u, L.scratch).(ccr := CcrByte(MoveCcr(s.regs.ccr.x, Long(s.mem, L.scratch + 60))))
  {
    hide Run, Long, CodeAt, Final, EncodeAll, Encode, Byte, Dump, ReadSnapshot, Window, FromTest, Exec;
    var d, i := EncodeAll(Dump(L.initSnap, L.scratch, true)), SaveA7(L);
    var v, u := Run(env, s, 33), Run(env, s, 34);
    ProgramLength(L, t);
    DumpCode(L.initSnap, L.scratch, true);
    CodeAtSplit(s.mem, s.regs.pc, d, Encode(i) + FromTest(L, t));
    DumpRuns(env, L.initSnap, L.scratch, true, s, L.code, L.code + PROG_LEN);
    CpuBench.CodeOutside(s.mem, v.mem, L.initSnap, L.initSnap + SNAPSHOT_LEN, L.code + TestAt(t) - 6, Encode(i) + FromTest(L, t));
    CodeAtSplit(v.mem, v.regs.pc, Encode(i), FromTest(L, t));
    RunAdd(env, s, 33, 1);
    var w := OneStep(env, v, i);
    SaveStores(env, L, v);
    CpuBench.CodeOutside(v.mem, u.mem, L.savedSp, L.savedSp + 4, L.code + TestAt(t), FromTest(L, t));
    CpuBench.SnapshotKept(v.mem, u.mem, L.initSnap);
    WindowKept(s.mem, v.mem, L.scratch, SCRATCH_LEN);
    WindowKept(v.mem, u.mem, L.scratch, SCRATCH_LEN);
  }

  lemma SaveStores(env: Env, L: Layout, s: State)
    requires s.regs.pc + 6 < 0x1_0000_0000
    ensures var t := Exec(env, SaveA7(L), s);
            && t.regs == s.regs.(pc := s.regs.pc + 6, ccr := MoveCcr(s.regs.ccr.x, s.regs.a[7]))
            && Long(t.mem, L.savedSp) == s.regs.a[7] && SameOutside(s.mem, t.mem, L.savedSp, L.savedSp + 4)
  {
    hide Long, MoveCcr;
    ExecStore(env, SaveA7(L), s);
    BracketSizes(L);
  }

  /** The CCR recorded in init_snap is the one the test inherits exactly when the last scratch longword
      and A7 agree on being negative and on being zero; the comment above emit_state_dump takes it always to be. */
  lemma InheritedCcr(env: Env, L: Layout, t: CpuTest, s: State)
    requires Placed(L) && CpuBench.At(L, s, InitDumpAt(t), FromInit(L, t))
    ensures var u := Run(env, s, 34);
            var last, a7 := Long(s.mem, L.scratch + 60), s.regs.a[7];
            ReadSnapshot(u.mem, L.initSnap).ccr == CcrByte(u.regs.ccr)
            <==> Negative(last) == Negative(a7) && (last == 0 <==> a7 == 0)
  {
    hide Run, Long, CodeAt, EncodeAll, Encode, Byte, Dump, ReadSnapshot, Window, FromTest, FromInit;
    InitRuns(env, L, t, s);
  }

  /** They differ whenever the scratch RAM is still zero, as the bench leaves it before each test, and A7 is
      not: the recorded CCR then says zero and the inherited one does not. */
  lemma ZeroScratchDiffers(env: Env, L: Layout, t: CpuTest, s: State)
    requires Placed(L) && CpuBench.At(L, s, InitDumpAt(t), FromInit(L, t)) && s.regs.a[7] != 0
    requires forall x :: L.scratch <= x < L.scratch + SCRATCH_LEN ==> Byte(s.mem, x) == 0
    ensures var u := Run(env, s, 34);
            ReadSnapshot(u.mem, L.initSnap).ccr != CcrByte(u.regs.ccr)
  {
    hide Run, CodeAt, EncodeAll, Encode, Dump, ReadSnapshot, Window, FromTest, FromInit;
    InheritedCcr(env, L, t, s);
    NumberOfFour(0, 0, 0, 0);
    assert Long(s.mem, L.scratch + 60) == 0;
  }

  /** The state with another stack pointer. */
  function WithA7(s: State, v: u32): State {
    s.(regs := s.regs.(a := s.regs.a[7 := v]))
  }

  /** Restoring A7 changes no flag and no other register, so final_snap records D0-D7, A0-A6, CCR and
      the scratch RAM as the test left them, and A7 as it was before the test. */
  lemma FinalRuns(env: Env, L: Layout, t: CpuTest, s: State)
    requires Placed(L) && CpuBench.At(L, s, RestoreAt(t), Final(L))
    ensures var u := Run(env, s, 34);
            var r := WithA7(s, Long(s.mem, L.savedSp));
            && u.regs == r.regs.(pc := u.regs.pc, ccr := u.regs.ccr)
            && ReadSnapshot(u.mem, L.finalSnap) == Observed(r, L.scratch)
            && CpuBench.At(L, u, RtsAt(t), Encode(Rts))
            && SameOutside(s.mem, u.mem, L.finalSnap, L.finalSnap + SNAPSHOT_LEN)
  {
    hide Run, Long, CodeAt, EncodeAll, Encode, Byte, Dump, ReadSnapshot, Window, MoveCcr, Exec;
    var i, d := RestoreA7(L), EncodeAll(Dump(L.finalSnap, L.scratch, false));
    ProgramLength(L, t);
    DumpCode(L.finalSnap, L.scratch, false);
    CodeAtSplit(s.mem, s.regs.pc, Encode(i), d + Encode(Rts));
    var v := OneStep(env, s, i);
    CpuBench.LoadPops(env, s, L.savedSp);
    CodeKept(s.mem, v.mem, v.regs.pc, d + Encode(Rts));
    CodeAtSplit(v.mem, v.regs.pc, d, Encode(Rts));
    DumpRuns(env, L.finalSnap, L.scratch, false, v, L.code, L.code + PROG_LEN);
    WindowKept(s.mem, v.mem, L.scratch, SCRATCH_LEN);
    RunAdd(env, s, 1, 33);
    CpuBench.CodeOutside(v.mem, Run(env, s, 34).mem, L.finalSnap, L.finalSnap + SNAPSHOT_LEN, L.code + RtsAt(t), Encode(Rts));
  }

  /** For a test that leaves the flags alone the recorded CCR is the same before and after - the promise
      of the comment above emit_state_dump - exactly under the condition of InheritedCcr. */
  lemma CcrConsistent(env: Env, L: Layout, t: CpuTest, loaded: State, kt: nat)
    requires Placed(L) && CpuBench.At(L, loaded, InitDumpAt(t), FromInit(L, t))
    requires CpuBench.At(L, Run(env, Run(env, loaded, 34), kt), RestoreAt(t), Final(L))
    requires Same(Run(env, loaded, 34).mem, Run(env, Run(env, loaded, 34), kt).mem, L.initSnap, L.initSnap + SNAPSHOT_LEN)
    requires Run(env, Run(env, loaded, 34), kt).regs.ccr == Run(env, loaded, 34).regs.ccr
    ensures var m := Run(env, Run(env, Run(env, loaded, 34), kt), 34).mem;
            var last, a7 := Long(loaded.mem, L.scratch + 60), loaded.regs.a[7];
            ReadSnapshot(m, L.finalSnap).ccr == ReadSnapshot(m, L.initSnap).ccr
            <==> Negative(last) == Negative(a7) && (last == 0 <==> a7 == 0)
  {
    hide Run, Long, CodeAt, EncodeAll, Encode, Byte, Dump, ReadSnapshot, Window, MoveCcr, Exec, Final, FromTest, FromInit, CcrByte;
    var start := Run(env, loaded, 34);
    var end := Run(env, start, kt);
    InitRuns(env, L, t, loaded);
    InheritedCcr(env, L, t, loaded);
    FinalRuns(env, L, t, end);
    CpuBench.SnapshotKept(start.mem, Run(env, end, 34).mem, L.initSnap);
  }

  // saved_a7 and the longword A7 pointed at before the test are as they were.
  ghost predicate BracketIntact(L: Layout, loaded: State, start: State, end: State) {
    && Same(start.mem, end.mem, L.savedSp, L.savedSp as int + 4)
    && Same(loaded.mem, end.mem, loaded.regs.a[7], loaded.regs.a[7] as int + 4)
  }

  // u has returned to where A7 pointed before the test, and final_snap records the test's outcome.
  predicate Returned(L: Layout, loaded: State, end: State, u: State) {
    && u.regs.pc == Long(loaded.mem, loaded.regs.a[7]) && u.regs.a[7] == Mod32(loaded.regs.a[7] as int + 4)
    && u.regs.a[..7] == end.regs.a[..7] && u.regs.d == end.regs.d
    && ReadSnapshot(u.mem, L.finalSnap) == Observed(WithA7(end, loaded.regs.a[7]), L.scratch)
  }

  /** The A7 bracket. `loaded` is the state at the initial dump, `end` the state in which the test falls
      through. Whatever A7 the test left, if it left saved_a7 and the return-address longword alone, the
      program returns to that address with the stack pointer just above it. */
  lemma BracketReturns(env: Env, L: Layout, t: CpuTest, loaded: State, kt: nat)
    requires Placed(L) && CpuBench.At(L, loaded, InitDumpAt(t), FromInit(L, t))
    requires Disjoint(L.finalSnap, SNAPSHOT_LEN, loaded.regs.a[7], 4)
    requires CpuBench.At(L, Run(env, Run(env, loaded, 34), kt), RestoreAt(t), Final(L))
    requires BracketIntact(L, loaded, Run(env, loaded, 34), Run(env, Run(env, loaded, 34), kt))
    ensures var end := Run(env, Run(env, loaded, 34), kt);
            Returned(L, loaded, end, Run(env, end, 35))
  {
    hide Run, Long, CodeAt, EncodeAll, Encode, Byte, Dump, ReadSnapshot, Window, MoveCcr, Exec, Final, FromTest, FromInit, Observed;
    var start := Run(env, loaded, 34);
    var end := Run(env, start, kt);
    var done := Run(env, end, 34);
    InitRuns(env, L, t, loaded);
    LongKept(start.mem, end.mem, L.savedSp);
    FinalRuns(env, L, t, end);
    LongKept(loaded.mem, done.mem, loaded.regs.a[7]);
    var u := OneStep(env, done, Rts);
    CpuBench.RtsPops(env, done);
    RunAdd(env, end, 34, 1);
    CpuBench.SnapshotKept(done.mem, u.mem, L.finalSnap);
  }

  // ---- The JSR around it: here the stack pointer itself has to come back ----

  /** MOVEM.L D2-D7/A2-A6,-(SP); MOVEA.L entry,A0; JSR (A0). */
  function Enter(s: State, entry: u32, ret: u32): State
    requires Invoke.Room(s)
  {
    var sp := Invoke.FrameAt(s);
    State(s.regs.(a := s.regs.a[0 := entry][7 := sp - 4], pc := entry),
          StoreLong(Invoke.PushAll(s.mem, sp, Invoke.CalleeSaved(s.regs)), sp - 4, ret))
  }

  /** MOVEM.L (SP)+,D2-D7/A2-A6. */
  function Leave(s: State): Bank {
    var v := Invoke.PopAll(s.mem, s.regs.a[7], 11);
    s.regs.d[..2] + v[..6]
  }

  function LeaveA(s: State): Bank {
    var v := Invoke.PopAll(s.mem, s.regs.a[7], 11);
    s.regs.a[..2] + v[6..] + [Mod32(s.regs.a[7] + Invoke.FRAME)]
  }

  lemma EnterStack(s: State, entry: u32, ret: u32)
    requires Invoke.Room(s)
    ensures var e, sp := Enter(s, entry, ret), Invoke.FrameAt(s);
            && Long(e.mem, sp - 4) == ret && e.regs.pc == e.regs.a[0] == entry && e.regs.a[7] == s.regs.a[7] - 48
            && e.regs.d == s.regs.d && e.regs.a[1..7] == s.regs.a[1..7]
            && Same(Invoke.PushAll(s.mem, sp, Invoke.CalleeSaved(s.regs)), e.mem, sp, sp + Invoke.FRAME)
  {
    hide Byte, Long, Invoke.PushAll;
  }

  /** A whole session: if the preload kept A7 and neither it nor the test touched the stack that
      invoke_program prepared, or the test saved_a7, the program returns to the JSR whatever A7 the test
      left, and every callee-saved register and the stack pointer come back. */
  lemma SessionReturns(env: Env, L: Layout, t: CpuTest, s: State, ret: u32, loaded: State, kt: nat)
    requires Placed(L) && Invoke.Room(s) && Disjoint(L.finalSnap, SNAPSHOT_LEN, Invoke.FrameAt(s) - 4, Invoke.FRAME + 4)
    requires CpuBench.At(L, loaded, InitDumpAt(t), FromInit(L, t)) && loaded.regs.a[7] == Invoke.FrameAt(s) - 4
    requires CpuBench.At(L, Run(env, Run(env, loaded, 34), kt), RestoreAt(t), Final(L))
    requires BracketIntact(L, loaded, Run(env, loaded, 34), Run(env, Run(env, loaded, 34), kt))
    requires StackIntact(L, s, ret, loaded.mem) && StackIntact(L, s, ret, Run(env, Run(env, loaded, 34), kt).mem)
    ensures var u := Run(env, Run(env, Run(env, loaded, 34), kt), 35);
            && u.regs.pc == ret
            && (forall n :: 2 <= n < 8 ==> Leave(u)[n] == s.regs.d[n])
            && (forall n :: 2 <= n < 8 ==> LeaveA(u)[n] == s.regs.a[n])
  {
    hide Run, Long, CodeAt, EncodeAll, Encode, Byte, Dump, ReadSnapshot, Window, MoveCcr, Exec, Final, FromTest, FromInit,
         Observed, Invoke.PushAll, Invoke.PopAll, Enter, BracketIntact;
    var end := Run(env, Run(env, loaded, 34), kt);
    var u := Run(env, end, 35);
    var e, sp := Enter(s, L.code, ret), Invoke.FrameAt(s);
    EnterStack(s, L.code, ret);
    BracketReturns(env, L, t, loaded, kt);
    LongKept(e.mem, loaded.mem, sp - 4);
    FinalSpares(env, L, t, end);
    Invoke.PopPush(s.mem, sp, Invoke.CalleeSaved(s.regs), u.mem);
  }

  // The frame and the return address are as Enter left them.
  ghost predicate StackIntact(L: Layout, s: State, ret: u32, m: Mem)
    requires Invoke.Room(s)
  {
    Same(Enter(s, L.code, ret).mem, m, Invoke.FrameAt(s) - 4, Invoke.FrameAt(s) + Invoke.FRAME)
  }

  // The end of the program writes nothing but final_snap.
  lemma FinalSpares(env: Env, L: Layout, t: CpuTest, s: State)
    requires Placed(L) && CpuBench.At(L, s, RestoreAt(t), Final(L))
    ensures SameOutside(s.mem, Run(env, s, 35).mem, L.finalSnap, L.finalSnap + SNAPSHOT_LEN)
  {
    hide Run, Long, CodeAt, EncodeAll, Encode, Byte, Dump, ReadSnapshot, Window, MoveCcr, Exec, Final, Observed;
    FinalRuns(env, L, t, s);
    var done := Run(env, s, 34);
    var u := OneStep(env, done, Rts);
    CpuBench.RtsPops(env, done);
    RunAdd(env, s, 34, 1);
  }
}
