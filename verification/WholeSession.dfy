/** One test of cpu_bench.c from the caller's registers back to them: invoke_program, the built program with
    a straight-line preload and test, and the return. */
module WholeSession {
  import opened Bytes
  import opened M68k
  import opened Machine
  import opened StateDump
  import opened CpuHarness
  import opened CpuBench
  import opened Invoke
  import opened LayoutIndependence

  // The built program is in place, and the stack area lies apart from all the bench uses.
  predicate Called(L: Layout, t: CpuTest, s: State) {
    && Placed(L) && Room(s) && StackPlaced(L, s) && CodeAt(s.mem, L.code, Program(L, t))
    && Disjoint(L.code, PROG_LEN, FrameAt(s) - 4, FRAME + 4) && Disjoint(L.initSnap, SNAPSHOT_LEN, FrameAt(s) - 4, FRAME + 4)
    && Disjoint(L.scratch, SCRATCH_LEN, FrameAt(s) - 4, FRAME + 4)
  }

  // Only the scratch RAM and init_snap differ.
  ghost predicate Kept(L: Layout, m: Mem, m': Mem) {
    forall x {:trigger Byte(m', x)} ::
      !(L.scratch <= x < L.scratch + SCRATCH_LEN) && !(L.initSnap <= x < L.initSnap + SNAPSHOT_LEN) ==> Byte(m', x) == Byte(m, x)
  }

  /** Up to the final dump a session of straight-line code writes only the scratch RAM and init_snap, and keeps A7. */
  lemma EndKeeps(env: Env, L: Layout, t: CpuTest, pre: seq<Instr>, test: seq<Instr>, s: State)
    requires Ready(L, t, s) && Written(t, pre, test)
    ensures Kept(L, s.mem, AfterTest(env, pre, test, s).mem) && AfterTest(env, pre, test, s).regs.a[7] == s.regs.a[7]
  {
    hide Run, CodeAt, Byte, FromInit, Final, ExecSeq, EncodeAll, Program, Window, AllPortable, ReadSnapshot, Observed,
         MoveCcr, Long, Epilogue;
    var first, loaded, start := First(env, s), AfterPreload(env, pre, s), AtTest(env, pre, s);
    PreludeFalls(env, L, t, s);
    FromInitLength(L, t);
    PartRuns(env, L, pre, 38, FromInit(L, t), first);
    InitDumpRuns(env, L, t, loaded);
    PartRuns(env, L, test, TestAt(t), Final(L, t), start);
  }

  // JSR leaves the program where it was.
  lemma EnterKeeps(L: Layout, t: CpuTest, s: State, ret: u32)
    requires Called(L, t, s)
    ensures Ready(L, t, Enter(s, L.code, L.savedSp, ret))
    ensures Enter(s, L.code, L.savedSp, ret).regs.a[7] == FrameAt(s) - 4
  {
    hide Byte, StoreLong, PushAll, Program, CodeAt;
    ProgramLength(L, t);
    PushSpares(s.mem, FrameAt(s), CalleeSaved(s.regs));
    CodeKept(s.mem, Enter(s, L.code, L.savedSp, ret).mem, L.code, Program(L, t));
  }

  // The steps from the JSR's target back to the instruction behind the JSR.
  function Steps(t: CpuTest, pre: seq<Instr>, test: seq<Instr>): nat {
    16 + |pre| + 33 + |test| + (33 + EpilogueSteps(t))
  }

  /** The whole session: for every straight-line preload and test, whatever the name of the test, the program
      returns behind the JSR, final_snap records the state the test made, and the caller has D2-D7, A2-A6 and
      A7 back. */
  lemma Session(env: Env, L: Layout, t: CpuTest, pre: seq<Instr>, test: seq<Instr>, s: State, ret: u32)
    requires Called(L, t, s) && Written(t, pre, test)
    ensures var e := Enter(s, L.code, L.savedSp, ret);
            var u := Run(env, e, Steps(t, pre, test));
            && u.regs.pc == ret && ReadSnapshot(u.mem, L.finalSnap) == Observed(AfterTest(env, pre, test, e), L.scratch)
            && var r := Leave(u, L.savedSp).regs;
               && (forall n :: 2 <= n < 8 ==> r.d[n] == s.regs.d[n]) && (forall n :: 2 <= n < 8 ==> r.a[n] == s.regs.a[n])
  {
    hide Run, CodeAt, Byte, FromInit, Final, ExecSeq, EncodeAll, Program, Window, AllPortable, ReadSnapshot, Observed,
         MoveCcr, Long, Epilogue, Enter, Leave, NeedsReload;
    var e := Enter(s, L.code, L.savedSp, ret);
    var first, loaded, start, end := First(env, e), AfterPreload(env, pre, e), AtTest(env, pre, e), AfterTest(env, pre, test, e);
    EnterKeeps(L, t, s, ret);
    PreloadState(env, L, t, pre, test, e);
    TestState(env, L, t, pre, test, e);
    EndKeeps(env, L, t, pre, test, e);
    SessionReturns(env, L, t, s, ret, end);
    RunAdd(env, e, 16, |pre|);
    RunAdd(env, e, 16 + |pre|, 33);
    RunAdd(env, e, 16 + |pre| + 33, |test|);
    RunAdd(env, e, 16 + |pre| + 33 + |test|, 33 + EpilogueSteps(t));
  }
}
