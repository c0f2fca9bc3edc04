/** invoke_program of cpu_bench.c: save the callee-saved registers, JSR into the
    program, restore. The assembly is the same in cpu_fpu_bench.c and fpu_bench.c. */
module Invoke {
  import opened Bytes
  import opened M68k
  import opened Machine
  import opened StateDump
  import opened CpuHarness
  import opened CpuBench

  // D2-D7 and A2-A6, in the order MOVEM stores them upwards.
  function CalleeSaved(r: Regs): (v: seq<u32>)
    ensures |v| == 11
  {
    r.d[2..8] + r.a[2..7]
  }

  function PushAll(m: Mem, at: int, vals: seq<u32>): Mem
    decreases |vals|
  {
    if vals == [] then m else PushAll(StoreLong(m, at, vals[0]), at + 4, vals[1..])
  }

  function PopAll(m: Mem, at: int, n: nat): (v: seq<u32>)
    ensures |v| == n
    decreases n
  {
    if n == 0 then [] else [Long(m, at)] + PopAll(m, at + 4, n - 1)
  }

  const FRAME: nat := 44

  // The stack has room for the frame and the return address.
  predicate Room(s: State) {
    s.regs.a[7] >= FRAME + 4
  }

  function FrameAt(s: State): u32
    requires Room(s)
  {
    s.regs.a[7] - FRAME
  }

  /** MOVEM.L D2-D7/A2-A6,-(SP); MOVE.L SP,cell; MOVEA.L entry,A0; JSR (A0). */
  function Enter(s: State, entry: u32, cell: u32, ret: u32): State
    requires Room(s)
  {
    var sp := FrameAt(s);
    var framed := StoreLong(PushAll(s.mem, sp, CalleeSaved(s.regs)), cell, sp);
    State(s.regs.(a := s.regs.a[0 := entry][7 := sp - 4], ccr := MoveCcr(s.regs.ccr.x, sp), pc := entry),
          StoreLong(framed, sp - 4, ret))
  }

  /** MOVE.L cell,SP; MOVEM.L (SP)+,D2-D7/A2-A6. */
  function Leave(s: State, cell: u32): State {
    var sp := Long(s.mem, cell);
    var v := PopAll(s.mem, sp, 11);
    var r := s.regs;
    s.(regs := r.(d := r.d[..2] + v[..6], a := r.a[..2] + v[6..] + [Mod32(sp + FRAME)]))
  }

  lemma {:induction false} PushSpares(m: Mem, at: int, vals: seq<u32>)
    ensures SameOutside(m, PushAll(m, at, vals), at, at + 4 * |vals|)
    decreases |vals|
  {
    hide Byte, StoreLong;
    if vals != [] {
      PushSpares(StoreLong(m, at, vals[0]), at + 4, vals[1..]);
    }
  }

  /** MOVEM up undoes MOVEM down on any memory that agrees on the frame. */
  lemma {:induction false} PopPush(m: Mem, at: int, vals: seq<u32>, m': Mem)
    requires Same(PushAll(m, at, vals), m', at, at + 4 * |vals|)
    ensures PopAll(m', at, |vals|) == vals
    decreases |vals|
  {
    hide Byte, StoreLong, Long;
    if vals != [] {
      var m1 := StoreLong(m, at, vals[0]);
      PushSpares(m1, at + 4, vals[1..]);
      LongKept(m1, m', at);
      PopPush(m1, at + 4, vals[1..], m');
    }
  }

  // The cell and the stack area used by Enter lie apart.
  predicate CellApart(s: State, cell: u32)
    requires Room(s)
  {
    Disjoint(cell, 4, FrameAt(s) - 4, FRAME + 4)
  }

  /** What Enter puts on the stack: the frame, its address in the cell, the return address below it. */
  lemma EnterStack(s: State, entry: u32, cell: u32, ret: u32)
    requires Room(s) && CellApart(s, cell)
    ensures var e := Enter(s, entry, cell, ret);
            && Long(e.mem, cell) == FrameAt(s) && Long(e.mem, FrameAt(s) - 4) == ret
            && e.regs.pc == e.regs.a[0] == entry && e.regs.a[7] == s.regs.a[7] - 48
            && e.regs.d == s.regs.d && e.regs.a[1..7] == s.regs.a[1..7]
            && Same(PushAll(s.mem, FrameAt(s), CalleeSaved(s.regs)), e.mem, FrameAt(s), FrameAt(s) + FRAME)
  {
    hide Byte, StoreLong, Long, PushAll;
    var sp := FrameAt(s);
    var m1 := PushAll(s.mem, sp, CalleeSaved(s.regs));
    var m2 := StoreLong(m1, cell, sp);
    LongKept(m2, StoreLong(m2, sp - 4, ret), cell);
  }

  /** If the program comes back with the frame and the cell as Enter left them, every callee-saved
      register and the stack pointer are restored, whatever the program did to the registers. */
  lemma InvokeRestores(s: State, entry: u32, cell: u32, ret: u32, t: State)
    requires Room(s) && CellApart(s, cell)
    requires var e := Enter(s, entry, cell, ret);
             Same(e.mem, t.mem, FrameAt(s), FrameAt(s) + FRAME) && Same(e.mem, t.mem, cell, cell + 4)
    ensures var r := Leave(t, cell).regs;
            && (forall n :: 2 <= n < 8 ==> r.d[n] == s.regs.d[n]) && (forall n :: 2 <= n < 8 ==> r.a[n] == s.regs.a[n])
  {
    hide Byte, StoreLong, Long, PushAll, PopAll;
    var e := Enter(s, entry, cell, ret);
    EnterStack(s, entry, cell, ret);
    LongKept(e.mem, t.mem, cell);
    PopPush(s.mem, FrameAt(s), CalleeSaved(s.regs), t.mem);
  }

  // The stack Enter prepared (return address and frame) and the cell are as Enter left them.
  ghost predicate StackIntact(L: Layout, s: State, ret: u32, m: Mem)
    requires Room(s)
  {
    var e := Enter(s, L.code, L.savedSp, ret);
    && Same(e.mem, m, FrameAt(s) - 4, FrameAt(s) + FRAME)
    && Same(e.mem, m, L.savedSp, L.savedSp + 4)
  }

  // The stack area lies apart from the cell and from final_snap.
  predicate StackPlaced(L: Layout, s: State)
    requires Room(s)
  {
    CellApart(s, L.savedSp) && Disjoint(L.finalSnap, SNAPSHOT_LEN, FrameAt(s) - 4, FRAME + 4)
  }

  /** The end of a session: a test that gets the epilogue returns to the JSR whatever A7 it left, and any
      other test if it left A7 where it was; the stack pointer and every callee-saved register come back,
      and final_snap still records the state at the end of the test. */
  lemma SessionReturns(env: Env, L: Layout, t: CpuTest, s: State, ret: u32, end: State)
    requires Placed(L) && Room(s) && StackPlaced(L, s)
    requires At(L, end, FinalDumpAt(t), Final(L, t)) && StackIntact(L, s, ret, end.mem)
    requires NeedsReload(t.name) || end.regs.a[7] == FrameAt(s) - 4
    ensures var u := Run(env, end, 33 + EpilogueSteps(t));
            && u.regs.pc == ret && u.regs.a[7] == FrameAt(s)
            && ReadSnapshot(u.mem, L.finalSnap) == Observed(end, L.scratch)
            && var r := Leave(u, L.savedSp).regs;
               && (forall n :: 2 <= n < 8 ==> r.d[n] == s.regs.d[n])
               && (forall n :: 2 <= n < 8 ==> r.a[n] == s.regs.a[n])
  {
    hide Byte, StoreLong, Long, PushAll, PopAll, Run, Leave, Enter, EncodeAll, CodeAt, NeedsReload, ReadSnapshot, Final, Observed;
    var e, done := Enter(s, L.code, L.savedSp, ret), Run(env, end, 33);
    EnterStack(s, L.code, L.savedSp, ret);
    FinalDumpRuns(env, L, t, end);
    LongKept(e.mem, done.mem, L.savedSp);
    LongKept(e.mem, done.mem, FrameAt(s) - 4);
    ReturnsTo(env, L, t, done);
    RunAdd(env, end, 33, EpilogueSteps(t));
    var u := Run(env, done, EpilogueSteps(t));
    SnapshotKept(done.mem, u.mem, L.finalSnap);
    InvokeRestores(s, L.code, L.savedSp, ret, u);
  }

  /** Without the epilogue the program returns to the JSR exactly when the longword A7 points at after
      the final dump is the return address. */
  lemma PlainReturns(env: Env, L: Layout, t: CpuTest, ret: u32, end: State)
    requires Placed(L) && !NeedsReload(t.name) && At(L, end, FinalDumpAt(t), Final(L, t))
    ensures Run(env, end, 34).regs.pc == ret <==> Long(Run(env, end, 33).mem, end.regs.a[7]) == ret
  {
    hide Long, Run, EncodeAll, CodeAt, NeedsReload, Final, ReadSnapshot, Observed;
    FinalDumpRuns(env, L, t, end);
    ReturnsTo(env, L, t, Run(env, end, 33));
    RunAdd(env, end, 33, 1);
  }
}
