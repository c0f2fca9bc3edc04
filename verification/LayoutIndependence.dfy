/** A test that reaches memory only through A6 gives matching snapshots wherever
    the program, the snapshots and the scratch RAM lie. */
module LayoutIndependence {
  import opened Bytes
  import opened M68k
  import opened Options
  import opened Machine
  import opened StateDump
  import opened CpuHarness
  import opened CpuBench
  import opened CorpusDiff

  // ---- Portable instructions ----

  // A longword at d16(A6) lies in the scratch RAM.
  predicate InWindow(d16: u16) {
    d16 <= 60
  }

  /** Instructions over D registers, loads of A0-A5 with constants and with addresses relative to A6, and
      longword moves between D registers and the scratch RAM. */
  predicate Portable(i: Instr) {
    match i
    case Moveq(_, _) => true
    case MoveImmD(_, _) => true
    case MoveImmCcr(_) => true
    case Alu(_, _, _) => true
    case Unary(_, _) => true
    case DataOp(_) => true
    case Suba(m, n) => m == n < 6
    case MoveaImm(n, _) => n < 6
    case LeaA6(n, _) => n < 6
    case LoadA6(_, d16) => InWindow(d16)
    case StoreA6(_, d16) => InWindow(d16)
    case _ => false
  }

  predicate AllPortable(p: seq<Instr>) {
    forall i | i in p :: Portable(i)
  }

  // ---- The relation between the two machines ----

  // An address register holds the same number, or the same offset from the scratch RAM.
  predicate SameA(x: u32, scratch: u32, y: u32, scratch': u32) {
    x == y || Mod32(x as int - scratch) == Mod32(y as int - scratch')
  }

  predicate Related(L: Layout, s: State, L': Layout, t: State) {
    && s.regs.d == t.regs.d && s.regs.ccr == t.regs.ccr && s.regs.a[6] == L.scratch && t.regs.a[6] == L'.scratch
    && (forall n :: 0 <= n < 6 ==> SameA(s.regs.a[n], L.scratch, t.regs.a[n], L'.scratch))
    && Window(s.mem, L.scratch, SCRATCH_LEN) == Window(t.mem, L'.scratch, SCRATCH_LEN)
  }

  predicate ScratchPlaced(L: Layout) {
    L.scratch + SCRATCH_LEN < 0x1_0000_0000
  }

  lemma InWindowAddr(L: Layout, s: State, d16: u16)
    requires ScratchPlaced(L) && s.regs.a[6] == L.scratch && InWindow(d16)
    ensures IndexedA6(s.regs, d16) == L.scratch + d16
  {
  }

  lemma SameOffset(scratch: u32, scratch': u32, d: int)
    ensures SameA(Mod32(scratch + d), scratch, Mod32(scratch' + d), scratch')
  {
    OffsetOf(scratch, d);
    OffsetOf(scratch', d);
  }

  lemma OffsetOf(x: u32, d: int)
    ensures Mod32(Mod32(x + d) as int - x) == Mod32(d)
  {
    var k := (x + d) / 0x1_0000_0000;
    ModShift(d, k);
  }

  lemma WindowLong(m: Mem, a: int, m': Mem, a': int, d: nat)
    requires Window(m, a, SCRATCH_LEN) == Window(m', a', SCRATCH_LEN) && d <= 60
    ensures Long(m, a + d) == Long(m', a' + d)
  {
    hide Window, Byte, JoinLong;
    WindowByte(m, a, m', a', d);
    WindowByte(m, a, m', a', d + 1);
    WindowByte(m, a, m', a', d + 2);
    WindowByte(m, a, m', a', d + 3);
    assert Byte(m, a + d + 1) == Byte(m, a + (d + 1)) && Byte(m', a' + d + 1) == Byte(m', a' + (d + 1));
    assert Byte(m, a + d + 2) == Byte(m, a + (d + 2)) && Byte(m', a' + d + 2) == Byte(m', a' + (d + 2));
    assert Byte(m, a + d + 3) == Byte(m, a + (d + 3)) && Byte(m', a' + d + 3) == Byte(m', a' + (d + 3));
  }

  lemma WindowByte(m: Mem, a: int, m': Mem, a': int, d: nat)
    requires Window(m, a, SCRATCH_LEN) == Window(m', a', SCRATCH_LEN) && d < SCRATCH_LEN
    ensures Byte(m, a + d) == Byte(m', a' + d)
  {
    assert Window(m, a, SCRATCH_LEN)[d] == Window(m', a', SCRATCH_LEN)[d];
  }

  // ---- One portable instruction ----

  // The registers and the value loaded decide the new registers; nothing else of the memory matters.
  lemma PortableRegs(env: Env, i: Instr, L: Layout, s: State, L': Layout, t: State)
    requires Portable(i) && ScratchPlaced(L) && ScratchPlaced(L') && Related(L, s, L', t)
    ensures var u, v := Exec(env, i, s).regs, Exec(env, i, t).regs;
            && u.d == v.d && u.ccr == v.ccr && u.a[6] == L.scratch && v.a[6] == L'.scratch
            && u.a[7] == s.regs.a[7] && v.a[7] == t.regs.a[7]
            && forall n :: 0 <= n < 6 ==> SameA(u.a[n], L.scratch, v.a[n], L'.scratch)
  {
    hide Long, Window, Byte, AluResult, UnaryResult, MoveCcr, CcrOf, StoreBytes, LongBytes, Encode, Mod32, IndexedA6;
    LoadedSame(env, i, L, s, L', t);
    if i.LeaA6? {
      LeaSame(env, i, L, s, L', t);
    } else if i.Suba? {
      assert Mod32(s.regs.a[i.n] as int - s.regs.a[i.n]) == Mod32(t.regs.a[i.n] as int - t.regs.a[i.n]);
    }
  }

  lemma LeaSame(env: Env, i: Instr, L: Layout, s: State, L': Layout, t: State)
    requires i.LeaA6? && s.regs.a[6] == L.scratch && t.regs.a[6] == L'.scratch
    ensures SameA(IndexedA6(s.regs, i.d16), L.scratch, IndexedA6(t.regs, i.d16), L'.scratch)
  {
    SameOffset(L.scratch, L'.scratch, Signed16(i.d16));
  }

  lemma LoadedSame(env: Env, i: Instr, L: Layout, s: State, L': Layout, t: State)
    requires Portable(i) && ScratchPlaced(L) && ScratchPlaced(L') && Related(L, s, L', t)
    ensures Loaded(i, s) == Loaded(i, t)
  {
    hide Long, Window, Byte;
    if i.LoadA6? {
      InWindowAddr(L, s, i.d16);
      InWindowAddr(L', t, i.d16);
      WindowLong(s.mem, L.scratch, t.mem, L'.scratch, i.d16);
    }
  }

  // Only a store changes memory, and only inside the scratch RAM.
  lemma PortableMem(env: Env, i: Instr, L: Layout, s: State)
    requires Portable(i) && ScratchPlaced(L) && s.regs.a[6] == L.scratch
    ensures var u := Exec(env, i, s);
            if i.StoreA6?
            then u.mem == StoreBytes(s.mem, L.scratch + i.d16, LongBytes(s.regs.d[i.n]))
            else forall x :: Byte(u.mem, x) == Byte(s.mem, x)
    ensures SameOutside(s.mem, Exec(env, i, s).mem, L.scratch, L.scratch + SCRATCH_LEN)
    ensures Linear(i)
  {
    hide NextRegs, IndexedA6, StoreBytes, LongBytes, Byte, Long;
    if i.StoreA6? {
      InWindowAddr(L, s, i.d16);
      StoreOutside(s.mem, L.scratch + i.d16, s.regs.d[i.n]);
    } else {
      StoreNothing(s.mem, WriteAddr(i, s.regs));
    }
  }

  lemma StoreOutside(m: Mem, a: int, v: u32)
    ensures SameOutside(m, StoreBytes(m, a, LongBytes(v)), a, a + 4)
  {
  }

  lemma StoreNothing(m: Mem, a: int)
    ensures forall x :: Byte(StoreBytes(m, a, []), x) == Byte(m, x)
  {
  }

  lemma PortableSpares(i: Instr, L: Layout, s: State, lo: int, hi: int)
    requires Portable(i) && ScratchPlaced(L) && s.regs.a[6] == L.scratch
    requires lo <= hi && Disjoint(L.scratch, SCRATCH_LEN, lo, hi - lo)
    ensures Spares(i, s, lo, hi)
  {
    if i.StoreA6? { InWindowAddr(L, s, i.d16); }
  }

  lemma PortableWindow(env: Env, i: Instr, L: Layout, s: State, L': Layout, t: State)
    requires Portable(i) && ScratchPlaced(L) && ScratchPlaced(L') && Related(L, s, L', t)
    ensures Window(Exec(env, i, s).mem, L.scratch, SCRATCH_LEN) == Window(Exec(env, i, t).mem, L'.scratch, SCRATCH_LEN)
  {
    hide Byte, StoreBytes, LongBytes, Exec;
    PortableMem(env, i, L, s);
    PortableMem(env, i, L', t);
    var u, v := Exec(env, i, s), Exec(env, i, t);
    forall d | 0 <= d < SCRATCH_LEN
      ensures Window(u.mem, L.scratch, SCRATCH_LEN)[d] == Window(v.mem, L'.scratch, SCRATCH_LEN)[d]
    {
      WindowByte(s.mem, L.scratch, t.mem, L'.scratch, d);
    }
  }

  /** One portable instruction keeps the two machines related. */
  lemma PortableStep(env: Env, i: Instr, L: Layout, s: State, L': Layout, t: State)
    requires Portable(i) && ScratchPlaced(L) && ScratchPlaced(L') && Related(L, s, L', t)
    ensures Related(L, Exec(env, i, s), L', Exec(env, i, t))
  {
    hide Exec, Window, SameA, Portable;
    PortableRegs(env, i, L, s, L', t);
    PortableWindow(env, i, L, s, L', t);
  }

  lemma {:induction false} PortableSeq(env: Env, p: seq<Instr>, L: Layout, s: State, L': Layout, t: State)
    requires AllPortable(p) && ScratchPlaced(L) && ScratchPlaced(L') && Related(L, s, L', t)
    ensures Related(L, ExecSeq(env, p, s), L', ExecSeq(env, p, t))
    decreases |p|
  {
    hide Exec, Related, Portable;
    if p != [] {
      PortableStep(env, p[0], L, s, L', t);
      PortableSeq(env, p[1..], L, Exec(env, p[0], s), L', Exec(env, p[0], t));
    }
  }

  // What a portable list leaves alone on one machine.
  lemma {:induction false} PortableConfined(env: Env, p: seq<Instr>, L: Layout, s: State, lo: int, hi: int)
    requires AllPortable(p) && ScratchPlaced(L) && s.regs.a[6] == L.scratch
    requires lo <= hi && Disjoint(L.scratch, SCRATCH_LEN, lo, hi - lo)
    ensures SparesAll(env, p, s, lo, hi) && (forall i | i in p :: Linear(i))
    ensures var u := ExecSeq(env, p, s);
            && SameOutside(s.mem, u.mem, L.scratch, L.scratch + SCRATCH_LEN)
            && u.regs.a[6] == L.scratch && u.regs.a[7] == s.regs.a[7]
    decreases |p|
  {
    hide Exec, Portable, Byte, Spares, Linear;
    if p != [] {
      var i, u := p[0], Exec(env, p[0], s);
      assert i in p;
      PortableMem(env, i, L, s);
      PortableSpares(i, L, s, lo, hi);
      PortableHigh(env, i, s);
      PortableConfined(env, p[1..], L, u, lo, hi);
    }
  }

  lemma PortableHigh(env: Env, i: Instr, s: State)
    requires Portable(i)
    ensures var u := Exec(env, i, s); u.regs.a[6] == s.regs.a[6] && u.regs.a[7] == s.regs.a[7]
  {
    hide AluResult, UnaryResult, MoveCcr, CcrOf, StoreBytes, LongBytes, Encode, Mod32, Long;
  }

  // ---- A whole session on one machine ----

  /** The machine is about to run the program of test t, with its stack outside the scratch RAM. */
  predicate Ready(L: Layout, t: CpuTest, s: State) {
    Placed(L) && At(L, s, 0, Program(L, t)) && Disjoint(L.scratch, SCRATCH_LEN, s.regs.a[7], 4)
  }

  predicate Written(t: CpuTest, pre: seq<Instr>, test: seq<Instr>) {
    t.preload == EncodeAll(pre) && t.test == EncodeAll(test) && AllPortable(pre) && AllPortable(test)
  }

  // A snapshot and its pc as the bench prints them.
  function Printed(sn: Snapshot, pc: u32): Snap {
    Snap(sn.d, sn.a, sn.ccr % 0x100, sn.ram, Some(pc))
  }

  // The two snapshots of test t in memory m.
  function Reported(L: Layout, t: CpuTest, m: Mem): Pair {
    Pair(Printed(ReadSnapshot(m, L.initSnap), Mod32(L.code + TestAt(t))),
         Printed(ReadSnapshot(m, L.finalSnap), Mod32(L.code + FinalDumpAt(t))))
  }

  function First(env: Env, s: State): State { Run(env, s, 16) }
  function AfterPreload(env: Env, pre: seq<Instr>, s: State): State { ExecSeq(env, pre, First(env, s)) }
  function AtTest(env: Env, pre: seq<Instr>, s: State): State { Run(env, AfterPreload(env, pre, s), 33) }
  function AfterTest(env: Env, pre: seq<Instr>, test: seq<Instr>, s: State): State {
    ExecSeq(env, test, AtTest(env, pre, s))
  }

  // The state in which the final dump is complete.
  function Done(env: Env, pre: seq<Instr>, test: seq<Instr>, s: State): State {
    Run(env, s, 16 + |pre| + 33 + |test| + 33)
  }

  /** A portable part of the program falls through to what follows it and leaves everything but the
      scratch RAM alone. */
  lemma PartRuns(env: Env, L: Layout, p: seq<Instr>, off: nat, rest: seq<byte>, s: State)
    requires Placed(L) && AllPortable(p) && s.regs.a[6] == L.scratch && At(L, s, off, EncodeAll(p) + rest)
    requires off + |EncodeAll(p)| + |rest| <= PROG_LEN
    ensures var u := ExecSeq(env, p, s);
            && Run(env, s, |p|) == u && At(L, u, off + |EncodeAll(p)|, rest)
            && SameOutside(s.mem, u.mem, L.scratch, L.scratch + SCRATCH_LEN)
            && u.regs.a[6] == L.scratch && u.regs.a[7] == s.regs.a[7]
  {
    hide Run, ExecSeq, EncodeAll, CodeAt, Byte, Portable, Linear, SparesAll, AllPortable;
    var hi := L.code + PROG_LEN;
    CodeAtSplit(s.mem, s.regs.pc, EncodeAll(p), rest);
    PortableConfined(env, p, L, s, L.code, hi);
    RunLinear(env, p, s, L.code, hi);
    CodeKept(s.mem, ExecSeq(env, p, s).mem, L.code + off + |EncodeAll(p)|, rest);
  }

  lemma FirstState(env: Env, L: Layout, t: CpuTest, s: State)
    requires Ready(L, t, s)
    ensures var u := First(env, s);
            && Zeroed(u.regs, L.scratch, s.regs.a[7]) && At(L, u, 38, t.preload + FromInit(L, t))
            && Window(u.mem, L.scratch, SCRATCH_LEN) == Window(s.mem, L.scratch, SCRATCH_LEN)
  {
    hide Run, CodeAt, Byte, FromInit, Program, Zeroed, Window;
    PreludeFalls(env, L, t, s);
    WindowKept(s.mem, First(env, s).mem, L.scratch, SCRATCH_LEN);
  }

  lemma PreloadState(env: Env, L: Layout, t: CpuTest, pre: seq<Instr>, test: seq<Instr>, s: State)
    requires Ready(L, t, s) && Written(t, pre, test)
    ensures var u := AfterPreload(env, pre, s);
            && u == Run(env, First(env, s), |pre|) && At(L, u, InitDumpAt(t), FromInit(L, t))
            && u.regs.a[6] == L.scratch && u.regs.a[7] == s.regs.a[7]
  {
    hide Run, CodeAt, Byte, FromInit, ExecSeq, EncodeAll, Program, Window, AllPortable, First;
    FirstState(env, L, t, s);
    FromInitLength(L, t);
    PartRuns(env, L, pre, 38, FromInit(L, t), First(env, s));
  }

  lemma FromInitLength(L: Layout, t: CpuTest)
    ensures InitDumpAt(t) + |FromInit(L, t)| <= PROG_LEN && TestAt(t) + |FromTest(L, t)| <= PROG_LEN
  {
    hide EncodeAll, Prelude, Dump, Epilogue;
    ProgramLength(L, t);
    PreludeCode(L.scratch);
    DumpCode(L.initSnap, L.scratch, true);
  }

  lemma TestState(env: Env, L: Layout, t: CpuTest, pre: seq<Instr>, test: seq<Instr>, s: State)
    requires Ready(L, t, s) && Written(t, pre, test)
    ensures var start, end := AtTest(env, pre, s), AfterTest(env, pre, test, s);
            && InitDumped(L, AfterPreload(env, pre, s), start) && end == Run(env, start, |test|)
            && At(L, end, FinalDumpAt(t), Final(L, t))
            && Same(start.mem, end.mem, L.initSnap, L.initSnap + SNAPSHOT_LEN)
            && start.regs.a[6] == L.scratch && start.regs.a[7] == s.regs.a[7]
  {
    hide Run, CodeAt, Byte, FromInit, Final, ExecSeq, EncodeAll, Program, Window, AllPortable, First, ReadSnapshot,
         Observed, MoveCcr, AfterPreload, Long;
    PreloadState(env, L, t, pre, test, s);
    InitDumpRuns(env, L, t, AfterPreload(env, pre, s));
    FromInitLength(L, t);
    PartRuns(env, L, test, TestAt(t), Final(L, t), AtTest(env, pre, s));
  }

  /** The snapshots in memory after the final dump are the states before and after the test. */
  lemma SessionReports(env: Env, L: Layout, t: CpuTest, pre: seq<Instr>, test: seq<Instr>, s: State)
    requires Ready(L, t, s) && Written(t, pre, test)
    ensures var m := Done(env, pre, test, s).mem;
            && ReadSnapshot(m, L.initSnap) == Observed(AtTest(env, pre, s), L.scratch)
            && ReadSnapshot(m, L.finalSnap) == Observed(AfterTest(env, pre, test, s), L.scratch)
  {
    hide Run, CodeAt, Byte, FromInit, Final, ExecSeq, EncodeAll, Program, Window, AllPortable, ReadSnapshot,
         Observed, MoveCcr, Zeroed, InitDumped, Epilogue;
    PreloadState(env, L, t, pre, test, s);
    TestState(env, L, t, pre, test, s);
    ObservationTransparency(env, L, t, s, |pre|, |test|);
  }

  // ---- Two machines ----

  lemma ZeroedRelated(L: Layout, s: State, L': Layout, t: State, a7: u32, a7': u32)
    requires Zeroed(s.regs, L.scratch, a7) && Zeroed(t.regs, L'.scratch, a7')
    requires Window(s.mem, L.scratch, SCRATCH_LEN) == Window(t.mem, L'.scratch, SCRATCH_LEN)
    ensures Related(L, s, L', t)
  {
    hide Window;
    assert s.regs.d == t.regs.d;
  }

  lemma DumpRelated(L: Layout, s: State, u: State, L': Layout, t: State, v: State)
    requires Related(L, s, L', t) && InitDumped(L, s, u) && InitDumped(L', t, v)
    ensures Related(L, u, L', v)
  {
    hide Window, Long, ReadSnapshot, Observed, SameA;
    WindowLong(s.mem, L.scratch, t.mem, L'.scratch, 60);
  }

  lemma TestsRelated(env: Env, L: Layout, L': Layout, t: CpuTest, pre: seq<Instr>, test: seq<Instr>, s: State, s': State)
    requires Ready(L, t, s) && Ready(L', t, s') && Written(t, pre, test)
    requires Window(s.mem, L.scratch, SCRATCH_LEN) == Window(s'.mem, L'.scratch, SCRATCH_LEN)
    ensures Related(L, AfterTest(env, pre, test, s), L', AfterTest(env, pre, test, s'))
  {
    hide Run, CodeAt, Byte, ExecSeq, EncodeAll, Program, Window, AllPortable, First, Related, Zeroed, InitDumped, FromInit, Final;
    FirstState(env, L, t, s);
    FirstState(env, L', t, s');
    ZeroedRelated(L, First(env, s), L', First(env, s'), s.regs.a[7], s'.regs.a[7]);
    PortableSeq(env, pre, L, First(env, s), L', First(env, s'));
    TestState(env, L, t, pre, test, s);
    TestState(env, L', t, pre, test, s');
    DumpRelated(L, AfterPreload(env, pre, s), AtTest(env, pre, s), L', AfterPreload(env, pre, s'), AtTest(env, pre, s'));
    PortableSeq(env, test, L, AtTest(env, pre, s), L', AtTest(env, pre, s'));
  }

  lemma ReportsAgree(L: Layout, u: State, i: Snap, L': Layout, v: State, i': Snap, pc: u32, pc': u32)
    requires Related(L, u, L', v) && i.pc.Some? && i'.pc.Some?
    requires Low32(pc as int - i.pc.value) == Low32(pc' as int - i'.pc.value)
    ensures Agrees(Pair(i, Printed(Observed(u, L.scratch), pc)), Pair(i', Printed(Observed(v, L'.scratch), pc')))
  {
    hide Window;
  }

  /** Layout independence. The same portable test, built and run under any two placements of code,
      snapshots, saved-SP cell, scratch RAM and stack, from any register contents and with the same
      scratch RAM contents, is classified as a match. */
  lemma LayoutIndependence(env: Env, L: Layout, L': Layout, t: CpuTest, pre: seq<Instr>, test: seq<Instr>, s: State, s': State)
    requires Ready(L, t, s) && Ready(L', t, s') && Written(t, pre, test)
    requires Window(s.mem, L.scratch, SCRATCH_LEN) == Window(s'.mem, L'.scratch, SCRATCH_LEN)
    ensures Classify(Reported(L, t, Done(env, pre, test, s).mem), Reported(L', t, Done(env, pre, test, s').mem)) == Match
  {
    hide Run, CodeAt, Byte, ExecSeq, EncodeAll, Program, Window, AllPortable, First, Related, ReadSnapshot, Agrees, Done,
         Classify, AtTest, AfterTest, FromInit, Final, InitDumped, At, Placed;
    SessionReports(env, L, t, pre, test, s);
    SessionReports(env, L', t, pre, test, s');
    TestsRelated(env, L, L', t, pre, test, s, s');
    var base, cand := Reported(L, t, Done(env, pre, test, s).mem), Reported(L', t, Done(env, pre, test, s').mem);
    PcDistance(L, t);
    PcDistance(L', t);
    ReportsAgree(L, AfterTest(env, pre, test, s), base.initial, L', AfterTest(env, pre, test, s'), cand.initial,
                 base.final.pc.value, cand.final.pc.value);
    NotSkipped(env, L', t, pre, test, s');
    MatchMeans(base, cand);
  }

  /** The printed PCs are exactly the length of the test apart, wherever the program lies. */
  lemma PcDistance(L: Layout, t: CpuTest)
    ensures Low32(Mod32(L.code + FinalDumpAt(t)) as int - Mod32(L.code + TestAt(t))) == |t.test|
  {
    Shift(FinalDumpAt(t), TestAt(t), L.code);
    ModSmall(|t.test|);
  }

  lemma ModSmall(n: nat)
    requires n < 0x1_0000_0000
    ensures Low32(n) == n
  {
  }

  // A6 and A7 of the initial snapshot differ, so a test that was run is never taken for a skipped one.
  lemma NotSkipped(env: Env, L: Layout, t: CpuTest, pre: seq<Instr>, test: seq<Instr>, s: State)
    requires Ready(L, t, s) && Written(t, pre, test)
    ensures !WasSkipped(Reported(L, t, Done(env, pre, test, s).mem))
  {
    hide Run, CodeAt, Byte, ExecSeq, EncodeAll, Program, Window, AllPortable, First, ReadSnapshot, Done, AtTest, FromInit,
         Final, Placed, At;
    SessionReports(env, L, t, pre, test, s);
    TestState(env, L, t, pre, test, s);
    var a := Reported(L, t, Done(env, pre, test, s).mem).initial.a;
    assert a[6] == L.scratch && a[7] == s.regs.a[7] && a[6] != a[7];
    assert a[6] in a && a[7] in a;
  }
}
