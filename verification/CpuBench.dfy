/** cpu_bench.c: building a test program, running it, and the JSR around it. */
module CpuBench {
  import opened Bytes
  import opened M68k
  import opened Machine
  import opened Emit
  import opened StateDump
  import opened CpuHarness

  // ---- Which tests get the stack-pointer epilogue (strstr on the test's name) ----

  predicate Contains(name: string, sub: string) {
    sub <= name || (name != [] && Contains(name[1..], sub))
  }

  predicate NeedsReload(name: string) {
    Contains(name, "RTD #") && !Contains(name, "RTD #0")
  }

  // sub stands at offset i of name.
  predicate StandsAt(name: string, sub: string, i: int) {
    0 <= i && i + |sub| <= |name| && name[i..i + |sub|] == sub
  }

  ghost predicate Occurs(name: string, sub: string) {
    exists i :: StandsAt(name, sub, i)
  }

  lemma StandsLater(name: string, sub: string, i: nat)
    requires name != []
    ensures StandsAt(name[1..], sub, i) <==> StandsAt(name, sub, i + 1)
  {
    if i + 1 + |sub| <= |name| { assert name[1..][i..i + |sub|] == name[i + 1..i + 1 + |sub|]; }
  }

  /** Contains finds a substring wherever it stands. */
  lemma {:induction false} ContainsMeans(name: string, sub: string)
    ensures Contains(name, sub) <==> Occurs(name, sub)
    decreases |name|
  {
    hide StandsAt;
    AtFront(name, sub);
    if !StandsAt(name, sub, 0) && name != [] {
      ContainsMeans(name[1..], sub);
      if Occurs(name[1..], sub) {
        var i :| StandsAt(name[1..], sub, i);
        StandsInside(name[1..], sub, i);
        StandsLater(name, sub, i);
      }
      if Occurs(name, sub) {
        var i :| StandsAt(name, sub, i);
        StandsInside(name, sub, i);
        StandsLater(name, sub, i - 1);
      }
    } else if Occurs(name, sub) {
      var i :| StandsAt(name, sub, i);
      StandsInside(name, sub, i);
    }
  }

  lemma AtFront(name: string, sub: string)
    ensures sub <= name <==> StandsAt(name, sub, 0)
  {
    if |sub| <= |name| { assert name[0..0 + |sub|] == name[..|sub|]; }
  }

  lemma StandsInside(name: string, sub: string, i: int)
    requires StandsAt(name, sub, i)
    ensures 0 <= i <= |name| && (i == |name| ==> sub == [])
  {
  }

  function Epilogue(L: Layout, t: CpuTest): seq<Instr> {
    if NeedsReload(t.name) then [LoadA(7, L.savedSp), SubqA7, Rts] else [Rts]
  }

  // ---- The program, part by part ----

  function Final(L: Layout, t: CpuTest): seq<byte> {
    EncodeAll(Dump(L.finalSnap, L.scratch, false)) + EncodeAll(Epilogue(L, t))
  }

  function FromTest(L: Layout, t: CpuTest): seq<byte> {
    t.test + Final(L, t)
  }

  function FromInit(L: Layout, t: CpuTest): seq<byte> {
    EncodeAll(Dump(L.initSnap, L.scratch, true)) + FromTest(L, t)
  }

  function Program(L: Layout, t: CpuTest): seq<byte> {
    EncodeAll(Prelude(L.scratch)) + (t.preload + FromInit(L, t))
  }

  // Offsets in the program of the initial dump, the test and the final dump.
  function InitDumpAt(t: CpuTest): nat { 38 + |t.preload| }
  function TestAt(t: CpuTest): nat { InitDumpAt(t) + 262 }
  function FinalDumpAt(t: CpuTest): nat { TestAt(t) + |t.test| }
  function EpilogueAt(t: CpuTest): nat { FinalDumpAt(t) + 262 }

  /** The program is 564 bytes more than its test, 572 with the epilogue, and fits its buffer. */
  lemma ProgramLength(L: Layout, t: CpuTest)
    ensures |Program(L, t)| == 564 + |t.preload| + |t.test| + (if NeedsReload(t.name) then 8 else 0)
    ensures |Program(L, t)| <= PROG_LEN
    ensures |EncodeAll(Epilogue(L, t))| == if NeedsReload(t.name) then 10 else 2
    ensures |Final(L, t)| == 262 + |EncodeAll(Epilogue(L, t))|
    ensures |Program(L, t)| == EpilogueAt(t) + |EncodeAll(Epilogue(L, t))|
  {
    hide EncodeAll, Prelude, Dump, NeedsReload;
    PreludeCode(L.scratch);
    DumpCode(L.initSnap, L.scratch, true);
    DumpCode(L.finalSnap, L.scratch, false);
    EpilogueCode(L, t);
  }

  lemma EpilogueCode(L: Layout, t: CpuTest)
    ensures EncodeAll(Epilogue(L, t)) ==
            if NeedsReload(t.name) then Encode(LoadA(7, L.savedSp)) + Encode(SubqA7) + Encode(Rts) else Encode(Rts)
    ensures Size(LoadA(7, L.savedSp)) == 6 && Size(SubqA7) == 2 && Size(Rts) == 2
  {
    hide Encode, EncodeAll, NeedsReload;
    var i, j, k := LoadA(7, L.savedSp), SubqA7, Rts;
    EncodeOne(i);
    EncodeOne(j);
    EncodeOne(k);
    EncodeAllAppend([i], [j]);
    EncodeAllAppend([i, j], [k]);
    assert [i] + [j] == [i, j] && [i, j] + [k] == [i, j, k];
    EpilogueSizes(L.savedSp);
  }

  /** The bytes behind the final dump: MOVEA.L cell,A7, SUBQ.L #4,A7 and RTS where "RTD #" stands in the name
      of the test and "RTD #0" does not, RTS alone otherwise. */
  ghost function ReturnBytes(name: string, cell: u32): seq<byte> {
    if Occurs(name, "RTD #") && !Occurs(name, "RTD #0")
    then [0x2E, 0x79] + LongBytes(cell) + [0x59, 0x8F, 0x4E, 0x75]
    else [0x4E, 0x75]
  }

  lemma EpilogueBytes(L: Layout, t: CpuTest)
    ensures EncodeAll(Epilogue(L, t)) == ReturnBytes(t.name, L.savedSp)
    ensures EpilogueAt(t) <= |Program(L, t)| && Program(L, t)[EpilogueAt(t)..] == ReturnBytes(t.name, L.savedSp)
  {
    hide EncodeAll, Encode, Prelude, Dump, Contains, Occurs, LongBytes;
    ContainsMeans(t.name, "RTD #");
    ContainsMeans(t.name, "RTD #0");
    EpilogueCode(L, t);
    ReturnCode();
    LoadCode(7, L.savedSp);
    ProgramEnd(L, t);
  }

  lemma ProgramEnd(L: Layout, t: CpuTest)
    ensures EpilogueAt(t) <= |Program(L, t)| && Program(L, t)[EpilogueAt(t)..] == EncodeAll(Epilogue(L, t))
  {
    hide EncodeAll, Epilogue, Prelude, Dump;
    ProgramLength(L, t);
    ProgramParts(L, t);
  }

  lemma EpilogueSizes(cell: u32)
    ensures Size(LoadA(7, cell)) == 6 && Size(SubqA7) == 2 && Size(Rts) == 2
  {
  }

  // ---- build_program ----

  // The program up to the test.
  function ToTest(L: Layout, t: CpuTest): seq<byte> {
    EncodeAll(Prelude(L.scratch)) + t.preload + EncodeAll(Dump(L.initSnap, L.scratch, true))
  }

  lemma WroteToTest(L: Layout, t: CpuTest, b0: seq<byte>, b1: seq<byte>, b2: seq<byte>, b3: seq<byte>)
    requires Wrote(b0, b1, 0, EncodeAll(Prelude(L.scratch))) && Wrote(b1, b2, 38, t.preload)
    requires Wrote(b2, b3, InitDumpAt(t), EncodeAll(Dump(L.initSnap, L.scratch, true)))
    ensures Wrote(b0, b3, 0, ToTest(L, t)) && |ToTest(L, t)| == TestAt(t)
  {
    hide Wrote, EncodeAll, Prelude, Dump;
    var x, y := EncodeAll(Prelude(L.scratch)), EncodeAll(Dump(L.initSnap, L.scratch, true));
    PreludeCode(L.scratch);
    DumpCode(L.initSnap, L.scratch, true);
    WroteThen(b0, b1, b2, 0, x, t.preload);
    WroteThen(b0, b2, b3, 0, x + t.preload, y);
  }

  lemma WroteFromTest(L: Layout, t: CpuTest, b0: seq<byte>, b3: seq<byte>, b4: seq<byte>, b5: seq<byte>, b6: seq<byte>)
    requires Wrote(b0, b3, 0, ToTest(L, t)) && Wrote(b3, b4, TestAt(t), t.test)
    requires Wrote(b4, b5, FinalDumpAt(t), EncodeAll(Dump(L.finalSnap, L.scratch, false)))
    requires Wrote(b5, b6, EpilogueAt(t), EncodeAll(Epilogue(L, t))) && |ToTest(L, t)| == TestAt(t)
    ensures Wrote(b0, b6, 0, Program(L, t))
  {
    hide Wrote, EncodeAll, Prelude, Dump, Epilogue, ToTest;
    var w, x, y := ToTest(L, t), EncodeAll(Dump(L.finalSnap, L.scratch, false)), EncodeAll(Epilogue(L, t));
    DumpCode(L.finalSnap, L.scratch, false);
    WroteThen(b0, b3, b4, 0, w, t.test);
    WroteThen(b0, b4, b5, 0, w + t.test, x);
    WroteThen(b0, b5, b6, 0, w + t.test + x, y);
    ProgramParts(L, t);
  }

  lemma ProgramParts(L: Layout, t: CpuTest)
    ensures ToTest(L, t) + t.test + EncodeAll(Dump(L.finalSnap, L.scratch, false)) + EncodeAll(Epilogue(L, t))
            == Program(L, t)
  {
    hide EncodeAll, Prelude, Dump, Epilogue;
    assert ToTest(L, t) + t.test + EncodeAll(Dump(L.finalSnap, L.scratch, false)) + EncodeAll(Epilogue(L, t))
        == ToTest(L, t) + FromTest(L, t);
  }

  predicate HoldsAt(buf: seq<byte>, at: nat, bs: seq<byte>) {
    at + |bs| <= |buf| && buf[at..at + |bs|] == bs
  }

  lemma EndWritten(L: Layout, t: CpuTest, was: seq<byte>, now: seq<byte>)
    requires Wrote(was, now, 0, Program(L, t))
    ensures HoldsAt(now, EpilogueAt(t), ReturnBytes(t.name, L.savedSp))
  {
    hide Program, ReturnBytes, EncodeAll, Epilogue;
    EpilogueBytes(L, t);
    assert now[..|Program(L, t)|] == Program(L, t);
  }

  class Bench {
    const addrs: Layout
    const prog: array<byte>
    var initPc: u32
    var finalPc: u32

    constructor (L: Layout)
      ensures addrs == L && prog.Length == PROG_LEN && fresh(prog)
    {
      addrs := L;
      prog := new byte[PROG_LEN](_ => 0);
      initPc, finalPc := 0, 0;
    }

    /** Assembles the program of one test and returns its entry point. */
    method BuildProgram(t: CpuTest) returns (entry: u32)
      requires prog.Length == PROG_LEN
      modifies this`initPc, this`finalPc, prog
      ensures entry == addrs.code
      ensures Wrote(old(prog[..]), prog[..], 0, Program(addrs, t))
      ensures HoldsAt(prog[..], EpilogueAt(t), ReturnBytes(t.name, addrs.savedSp))
      ensures initPc == Mod32(addrs.code + TestAt(t)) && finalPc == Mod32(addrs.code + FinalDumpAt(t))
    {
      hide Wrote, EncodeAll, Encode, Prelude, Dump, NeedsReload, Program, ToTest, Epilogue, Final, FromTest, Mod32, ReturnBytes;
      entry := addrs.code;
      ghost var b0 := prog[..];
      var p := EmitPrelude(prog, 0, addrs.scratch);
      ghost var b1 := prog[..];
      p := PutBytes(prog, p, t.preload);
      ghost var b2 := prog[..];
      p := EmitStateDump(prog, p, addrs.initSnap, addrs.scratch, true);
      ghost var b3 := prog[..];
      initPc := Mod32(addrs.code + p);
      WroteToTest(addrs, t, b0, b1, b2, b3);
      p := PutBytes(prog, p, t.test);
      ghost var b4 := prog[..];
      finalPc := Mod32(addrs.code + p);
      p := EmitStateDump(prog, p, addrs.finalSnap, addrs.scratch, false);
      ghost var b5 := prog[..];
      p := EmitEpilogue(t, p);
      WroteFromTest(addrs, t, b0, b3, b4, b5, prog[..]);
      EndWritten(addrs, t, b0, prog[..]);
    }

    method EmitEpilogue(t: CpuTest, p: nat) returns (q: nat)
      requires p + 10 <= prog.Length
      modifies prog
      ensures Wrote(old(prog[..]), prog[..], p, EncodeAll(Epilogue(addrs, t)))
      ensures Wrote(old(prog[..]), prog[..], p, ReturnBytes(t.name, addrs.savedSp))
    {
      hide Wrote, EncodeAll, Encode, NeedsReload, ReturnBytes, Program;
      EpilogueBytes(addrs, t);
      ghost var b0 := prog[..];
      ghost var i, j := Encode(LoadA(7, addrs.savedSp)), Encode(SubqA7);
      EpilogueCode(addrs, t);
      q := p;
      if NeedsReload(t.name) {
        q := EmitMoveaLAbsToA7(prog, q, addrs.savedSp);
        ghost var b1 := prog[..];
        q := EmitSubqA7(prog, q);
        ghost var b2 := prog[..];
        WroteThen(b0, b1, b2, p, i, j);
        q := EmitRts(prog, q);
        WroteThen(b0, b2, prog[..], p, i + j, Encode(Rts));
      } else {
        q := EmitRts(prog, q);
      }
    }
  }

  // ---- Running the program ----

  // The processor stands at offset `off` of the program and the code from there on is `code`.
  predicate At(L: Layout, s: State, off: nat, code: seq<byte>) {
    s.regs.pc == L.code + off && CodeAt(s.mem, L.code + off, code)
  }

  // The state the test starts in, as the dump in front of it leaves state s.
  predicate InitDumped(L: Layout, s: State, t: State) {
    && t.regs == s.regs.(pc := t.regs.pc, ccr := MoveCcr(s.regs.ccr.x, Long(s.mem, L.scratch + 60)))
    && Window(t.mem, L.scratch, SCRATCH_LEN) == Window(s.mem, L.scratch, SCRATCH_LEN)
    && ReadSnapshot(t.mem, L.initSnap) == Observed(t, L.scratch)
  }

  lemma CodeOutside(m: Mem, m': Mem, lo: int, hi: int, a: int, code: seq<byte>)
    requires SameOutside(m, m', lo, hi) && (a + |code| <= lo || hi <= a) && CodeAt(m, a, code)
    ensures CodeAt(m', a, code)
  {
  }

  /** The initial dump runs into the test, whose code and whatever follows are still in place. */
  lemma InitDumpRuns(env: Env, L: Layout, t: CpuTest, s: State)
    requires Placed(L) && At(L, s, InitDumpAt(t), FromInit(L, t))
    ensures var u := Run(env, s, 33);
            && InitDumped(L, s, u) && At(L, u, TestAt(t), FromTest(L, t))
            && SameOutside(s.mem, u.mem, L.initSnap, L.initSnap + SNAPSHOT_LEN)
  {
    hide Run, Long, CodeAt, Final, EncodeAll, Byte, Dump, ReadSnapshot, Observed;
    var d := EncodeAll(Dump(L.initSnap, L.scratch, true));
    var u := Run(env, s, 33);
    ProgramLength(L, t);
    DumpCode(L.initSnap, L.scratch, true);
    CodeAtSplit(s.mem, s.regs.pc, d, FromTest(L, t));
    DumpRuns(env, L.initSnap, L.scratch, true, s, L.code, L.code + PROG_LEN);
    CodeOutside(s.mem, u.mem, L.initSnap, L.initSnap + SNAPSHOT_LEN, L.code + TestAt(t), FromTest(L, t));
    WindowKept(s.mem, u.mem, L.scratch, SCRATCH_LEN);
  }

  /** The final dump records the state it is entered in and runs into the epilogue. */
  lemma FinalDumpRuns(env: Env, L: Layout, t: CpuTest, s: State)
    requires Placed(L) && At(L, s, FinalDumpAt(t), Final(L, t))
    ensures var u := Run(env, s, 33);
            && u.regs == s.regs.(pc := u.regs.pc, ccr := u.regs.ccr)
            && ReadSnapshot(u.mem, L.finalSnap) == Observed(s, L.scratch)
            && At(L, u, EpilogueAt(t), EncodeAll(Epilogue(L, t)))
            && SameOutside(s.mem, u.mem, L.finalSnap, L.finalSnap + SNAPSHOT_LEN)
  {
    hide Run, Long, CodeAt, Epilogue, EncodeAll, Byte, Dump, ReadSnapshot, Observed, MoveCcr;
    var d, e := EncodeAll(Dump(L.finalSnap, L.scratch, false)), EncodeAll(Epilogue(L, t));
    var u := Run(env, s, 33);
    ProgramLength(L, t);
    DumpCode(L.finalSnap, L.scratch, false);
    CodeAtSplit(s.mem, s.regs.pc, d, e);
    DumpRuns(env, L.finalSnap, L.scratch, false, s, L.code, L.code + PROG_LEN);
    CodeOutside(s.mem, u.mem, L.finalSnap, L.finalSnap + SNAPSHOT_LEN, L.code + EpilogueAt(t), e);
  }

  lemma SnapshotKept(m: Mem, m': Mem, base: int)
    requires Same(m, m', base, base + SNAPSHOT_LEN)
    ensures ReadSnapshot(m', base) == ReadSnapshot(m, base)
  {
    hide Longs, Word, Window, Byte;
    LongsKept(m, m', base);
    LongsKept(m, m', base + 0x20);
    WordKept(m, m', base + 0x40);
    WindowKept(m, m', base + 0x44, SCRATCH_LEN);
  }

  /** Observation transparency. Whatever the preload and the test do, if each falls through to the
      dump behind it and leaves the code still to run alone, then the test starts in exactly the
      state init_snap records, final_snap records exactly the state the test's bytes make of it, and
      the flags the test inherits are the preload's X with N and Z of the last scratch longword. */
  lemma ObservationTransparency(env: Env, L: Layout, t: CpuTest, s: State, kp: nat, kt: nat)
    requires Placed(L) && At(L, s, 0, Program(L, t))
    requires At(L, Run(env, Run(env, s, 16), kp), InitDumpAt(t), FromInit(L, t))
    requires var start := Run(env, Run(env, Run(env, s, 16), kp), 33);
             At(L, Run(env, start, kt), FinalDumpAt(t), Final(L, t))
    ensures var first := Run(env, s, 16);          // the preload's first instruction
            var loaded := Run(env, first, kp);     // the initial dump's first instruction
            var start := Run(env, loaded, 33);     // the test's first instruction
            var end := Run(env, start, kt);        // the final dump's first instruction
            var done := Run(env, end, 33);         // the epilogue
            && Zeroed(first.regs, L.scratch, s.regs.a[7]) && At(L, first, 38, t.preload + FromInit(L, t))
            && InitDumped(L, loaded, start) && start.regs.pc == Mod32(L.code + TestAt(t))
            && end.regs.pc == Mod32(L.code + FinalDumpAt(t))
            && ReadSnapshot(done.mem, L.finalSnap) == Observed(end, L.scratch)
            && (Same(start.mem, end.mem, L.initSnap, L.initSnap + SNAPSHOT_LEN)
                ==> ReadSnapshot(done.mem, L.initSnap) == Observed(start, L.scratch))
            && At(L, done, EpilogueAt(t), EncodeAll(Epilogue(L, t)))
            && done == Run(env, s, 16 + kp + 33 + kt + 33)
  {
    hide Run, CodeAt, Final, FromInit, EncodeAll, Byte, ReadSnapshot, Observed, Prelude, Zeroed, MoveCcr, Window, Long;
    var first := Run(env, s, 16);
    var loaded := Run(env, first, kp);
    var start := Run(env, loaded, 33);
    var end := Run(env, start, kt);
    var done := Run(env, end, 33);
    PreludeFalls(env, L, t, s);
    InitDumpRuns(env, L, t, loaded);
    FinalDumpRuns(env, L, t, end);
    ProgramLength(L, t);
    if Same(start.mem, end.mem, L.initSnap, L.initSnap + SNAPSHOT_LEN) {
      SnapshotKept(start.mem, done.mem, L.initSnap);
    }
    RunAdd(env, s, 16, kp);
    RunAdd(env, s, 16 + kp, 33);
    RunAdd(env, s, 16 + kp + 33, kt);
    RunAdd(env, s, 16 + kp + 33 + kt, 33);
  }

  // The flags of a CCR byte are those it was made from.
  lemma CcrRoundTrip(c: Ccr)
    ensures CcrOf(CcrByte(c)) == c
  {
    var b := CcrByte(c);
    assert b / 16 == if c.x then 1 else 0;
    assert b / 8 == (if c.x then 2 else 0) + if c.n then 1 else 0;
    assert b / 4 == (if c.x then 4 else 0) + (if c.n then 2 else 0) + if c.z then 1 else 0;
    assert b / 2 == (if c.x then 8 else 0) + (if c.n then 4 else 0) + (if c.z then 2 else 0) + if c.v then 1 else 0;
  }

  lemma CcrInjective(c: Ccr, c': Ccr)
    ensures CcrByte(c) == CcrByte(c') <==> c == c'
  {
    hide CcrByte, CcrOf;
    CcrRoundTrip(c);
    CcrRoundTrip(c');
  }

  /** The two recorded CCR values differ exactly when the test itself changed the flags. */
  lemma CcrConsistent(env: Env, L: Layout, t: CpuTest, loaded: State, kt: nat)
    requires Placed(L) && At(L, loaded, InitDumpAt(t), FromInit(L, t))
    requires At(L, Run(env, Run(env, loaded, 33), kt), FinalDumpAt(t), Final(L, t))
    requires Same(Run(env, loaded, 33).mem, Run(env, Run(env, loaded, 33), kt).mem, L.initSnap, L.initSnap + SNAPSHOT_LEN)
    ensures var start := Run(env, loaded, 33);
            var end := Run(env, start, kt);
            var m := Run(env, end, 33).mem;
            ReadSnapshot(m, L.finalSnap).ccr == ReadSnapshot(m, L.initSnap).ccr <==> end.regs.ccr == start.regs.ccr
  {
    hide Run, CodeAt, Final, FromInit, EncodeAll, Byte, ReadSnapshot, MoveCcr, Window, Long, CcrByte;
    var start := Run(env, loaded, 33);
    var end := Run(env, start, kt);
    InitDumpRuns(env, L, t, loaded);
    FinalDumpRuns(env, L, t, end);
    SnapshotKept(start.mem, Run(env, end, 33).mem, L.initSnap);
    CcrInjective(start.regs.ccr, end.regs.ccr);
  }

  lemma PreludeFalls(env: Env, L: Layout, t: CpuTest, s: State)
    requires Placed(L) && At(L, s, 0, Program(L, t))
    ensures var u := Run(env, s, 16);
            && Zeroed(u.regs, L.scratch, s.regs.a[7]) && At(L, u, 38, t.preload + FromInit(L, t))
            && forall x :: Byte(u.mem, x) == Byte(s.mem, x)
  {
    hide Run, CodeAt, FromInit, EncodeAll, Byte, Prelude, Zeroed;
    var p, rest := EncodeAll(Prelude(L.scratch)), t.preload + FromInit(L, t);
    PreludeCode(L.scratch);
    CodeAtSplit(s.mem, s.regs.pc, p, rest);
    PreludeRuns(env, L.scratch, s, L.code + PROG_LEN);
    CodeKept(s.mem, Run(env, s, 16).mem, L.code + 38, rest);
  }

  // ---- Returning to the JSR ----

  function EpilogueSteps(t: CpuTest): nat {
    if NeedsReload(t.name) then 3 else 1
  }

  /** Where the program returns to: without the epilogue, the longword A7 points at when the test is
      over; with it, the longword below the stack pointer that invoke_program saved, whatever A7 is. */
  lemma ReturnsTo(env: Env, L: Layout, t: CpuTest, s: State)
    requires Placed(L) && At(L, s, EpilogueAt(t), EncodeAll(Epilogue(L, t)))
    ensures var u := Run(env, s, EpilogueSteps(t));
            var sp := if NeedsReload(t.name) then Mod32(Long(s.mem, L.savedSp) as int - 4) else s.regs.a[7];
            && u.regs.pc == Long(s.mem, sp) && u.regs.a == s.regs.a[7 := Mod32(sp + 4)]
            && u.regs.d == s.regs.d && u.regs.ccr == s.regs.ccr && forall x :: Byte(u.mem, x) == Byte(s.mem, x)
  {
    hide NeedsReload, Byte, EncodeAll, Encode, Exec, Long, CodeAt, Run;
    EpilogueCode(L, t);
    if NeedsReload(t.name) {
      var i, j, k := LoadA(7, L.savedSp), SubqA7, Rts;
      CodeAtSplit(s.mem, s.regs.pc, Encode(i) + Encode(j), Encode(k));
      CodeAtSplit(s.mem, s.regs.pc, Encode(i), Encode(j));
      var s1 := OneStep(env, s, i);
      LoadPops(env, s, L.savedSp);
      CodeKept(s.mem, s1.mem, s1.regs.pc, Encode(j));
      var s2 := OneStep(env, s1, j);
      SubqPops(env, s1);
      CodeKept(s.mem, s2.mem, s2.regs.pc, Encode(k));
      var s3 := OneStep(env, s2, k);
      RtsPops(env, s2);
      LongKept(s.mem, s2.mem, s2.regs.a[7]);
      RunAdd(env, s, 1, 1);
      RunAdd(env, s, 2, 1);
    } else {
      var s1 := OneStep(env, s, Rts);
      RtsPops(env, s);
    }
  }

  lemma LoadPops(env: Env, s: State, cell: u32)
    requires s.regs.pc + 6 < 0x1_0000_0000
    ensures var t := Exec(env, LoadA(7, cell), s);
            && t.regs == s.regs.(pc := s.regs.pc + 6, a := s.regs.a[7 := Long(s.mem, cell)])
            && forall x :: Byte(t.mem, x) == Byte(s.mem, x)
  {
    hide Long;
  }

  lemma SubqPops(env: Env, s: State)
    requires s.regs.pc + 2 < 0x1_0000_0000
    ensures var t := Exec(env, SubqA7, s);
            && t.regs == s.regs.(pc := s.regs.pc + 2, a := s.regs.a[7 := Mod32(s.regs.a[7] as int - 4)])
            && forall x :: Byte(t.mem, x) == Byte(s.mem, x)
  {
  }

  lemma RtsPops(env: Env, s: State)
    ensures var t := Exec(env, Rts, s);
            && t.regs == s.regs.(pc := Long(s.mem, s.regs.a[7]), a := s.regs.a[7 := Mod32(s.regs.a[7] as int + 4)])
            && forall x :: Byte(t.mem, x) == Byte(s.mem, x)
  {
    hide Long;
  }
}
