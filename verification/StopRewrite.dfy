/** Rewriting a program's STOP preserves what the program computes: cpu_fpu_bench.c
    against the supervisor-mode run that its corpus was recorded from. */
module StopRewrite {
  import opened Bytes
  import opened M68k
  import opened Machine
  import opened Emit
  import opened StateDump
  import opened CpuHarness
  import opened Footprint
  import opened CpuFpuBench

  // ---- The preamble and the dump ----

  // The registers the embedded program starts with.
  predicate Loaded0(r: Regs, L: FpLayout, opA: u32, a7: u32) {
    && r.d[0] == opA && (forall n :: 1 <= n < 8 ==> r.d[n] == 0) && (forall n :: 0 <= n < 6 ==> r.a[n] == 0)
    && r.a[6] == L.scratch && r.a[7] == a7
  }

  lemma PreambleEffect(env: Env, L: FpLayout, opA: u32, s: State)
    ensures Loaded0(ExecSeq(env, Preamble(L, opA), s).regs, L, opA, s.regs.a[7])
  {
    hide ClearD, ClearA;
    var d, a, i, j := ClearD(1), ClearA(6), MoveaImm(6, L.scratch), MoveImmD(0, opA);
    var s1 := ExecSeq(env, d, s);
    var s2 := ExecSeq(env, a, s1);
    ClearDEffect(env, 1, s);
    ClearAEffect(env, 6, s1);
    ExecSeqAppend(env, d, a, s);
    ExecSeqAppend(env, d + a, [i, j], s);
    TailEffect(env, L, opA, s2);
  }

  lemma TailEffect(env: Env, L: FpLayout, opA: u32, s: State)
    ensures var t := ExecSeq(env, [MoveaImm(6, L.scratch), MoveImmD(0, opA)], s);
            t.regs.a == s.regs.a[6 := L.scratch] && t.regs.d == s.regs.d[0 := opA]
  {
    var i, j := MoveaImm(6, L.scratch), MoveImmD(0, opA);
    assert [i, j][1..] == [j];
    ExecOne(env, j, Exec(env, i, s));
  }

  lemma PreambleQuiet(L: FpLayout, opA: u32)
    ensures |Preamble(L, opA)| == 15 && forall i | i in Preamble(L, opA) :: Quiet(i)
  {
  }

  /** From the entry point 15 steps load the operand into D0 and the scratch base into A6. */
  lemma PreambleRuns(env: Env, L: FpLayout, opA: u32, s: State)
    requires LaidOut(L) && s.regs.pc == L.code && CodeAt(s.mem, L.code, EncodeAll(Preamble(L, opA)))
    ensures var t := Run(env, s, 15);
            && Loaded0(t.regs, L, opA, s.regs.a[7]) && t.regs.pc == L.code + 38
            && forall x :: Byte(t.mem, x) == Byte(s.mem, x)
  {
    hide Run, ExecSeq, EncodeAll, Encode, CodeAt, SparesAll, Preamble, Quiet, Linear, Loaded0;
    PreambleCode(L, opA);
    PreambleQuiet(L, opA);
    QuietSeq(env, Preamble(L, opA), s, L.code, L.code + BUFFER_LEN);
    RunLinear(env, Preamble(L, opA), s, L.code, L.code + BUFFER_LEN);
    PreambleEffect(env, L, opA, s);
  }

  // u is s with its registers stored in final_snap.
  ghost predicate RegsDumped(L: FpLayout, s: State, u: State) {
    && u.regs == s.regs.(pc := u.regs.pc, ccr := u.regs.ccr)
    && Longs(u.mem, L.finalSnap) == s.regs.d && Longs(u.mem, L.finalSnap + 0x20) == s.regs.a
    && SameOutside(s.mem, u.mem, L.finalSnap, L.finalSnap + 64)
  }

  lemma RegDumpEffect(env: Env, L: FpLayout, s: State)
    requires LaidOut(L)
    ensures RegsDumped(L, s, ExecSeq(env, RegDump(L), s))
  {
    hide ExecSeq, SavesA, SavesD, Longs, Byte;
    var at := Mod32(L.finalSnap + 0x20);
    var v := ExecSeq(env, SavesA(at), s);
    SavesAEffect(env, at, s);
    ExecSeqAppend(env, SavesA(at), SavesD(L.finalSnap), s);
    SavesDEffect(env, L.finalSnap, v);
    LongsKept(v.mem, ExecSeq(env, RegDump(L), s).mem, L.finalSnap + 0x20);
  }

  lemma RegListsPlaced(L: FpLayout)
    requires LaidOut(L)
    ensures RegSaves(SavesA(Mod32(L.finalSnap + 0x20)), L.finalSnap + 0x20) && RegSaves(SavesD(L.finalSnap), L.finalSnap)
    ensures |RegDump(L)| == 16 && forall i | i in RegDump(L) :: Linear(i)
  {
  }

  lemma RegDumpRuns(env: Env, L: FpLayout, s: State)
    requires LaidOut(L) && L.code <= s.regs.pc && s.regs.pc + 98 <= L.code + BUFFER_LEN
    requires CodeAt(s.mem, s.regs.pc, Tail(L))
    ensures var u := Run(env, s, 16);
            RegsDumped(L, s, u) && u.regs.pc == s.regs.pc + 96 && CodeAt(u.mem, u.regs.pc, Encode(Rts))
  {
    hide Run, ExecSeq, EncodeAll, Encode, CodeAt, SparesAll, SavesA, SavesD, Linear, RegSaves, Longs, Byte;
    var a, d, hi := SavesA(Mod32(L.finalSnap + 0x20)), SavesD(L.finalSnap), L.code + BUFFER_LEN;
    TailCode(L);
    PartSizes(L, 0);
    RegListsPlaced(L);
    CodeAtSplit(s.mem, s.regs.pc, EncodeAll(RegDump(L)), Encode(Rts));
    RegSavesSpare(env, a, L.finalSnap + 0x20, s, L.code, hi);
    RegSavesSpare(env, d, L.finalSnap, ExecSeq(env, a, s), L.code, hi);
    SparesAllAppend(env, a, d, s, L.code, hi);
    RunLinear(env, RegDump(L), s, L.code, hi);
    RegDumpEffect(env, L, s);
    CodeKept(s.mem, Run(env, s, 16).mem, s.regs.pc + 96, Encode(Rts));
  }

  // ---- The reference run and the rewritten one ----

  // The bytes in which the two memories may differ: the STOP and everything behind the program.
  ghost function Changed(L: FpLayout, p: seq<byte>, i: nat): iset<int> {
    iset x | IsChanged(L, p, i, x)
  }

  predicate IsChanged(L: FpLayout, p: seq<byte>, i: nat, x: int) {
    L.code + 38 + i <= x < L.code + 38 + i + 4 || L.code + 38 + |p| <= x < L.code + BUFFER_LEN
  }

  /** r holds the program as its corpus has it; mb is r's memory with what build_program embeds and appends. */
  ghost predicate Setting(env: Env, L: FpLayout, p: seq<byte>, i: nat, r: State, mb: Mem) {
    && LaidOut(L) && FitsBuffer(p) && IsTarget(p, i) && Local(env)
    && r.regs.pc == L.code + 38 && CodeAt(r.mem, L.code + 38, p)
    && CodeAt(mb, L.code + 38, Rewritten(p, i) + Tail(L)) && AgreeOff(Changed(L, p, i), r.mem, mb)
  }

  function DumpAt(L: FpLayout, p: seq<byte>, i: nat): nat
    requires i + 4 <= |p|
  {
    L.code + 38 + |Rewritten(p, i)|
  }

  // Steps from the STOP's place to the dump: none where the STOP was cut off, one through the BRA.
  function Hops(p: seq<byte>, i: nat): nat {
    if i + 4 == |p| then 0 else 1
  }

  /** Both runs arrive at the STOP's place in the same state, bytes that may differ aside. */
  lemma ReachesTarget(env: Env, L: FpLayout, p: seq<byte>, i: nat, r: State, mb: Mem, k: nat)
    requires Setting(env, L, p, i, r, mb) && RunAvoids(env, r, k, Changed(L, p, i))
    ensures var t, b, C := Run(env, r, k), Run(env, State(r.regs, mb), k), Changed(L, p, i);
            && b.regs == t.regs && AgreeOff(C, t.mem, b.mem) && AgreeOn(C, r.mem, t.mem) && AgreeOn(C, mb, b.mem)
  {
    hide Run, RunAvoids, CodeAt, Tail, Local, Byte;
    RunAgrees(env, Changed(L, p, i), r, mb, k);
  }

  lemma BraLands(env: Env, L: FpLayout, p: seq<byte>, i: nat, s: State)
    requires LaidOut(L) && |p| <= 124 && i + 4 < |p|
    requires s.regs.pc == L.code + 38 + i && CodeAt(s.mem, s.regs.pc, Encode(BraOver(p, i)))
    ensures var u := Run(env, s, 1);
            u.regs == s.regs.(pc := L.code + 38 + |p|) && forall x :: Byte(u.mem, x) == Byte(s.mem, x)
  {
    hide Run, Encode, Byte, CodeAt;
    var u := OneStep(env, s, BraOver(p, i));
    BraExec(env, BraOver(p, i), s);
  }

  lemma BraExec(env: Env, i: Instr, s: State)
    requires i.Bra?
    ensures var u := Exec(env, i, s);
            u.regs == s.regs.(pc := Mod32(s.regs.pc + 2 + Signed16(i.disp))) && forall x :: Byte(u.mem, x) == Byte(s.mem, x)
  {
  }

  // Where the STOP was, the built program holds the BRA, or the dump if the STOP was at the end.
  lemma RewrittenCode(L: FpLayout, p: seq<byte>, i: nat, m: Mem)
    requires |p| <= 124 && i + 4 <= |p| && CodeAt(m, L.code + 38, Rewritten(p, i) + Tail(L))
    ensures CodeAt(m, DumpAt(L, p, i), Tail(L))
    ensures i + 4 < |p| ==> CodeAt(m, L.code + 38 + i, Encode(BraOver(p, i)))
    ensures DumpAt(L, p, i) == L.code + 38 + if i + 4 == |p| then i else |p|
  {
    hide Encode, Tail, BraOver, CodeAt;
    var q := L.code + 38;
    BraSize(p, i);
    CodeAtSplit(m, q, Rewritten(p, i), Tail(L));
    if i + 4 < |p| {
      CodeAtSplit(m, q, p[..i] + Encode(BraOver(p, i)), p[i + 4..]);
      CodeAtSplit(m, q, p[..i], Encode(BraOver(p, i)));
    }
  }

  // Code inside the changed bytes is still what it was in memory m.
  lemma CodeOn(C: iset<int>, m: Mem, m': Mem, a: int, code: seq<byte>)
    requires AgreeOn(C, m, m') && CodeAt(m, a, code) && forall x :: a <= x < a + |code| ==> x in C
    ensures CodeAt(m', a, code)
  {
  }

  /** If the reference run reaches its target STOP and until then touches neither the STOP's bytes nor
      the space behind the program, the built program reaches the dump, and the dump records exactly the
      D and A registers the reference run stopped with; data memory is the same too. */
  lemma StopRewriting(env: Env, L: FpLayout, p: seq<byte>, i: nat, r: State, mb: Mem, k: nat)
    requires Setting(env, L, p, i, r, mb) && RunAvoids(env, r, k, Changed(L, p, i))
    requires Run(env, r, k).regs.pc == L.code + 38 + i
    ensures var t := Run(env, r, k);
            var u := Run(env, State(r.regs, mb), k + Hops(p, i) + 16);
            && u.regs.d == t.regs.d && u.regs.a == t.regs.a && u.regs.fpu == t.regs.fpu
            && Longs(u.mem, L.finalSnap) == t.regs.d && Longs(u.mem, L.finalSnap + 0x20) == t.regs.a
            && u.regs.pc == DumpAt(L, p, i) + 96 && CodeAt(u.mem, u.regs.pc, Encode(Rts))
            && forall x :: x !in Changed(L, p, i) && !(L.finalSnap <= x < L.finalSnap + 64)
                 ==> Byte(u.mem, x) == Byte(t.mem, x)
  {
    hide Run, RunAvoids, CodeAt, Encode, Tail, Rewritten, Local, Longs, Byte;
    var t, b := Run(env, r, k), Run(env, State(r.regs, mb), k);
    var v := Run(env, b, Hops(p, i));
    var C := Changed(L, p, i);
    ReachesTarget(env, L, p, i, r, mb, k);
    HopsToDump(env, L, p, i, mb, b);
    RegDumpRuns(env, L, v);
    RunAdd(env, State(r.regs, mb), k, Hops(p, i));
    RunAdd(env, State(r.regs, mb), k + Hops(p, i), 16);
  }

  lemma HopsToDump(env: Env, L: FpLayout, p: seq<byte>, i: nat, mb: Mem, b: State)
    requires LaidOut(L) && FitsBuffer(p) && IsTarget(p, i) && b.regs.pc == L.code + 38 + i
    requires CodeAt(mb, L.code + 38, Rewritten(p, i) + Tail(L)) && AgreeOn(Changed(L, p, i), mb, b.mem)
    ensures var v := Run(env, b, Hops(p, i));
            && v.regs == b.regs.(pc := v.regs.pc) && v.regs.pc == DumpAt(L, p, i) && CodeAt(v.mem, v.regs.pc, Tail(L))
            && L.code <= v.regs.pc && v.regs.pc + 98 <= L.code + BUFFER_LEN
            && forall x :: Byte(v.mem, x) == Byte(b.mem, x)
  {
    hide CodeAt, Encode, Tail, Rewritten, BraOver, Byte, Step;
    var C := Changed(L, p, i);
    RewrittenCode(L, p, i, mb);
    TailCode(L);
    BraSize(p, i);
    CodeOn(C, mb, b.mem, DumpAt(L, p, i), Tail(L));
    if i + 4 < |p| {
      CodeOn(C, mb, b.mem, L.code + 38 + i, Encode(BraOver(p, i)));
      BraLands(env, L, p, i, b);
      CodeKept(b.mem, Run(env, b, 1).mem, DumpAt(L, p, i), Tail(L));
    }
  }

  /** The same from the entry point of the built program, for the reference run on any memory that holds
      the unmodified program: the dump records the registers at its STOP. */
  lemma BuiltProgramRuns(env: Env, L: FpLayout, opA: u32, p: seq<byte>, i: nat, s: State, mr: Mem, k: nat)
    requires LaidOut(L) && FitsBuffer(p) && IsTarget(p, i) && Local(env)
    requires s.regs.pc == L.code && CodeAt(s.mem, L.code, Whole(L, opA, Rewritten(p, i)))
    requires CodeAt(mr, L.code + 38, p) && AgreeOff(Changed(L, p, i), mr, s.mem)
    requires var r := State(Run(env, s, 15).regs, mr);
             RunAvoids(env, r, k, Changed(L, p, i)) && Run(env, r, k).regs.pc == L.code + 38 + i
    ensures var r := State(Run(env, s, 15).regs, mr);
            var t := Run(env, r, k);
            var u := Run(env, s, 15 + (k + Hops(p, i) + 16));
            && Loaded0(r.regs, L, opA, s.regs.a[7])
            && Longs(u.mem, L.finalSnap) == t.regs.d && Longs(u.mem, L.finalSnap + 0x20) == t.regs.a
            && CodeAt(u.mem, u.regs.pc, Encode(Rts)) && u.regs.a == t.regs.a
  {
    hide Run, RunAvoids, CodeAt, Encode, Preamble, Tail, Rewritten, Local, Longs, Byte, EncodeAll, Loaded0;
    var e, b := Rewritten(p, i), Run(env, s, 15);
    var r := State(b.regs, mr);
    PreambleCode(L, opA);
    CodeAtSplit(s.mem, L.code, EncodeAll(Preamble(L, opA)), e + Tail(L));
    PreambleRuns(env, L, opA, s);
    TailCode(L);
    CodeKept(s.mem, b.mem, L.code + 38, e + Tail(L));
    StopRewriting(env, L, p, i, r, b.mem, k);
    RunAdd(env, s, 15, k + Hops(p, i) + 16);
    assert b == State(r.regs, b.mem);
  }

  // ---- When the reference stops elsewhere ----

  lemma RunStopped(env: Env, s: State, n: nat)
    requires CodeAt(s.mem, s.regs.pc, Encode(Stop(0x2700)))
    ensures Run(env, s, n) == s
    decreases n
  {
    hide Step, CodeAt, Encode;
    StepExecutes(env, s, Stop(0x2700));
    StopStays(env, s);
    if n > 0 { RunStopped(env, s, n - 1); }
  }

  lemma StopStays(env: Env, s: State)
    ensures Exec(env, Stop(0x2700), s) == s
  {
    assert StoreBytes(s.mem, 0, []) == s.mem;
  }

  lemma StopEncoded()
    ensures Encode(Stop(0x2700)) == [0x4E, 0x72, 0x27, 0x00]
  {
  }

  lemma StopCode(m: Mem, a: int, p: seq<byte>, o: nat)
    requires StopAt(p, o)
    requires forall j :: o <= j < o + 4 ==> Byte(m, a + j) == p[j]
    ensures CodeAt(m, a + o, Encode(Stop(0x2700)))
  {
    hide Encode;
    StopEncoded();
    assert Byte(m, a + (o + 1)) == p[o + 1] && Byte(m, a + (o + 2)) == p[o + 2] && Byte(m, a + (o + 3)) == p[o + 3];
    assert Byte(m, a + o) == p[o];
  }

  lemma {:induction false} RunAvoidsPrefix(env: Env, s: State, k: nat, n: nat, C: iset<int>)
    requires RunAvoids(env, s, k, C) && n <= k
    ensures RunAvoids(env, s, n, C)
    ensures n < k ==> Avoids(env, Run(env, s, n), C)
    decreases n
  {
    hide Step, Avoids;
    if n > 0 {
      RunAvoidsPrefix(env, Step(env, s), k - 1, n - 1, C);
    }
  }

  lemma AvoidsPc(env: Env, s: State, C: iset<int>)
    requires Avoids(env, s, C)
    ensures s.regs.pc !in C
  {
    hide Decode, HeadLen, Encode;
    var w := Window(s.mem, s.regs.pc, 10);
    HeadLenBound(w);
    match Decode(w) {
      case Some(i) => SizeBound(i);
      case None =>
    }
    assert Touches(env, s, s.regs.pc);
  }

  // Two STOPs do not overlap.
  lemma StopsApart(p: seq<byte>, i: nat, o: nat)
    requires StopAt(p, i) && StopAt(p, o) && i < o
    ensures i + 4 <= o
  {
  }

  /** A reference run that stops at offset o is matched by the built program exactly when o is the offset
      that was rewritten; at any other STOP the built program stays there and never reaches its dump. */
  lemma StopRewritingExact(env: Env, L: FpLayout, p: seq<byte>, i: nat, r: State, mb: Mem, k: nat, o: nat)
    requires Setting(env, L, p, i, r, mb) && RunAvoids(env, r, k, Changed(L, p, i))
    requires StopAt(p, o) && Run(env, r, k).regs.pc == L.code + 38 + o
    requires o != i ==> AgreeProgram(L, p, o, Run(env, r, k).mem)
    ensures (exists n :: Run(env, State(r.regs, mb), n).regs.pc == DumpAt(L, p, i)) <==> o == i
  {
    hide Run, RunAvoids, CodeAt, Encode, Tail, Rewritten, Local, Byte;
    var b := State(r.regs, mb);
    if o == i {
      var v := Run(env, b, k);
      ReachesTarget(env, L, p, i, r, mb, k);
      HopsToDump(env, L, p, i, mb, v);
      RunAdd(env, b, k, Hops(p, i));
    } else {
      forall n: nat
        ensures Run(env, b, n).regs.pc != DumpAt(L, p, i)
      {
        NeverDumps(env, L, p, i, r, mb, k, o, n);
      }
    }
  }

  // The STOP at offset o has not been overwritten.
  predicate AgreeProgram(L: FpLayout, p: seq<byte>, o: nat, m: Mem)
    requires o + 4 <= |p|
  {
    forall j :: o <= j < o + 4 ==> Byte(m, L.code + 38 + j) == p[j]
  }

  lemma NeverDumps(env: Env, L: FpLayout, p: seq<byte>, i: nat, r: State, mb: Mem, k: nat, o: nat, n: nat)
    requires Setting(env, L, p, i, r, mb) && RunAvoids(env, r, k, Changed(L, p, i))
    requires StopAt(p, o) && Run(env, r, k).regs.pc == L.code + 38 + o && o != i
    requires AgreeProgram(L, p, o, Run(env, r, k).mem)
    ensures Run(env, State(r.regs, mb), n).regs.pc != DumpAt(L, p, i)
  {
    hide *;
    if n < k {
      NotBefore(env, L, p, i, r, mb, k, n);
    } else {
      NotAfter(env, L, p, i, r, mb, k, o, n);
    }
  }

  // Until the reference stops it is outside the changed bytes, and so is the built program.
  lemma NotBefore(env: Env, L: FpLayout, p: seq<byte>, i: nat, r: State, mb: Mem, k: nat, n: nat)
    requires Setting(env, L, p, i, r, mb) && RunAvoids(env, r, k, Changed(L, p, i)) && n < k
    ensures Run(env, State(r.regs, mb), n).regs.pc != DumpAt(L, p, i)
  {
    hide Run, RunAvoids, CodeAt, Encode, Tail, Local, Byte, BraOver, Rewritten, Avoids;
    RunAvoidsPrefix(env, r, k, n, Changed(L, p, i));
    ReachesTarget(env, L, p, i, r, mb, n);
    AvoidsPc(env, Run(env, r, n), Changed(L, p, i));
    DumpInside(env, L, p, i, r, mb);
  }

  lemma DumpInside(env: Env, L: FpLayout, p: seq<byte>, i: nat, r: State, mb: Mem)
    requires Setting(env, L, p, i, r, mb)
    ensures DumpAt(L, p, i) in Changed(L, p, i) && DumpAt(L, p, i) == L.code + 38 + if i + 4 == |p| then i else |p|
  {
    hide CodeAt, Encode, Tail, Local, Byte, BraOver, Rewritten;
    RewrittenCode(L, p, i, mb);
  }

  // Afterwards the built program stands at a STOP of its own.
  lemma NotAfter(env: Env, L: FpLayout, p: seq<byte>, i: nat, r: State, mb: Mem, k: nat, o: nat, n: nat)
    requires Setting(env, L, p, i, r, mb) && RunAvoids(env, r, k, Changed(L, p, i)) && k <= n
    requires StopAt(p, o) && Run(env, r, k).regs.pc == L.code + 38 + o && o != i
    requires AgreeProgram(L, p, o, Run(env, r, k).mem)
    ensures Run(env, State(r.regs, mb), n).regs.pc != DumpAt(L, p, i)
  {
    hide Run, RunAvoids, CodeAt, Encode, Tail, Local, Byte, BraOver, Rewritten, Step;
    var b := State(r.regs, mb);
    var v := Run(env, b, k);
    DumpInside(env, L, p, i, r, mb);
    ReachesTarget(env, L, p, i, r, mb, k);
    if o < i { StopsApart(p, o, i); } else { StopsApart(p, i, o); }
    StopCode(v.mem, L.code + 38, p, o);
    RunStopped(env, v, n - k);
    RunAdd(env, b, k, n - k);
  }

  // ---- A program the rewriting breaks ----

  /** MOVE.L #$4E722700,D0; STOP #$2700; NOP: the STOP's bytes occur first inside an immediate operand. */
  function Decoy(): seq<byte> {
    [0x20, 0x3C, 0x4E, 0x72, 0x27, 0x00, 0x4E, 0x72, 0x27, 0x00, 0x4E, 0x71]
  }

  lemma DecoyEmbeds()
    ensures IsTarget(Decoy(), 2)
    ensures Rewritten(Decoy(), 2) == Encode(MoveImmD(0, 0x6000_0008)) + Encode(Stop(0x2700)) + [0x4E, 0x71]
    ensures Decoy() == Encode(MoveImmD(0, 0x4E72_2700)) + Encode(Stop(0x2700)) + [0x4E, 0x71]
  {
    hide Encode;
    DecoyBra();
    DecoyLoads();
    StopEncoded();
  }

  lemma DecoyBra()
    ensures Encode(BraOver(Decoy(), 2)) == [0x60, 0x00, 0x00, 0x08]
  {
  }

  lemma DecoyLoads()
    ensures Encode(MoveImmD(0, 0x6000_0008)) == [0x20, 0x3C, 0x60, 0x00, 0x00, 0x08]
    ensures Encode(MoveImmD(0, 0x4E72_2700)) == [0x20, 0x3C, 0x4E, 0x72, 0x27, 0x00]
  {
  }

  // Loading an immediate into D0 and stopping.
  lemma LoadThenStop(env: Env, s: State, v: u32, rest: seq<byte>, n: nat)
    requires CodeAt(s.mem, s.regs.pc, Encode(MoveImmD(0, v)) + Encode(Stop(0x2700)) + rest)
    requires s.regs.pc + 12 < 0x1_0000_0000 && n >= 1
    ensures Run(env, s, n).regs.d[0] == v && Run(env, s, n).regs.pc == s.regs.pc + 6
  {
    hide Run, CodeAt, Encode;
    var i := MoveImmD(0, v);
    CodeAtSplit(s.mem, s.regs.pc, Encode(i) + Encode(Stop(0x2700)), rest);
    CodeAtSplit(s.mem, s.regs.pc, Encode(i), Encode(Stop(0x2700)));
    var t := OneStep(env, s, i);
    LoadStep(env, v, s);
    CodeKept(s.mem, t.mem, s.regs.pc + 6, Encode(Stop(0x2700)));
    RunStopped(env, t, n - 1);
    RunAdd(env, s, 1, n - 1);
  }

  lemma LoadStep(env: Env, v: u32, s: State)
    requires s.regs.pc + 12 < 0x1_0000_0000
    ensures Size(MoveImmD(0, v)) == 6
    ensures var t := Exec(env, MoveImmD(0, v), s);
            && t.regs.d[0] == v && t.regs.pc == s.regs.pc + 6 && forall x :: Byte(t.mem, x) == Byte(s.mem, x)
  {
  }

  /** The rewriting does not preserve every program: run from the same registers, the reference stops with
      D0 = $4E722700, the built program stops with D0 = $60000008 and never reaches its dump. */
  lemma DecoyBreaks(env: Env, L: FpLayout, r: State, mb: Mem, n: nat)
    requires LaidOut(L) && r.regs.pc == L.code + 38 && n >= 1
    requires CodeAt(r.mem, L.code + 38, Decoy()) && CodeAt(mb, L.code + 38, Rewritten(Decoy(), 2) + Tail(L))
    ensures Run(env, r, n).regs.d[0] == 0x4E72_2700
    ensures var b := Run(env, State(r.regs, mb), n);
            b.regs.d[0] == 0x6000_0008 && b.regs.pc == L.code + 44 != DumpAt(L, Decoy(), 2)
  {
    hide Run, CodeAt, Encode, Tail, BraOver;
    DecoyEmbeds();
    CodeAtSplit(mb, L.code + 38, Rewritten(Decoy(), 2), Tail(L));
    LoadThenStop(env, r, 0x4E72_2700, [0x4E, 0x71], n);
    LoadThenStop(env, State(r.regs, mb), 0x6000_0008, [0x4E, 0x71], n);
    RewrittenCode(L, Decoy(), 2, mb);
  }
}
