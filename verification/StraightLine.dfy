/** cpu_fpu_bench.c on straight-line programs: D-register work and scratch accesses up to a STOP, with or
    without data behind it. For these what StopRewrite asks of a run holds for every input. */
module StraightLine {
  import opened Bytes
  import opened M68k
  import opened Machine
  import opened StateDump
  import opened CpuHarness
  import opened Footprint
  import opened CpuFpuBench
  import opened StopRewrite
  import opened LayoutIndependence
  import opened StopBytes

  // The scratch RAM lies outside the program buffer and inside the address space.
  predicate ScratchApart(L: FpLayout) {
    L.scratch + SCRATCH_LEN < 0x1_0000_0000 && Disjoint(L.scratch, SCRATCH_LEN, L.code, BUFFER_LEN)
  }

  // The scratch RAM as the lemmas on portable instructions see it.
  function Where(L: FpLayout): Layout {
    Layout(0, 0, 0, L.scratch, 0)
  }

  // Every address of C lies in the program buffer at or behind lo.
  ghost predicate Behind(L: FpLayout, C: iset<int>, lo: int) {
    forall x :: x in C ==> lo <= x < L.code + BUFFER_LEN
  }

  // The state is at the first instruction of ps, which ends at or before lo.
  predicate Poised(L: FpLayout, ps: seq<Instr>, s: State, lo: int) {
    && LaidOut(L) && ScratchApart(L) && AllPortable(ps) && s.regs.a[6] == L.scratch
    && CodeAt(s.mem, s.regs.pc, EncodeAll(ps))
    && L.code <= s.regs.pc && s.regs.pc + |EncodeAll(ps)| <= lo <= L.code + BUFFER_LEN
  }

  // What a portable instruction reads and writes as data lies in the scratch RAM.
  lemma DataInScratch(i: Instr, L: FpLayout, s: State, x: int)
    requires Portable(i) && ScratchApart(L) && s.regs.a[6] == L.scratch
    ensures ReadAddr(i, s.regs).Some? && ReadAddr(i, s.regs).value <= x < ReadAddr(i, s.regs).value + 4
            ==> L.scratch <= x < L.scratch + SCRATCH_LEN
    ensures WriteAddr(i, s.regs) <= x < WriteAddr(i, s.regs) + |WriteData(i, s.regs, Loaded(i, s))|
            ==> L.scratch <= x < L.scratch + SCRATCH_LEN
  {
    hide Loaded;
    if i.LoadA6? || i.StoreA6? { InWindowAddr(Where(L), s, i.d16); }
  }

  lemma AvoidsOne(env: Env, i: Instr, L: FpLayout, s: State, C: iset<int>)
    requires Portable(i) && ScratchApart(L) && s.regs.a[6] == L.scratch
    requires CodeAt(s.mem, s.regs.pc, Encode(i)) && Behind(L, C, s.regs.pc + Size(i)) && L.code <= s.regs.pc
    ensures Avoids(env, s, C)
  {
    hide Portable, ReadAddr, WriteAddr, WriteData, Loaded, Decode, CodeAt;
    DecodesAt(s, i);
    forall x | x in C
      ensures !Touches(env, s, x)
    {
      DataInScratch(i, L, s, x);
    }
  }

  lemma PoisedNext(env: Env, L: FpLayout, ps: seq<Instr>, s: State, lo: int)
    requires Poised(L, ps, s, lo) && ps != []
    ensures var u := Exec(env, ps[0], s);
            && CodeAt(s.mem, s.regs.pc, Encode(ps[0])) && s.regs.pc + Size(ps[0]) <= lo
            && Step(env, s) == u && u.regs.pc == s.regs.pc + Size(ps[0]) && Poised(L, ps[1..], u, lo)
  {
    hide Exec, Portable, Byte, Linear, Step, Encode;
    var i := ps[0];
    var u := Exec(env, i, s);
    assert i in ps;
    CodeAtSplit(s.mem, s.regs.pc, Encode(i), EncodeAll(ps[1..]));
    StepExecutes(env, s, i);
    PortableMem(env, i, Where(L), s);
    PortableHigh(env, i, s);
    LinearPc(env, i, s);
    CodeKept(s.mem, u.mem, s.regs.pc + Size(i), EncodeAll(ps[1..]));
  }

  /** Straight-line code runs as the list it encodes and touches nothing behind it. */
  lemma {:induction false} StraightRuns(env: Env, L: FpLayout, ps: seq<Instr>, s: State, lo: int, C: iset<int>)
    requires Poised(L, ps, s, lo) && Behind(L, C, lo)
    ensures RunAvoids(env, s, |ps|, C) && Run(env, s, |ps|) == ExecSeq(env, ps, s)
    ensures Run(env, s, |ps|).regs.pc == s.regs.pc + |EncodeAll(ps)|
    decreases |ps|
  {
    hide Exec, Step, Avoids, CodeAt, Portable, LaidOut;
    if ps != [] {
      PoisedNext(env, L, ps, s, lo);
      assert ps[0] in ps;
      AvoidsOne(env, ps[0], L, s, C);
      StraightRuns(env, L, ps[1..], Step(env, s), lo, C);
    }
  }

  // A straight-line program: its code, a STOP, and data behind that.
  function Lines(ps: seq<Instr>, data: seq<byte>): seq<byte> {
    EncodeAll(ps) + Encode(Stop(0x2700)) + data
  }

  /** For every straight-line program whose STOP is the one rewritten, started with its scratch base in A6,
      the built program dumps exactly the D and A registers its instructions make of the ones it started with. */
  lemma StraightLineDumps(env: Env, L: FpLayout, ps: seq<Instr>, data: seq<byte>, r: State, mb: Mem)
    requires AllPortable(ps) && ScratchApart(L) && r.regs.a[6] == L.scratch
    requires Setting(env, L, Lines(ps, data), |EncodeAll(ps)|, r, mb)
    ensures var t := ExecSeq(env, ps, r);
            var u := Run(env, State(r.regs, mb), |ps| + Hops(Lines(ps, data), |EncodeAll(ps)|) + 16);
            && Longs(u.mem, L.finalSnap) == t.regs.d && Longs(u.mem, L.finalSnap + 0x20) == t.regs.a
            && CodeAt(u.mem, u.regs.pc, Encode(Rts))
  {
    hide Run, RunAvoids, CodeAt, Encode, EncodeAll, ExecSeq, Longs, Local, Tail, Rewritten, IsTarget, StopAt;
    var p, i, k := Lines(ps, data), |EncodeAll(ps)|, |ps|;
    CodeAtSplit(r.mem, r.regs.pc, EncodeAll(ps) + Encode(Stop(0x2700)), data);
    CodeAtSplit(r.mem, r.regs.pc, EncodeAll(ps), Encode(Stop(0x2700)));
    StraightRuns(env, L, ps, r, r.regs.pc + i, Changed(L, p, i));
    StopRewriting(env, L, p, i, r, mb, k);
  }

  /** With nothing behind the STOP it is the one rewritten, whatever the code before it looks like. */
  lemma TailStopIsTarget(ps: seq<Instr>)
    ensures IsTarget(Lines(ps, []), |EncodeAll(ps)|)
  {
    hide EncodeAll;
    StopEncoded();
  }

  // ---- Exactly which straight-line programs are dumped ----

  /** Straight-line code halts at the STOP behind it: no number of steps leads further. */
  lemma HaltsAtStop(env: Env, L: FpLayout, ps: seq<Instr>, s: State, dump: int, n: nat)
    requires Poised(L, ps, s, s.regs.pc + |EncodeAll(ps)|)
    requires CodeAt(s.mem, s.regs.pc + |EncodeAll(ps)|, Encode(Stop(0x2700)))
    requires s.regs.pc + |EncodeAll(ps)| + 4 <= dump < L.code + BUFFER_LEN
    ensures Run(env, s, n).regs.pc != dump
  {
    hide Run, RunAvoids, CodeAt, Encode, EncodeAll, ExecSeq, Byte, Portable, AllPortable, Avoids, LaidOut, Linear, SparesAll;
    var lo := s.regs.pc + |EncodeAll(ps)|;
    var C := Region(lo, L.code + BUFFER_LEN);
    StraightRuns(env, L, ps, s, lo, C);
    if n < |ps| {
      RunAvoidsPrefix(env, s, |ps|, n, C);
      AvoidsPc(env, Run(env, s, n), C);
    } else {
      var v := Run(env, s, |ps|);
      StopEncoded();
      PortableConfined(env, ps, Where(L), s, L.code, L.code + BUFFER_LEN);
      CodeKept(s.mem, v.mem, lo, Encode(Stop(0x2700)));
      RunStopped(env, v, n - |ps|);
      RunAdd(env, s, |ps|, n - |ps|);
    }
  }

  ghost function Region(lo: int, hi: int): iset<int> {
    iset x | InRegion(lo, hi, x)
  }

  predicate InRegion(lo: int, hi: int, x: int) {
    lo <= x < hi
  }

  lemma StopInLines(ps: seq<Instr>, data: seq<byte>)
    ensures StopAt(Lines(ps, data), |EncodeAll(ps)|)
  {
    hide EncodeAll, Encode;
    StopEncoded();
  }

  /** If not the STOP the code ends with is rewritten, what is built is straight-line code of the same length
      again, with that STOP still behind it: an immediate has been exchanged, or data behind the STOP cut. */
  lemma OtherRewritten(ps: seq<Instr>, data: seq<byte>, i: nat) returns (qs: seq<Instr>, rest: seq<byte>)
    requires AllPortable(ps) && IsTarget(Lines(ps, data), i) && i != |EncodeAll(ps)|
    ensures AllPortable(qs) && |EncodeAll(qs)| == |EncodeAll(ps)| && Rewritten(Lines(ps, data), i) == Lines(qs, rest)
  {
    hide EncodeAll, Encode, Portable, Rewritten, LoadsStop;
    var p, stop := Lines(ps, data), |EncodeAll(ps)|;
    StopInLines(ps, data);
    StopEncoded();
    if i > stop {
      qs, rest := ps, data[..i - stop - 4];
      TailRewritten(p, i);
      StopsApart(p, stop, i);
    } else {
      StopsApart(p, i, stop);
      rest := data;
      qs := ImmediateRewritten(ps, data, i);
    }
  }

  lemma TailRewritten(p: seq<byte>, i: nat)
    requires i + 4 == |p|
    ensures Rewritten(p, i) == p[..i]
  {
  }

  lemma ImmediateRewritten(ps: seq<Instr>, data: seq<byte>, i: nat) returns (qs: seq<Instr>)
    requires AllPortable(ps) && StopAt(Lines(ps, data), i) && i + 4 <= |EncodeAll(ps)|
    ensures AllPortable(qs) && |EncodeAll(qs)| == |EncodeAll(ps)| && Rewritten(Lines(ps, data), i) == Lines(qs, data)
  {
    hide EncodeAll, Encode, Portable, Rewritten, LongBytes, WithLong;
    var p, b := Lines(ps, data), EncodeAll(ps);
    var disp: u16 := (|p| - i - 2) % 0x1_0000;
    var v := JoinLong(0x60, 0x00, disp / 0x100, disp % 0x100);
    var k := StopInside(ps, i);
    qs := ps[k := WithLong(ps[k], v)];
    assert ps[k] in ps;
    WithLongCode(ps[k], v);
    ExchangeLong(ps, k, v);
    LongJoins(0x60, 0x00, disp / 0x100, disp % 0x100);
    StopEncoded();
    PatchedIs(p, i);
    assert p[..i] == b[..i] && p[i + 4..] == b[i + 4..] + Encode(Stop(0x2700)) + data;
  }

  lemma NotDumped(env: Env, L: FpLayout, ps: seq<Instr>, data: seq<byte>, i: nat, r: State, mb: Mem, n: nat)
    requires AllPortable(ps) && ScratchApart(L) && r.regs.a[6] == L.scratch && i != |EncodeAll(ps)|
    requires Setting(env, L, Lines(ps, data), i, r, mb)
    ensures Run(env, State(r.regs, mb), n).regs.pc != DumpAt(L, Lines(ps, data), i)
  {
    hide Run, CodeAt, EncodeAll, Encode, Portable, AllPortable, Rewritten, Local, Tail, Byte;
    var p := Lines(ps, data);
    var qs, rest := OtherRewritten(ps, data, i);
    var q, stop := L.code + 38, Encode(Stop(0x2700));
    StopEncoded();
    RewrittenKeeps(p, i);
    CodeAtSplit(mb, q, Rewritten(p, i), Tail(L));
    CodeAtSplit(mb, q, EncodeAll(qs) + stop, rest);
    CodeAtSplit(mb, q, EncodeAll(qs), stop);
    HaltsAtStop(env, L, qs, State(r.regs, mb), DumpAt(L, p, i), n);
  }

  /** The STOP the code ends with is the one rewritten exactly when nothing follows it, or neither do the
      bytes end in another one nor does any instruction load the STOP's bytes as an immediate. */
  lemma TargetIsStop(ps: seq<Instr>, data: seq<byte>, i: nat)
    requires AllPortable(ps) && IsTarget(Lines(ps, data), i)
    ensures i == |EncodeAll(ps)| <==> Plain(ps, data)
  {
    hide EncodeAll, Encode, Portable, LoadsStop;
    var p, stop := Lines(ps, data), |EncodeAll(ps)|;
    StopInLines(ps, data);
    StopEncoded();
    if i < stop {
      StopsApart(p, i, stop);
      var k := StopInside(ps, i);
    } else if i == stop {
      forall k | 0 <= k < |ps|
        ensures data == [] || !LoadsStop(ps[k])
      {
        if LoadsStop(ps[k]) { LoadHoldsStop(ps, data, k); }
      }
    }
  }

  predicate Plain(ps: seq<Instr>, data: seq<byte>) {
    data == [] || (!StopAt(data, |data| - 4) && forall k :: 0 <= k < |ps| ==> !LoadsStop(ps[k]))
  }

  lemma LoadHoldsStop(ps: seq<Instr>, data: seq<byte>, k: nat)
    requires k < |ps| && LoadsStop(ps[k])
    ensures exists j :: 0 <= j < |EncodeAll(ps)| && StopAt(Lines(ps, data), j)
  {
    hide EncodeAll, Encode, WithLong;
    var j := |EncodeAll(ps[..k])| + 2;
    ExchangeLong(ps, k, STOP_LONG);
    assert LongBytes(STOP_LONG) == [0x4E, 0x72, 0x27, 0x00];
    StopInFront(EncodeAll(ps), Encode(Stop(0x2700)), data, j);
    assert StopAt(Lines(ps, data), j);
  }

  lemma StopInFront(code: seq<byte>, stop: seq<byte>, data: seq<byte>, j: nat)
    requires j + 4 <= |code| && code[j..j + 4] == [0x4E, 0x72, 0x27, 0x00]
    ensures StopAt(code + stop + data, j)
  {
    var c := code[j..j + 4];
    assert c[0] == code[j] && c[1] == code[j + 1] && c[2] == code[j + 2] && c[3] == code[j + 3];
  }

  /** Exactly which straight-line programs survive the rewriting. The built program reaches its dump if and
      only if the STOP the code ends with is the one rewritten, which can be told from the program: nothing
      follows that STOP, or the data behind it does not end in another one and no instruction loads $4E722700. */
  lemma StraightLineExact(env: Env, L: FpLayout, ps: seq<Instr>, data: seq<byte>, i: nat, r: State, mb: Mem)
    requires AllPortable(ps) && ScratchApart(L) && r.regs.a[6] == L.scratch
    requires Setting(env, L, Lines(ps, data), i, r, mb)
    ensures (exists n :: Run(env, State(r.regs, mb), n).regs.pc == DumpAt(L, Lines(ps, data), i)) <==> Plain(ps, data)
    ensures i == |EncodeAll(ps)| <==> Plain(ps, data)
  {
    hide Run, RunAvoids, CodeAt, Encode, EncodeAll, Tail, Rewritten, Local, Byte, Plain, AllPortable, ScratchApart;
    var p, b := Lines(ps, data), State(r.regs, mb);
    TargetIsStop(ps, data, i);
    if i == |EncodeAll(ps)| {
      ReachesDump(env, L, ps, data, r, mb);
    } else {
      forall n: nat
        ensures Run(env, b, n).regs.pc != DumpAt(L, p, i)
      {
        NotDumped(env, L, ps, data, i, r, mb, n);
      }
    }
  }

  lemma ReachesDump(env: Env, L: FpLayout, ps: seq<Instr>, data: seq<byte>, r: State, mb: Mem)
    requires AllPortable(ps) && ScratchApart(L) && r.regs.a[6] == L.scratch
    requires Setting(env, L, Lines(ps, data), |EncodeAll(ps)|, r, mb)
    ensures exists n :: Run(env, State(r.regs, mb), n).regs.pc == DumpAt(L, Lines(ps, data), |EncodeAll(ps)|)
  {
    hide Run, RunAvoids, CodeAt, Encode, EncodeAll, ExecSeq, Local, Tail, Rewritten, IsTarget, StopAt, Byte;
    var p, i, k := Lines(ps, data), |EncodeAll(ps)|, |ps|;
    CodeAtSplit(r.mem, r.regs.pc, EncodeAll(ps) + Encode(Stop(0x2700)), data);
    CodeAtSplit(r.mem, r.regs.pc, EncodeAll(ps), Encode(Stop(0x2700)));
    StraightRuns(env, L, ps, r, r.regs.pc + i, Changed(L, p, i));
    ReachesTarget(env, L, p, i, r, mb, k);
    HopsToDump(env, L, p, i, mb, Run(env, State(r.regs, mb), k));
    RunAdd(env, State(r.regs, mb), k, Hops(p, i));
  }
}
