/** cpu_fpu_bench.c: a program written for supervisor mode, which ends by STOP
    #$2700, is rewritten so that it runs on into a register dump instead. */
module CpuFpuBench {
  import opened Bytes
  import opened M68k
  import opened Emit
  import opened StateDump

  const BUFFER_LEN: nat := 256

  datatype FpSpec = FpSpec(opA: u32, program: seq<byte>)
  type FpTest = t: FpSpec | |t.program| < 0x1_0000 witness FpSpec(0, [])

  // Addresses of prog_buffer, final_snap and scratch_ram.
  datatype FpLayout = FpLayout(code: u32, finalSnap: u32, scratch: u32)

  predicate LaidOut(L: FpLayout) {
    && L.code + BUFFER_LEN < 0x1_0000_0000 && L.finalSnap + 64 < 0x1_0000_0000
    && Disjoint(L.code, BUFFER_LEN, L.finalSnap, 64)
  }

  // ---- The rewriting ----

  // STOP #$2700 stands at offset i.
  predicate StopAt(p: seq<byte>, i: int) {
    0 <= i && i + 4 <= |p| && p[i] == 0x4E && p[i + 1] == 0x72 && p[i + 2] == 0x27 && p[i + 3] == 0x00
  }

  /** The STOP that is rewritten: one in tail position, or else the first occurrence of its bytes. */
  ghost predicate IsTarget(p: seq<byte>, i: int) {
    && StopAt(p, i)
    && (i + 4 == |p| || (!StopAt(p, |p| - 4) && NoStopBelow(p, i)))
  }

  ghost predicate NoStopBelow(p: seq<byte>, i: int) {
    forall j :: 0 <= j < i ==> !StopAt(p, j)
  }

  ghost predicate NoStop(p: seq<byte>) {
    NoStopBelow(p, |p|)
  }

  function BraOver(p: seq<byte>, i: nat): Instr
    requires i + 4 <= |p|
  {
    Bra((|p| - i - 2) % 0x1_0000)
  }

  /** The bytes embedded for a program whose STOP at offset i is the target. */
  function Rewritten(p: seq<byte>, i: nat): seq<byte>
    requires i + 4 <= |p|
  {
    if i + 4 == |p| then p[..i] else p[..i] + Encode(BraOver(p, i)) + p[i + 4..]
  }

  // `e` is what build_program embeds for the program p.
  ghost predicate Embeds(p: seq<byte>, e: seq<byte>) {
    (NoStop(p) && e == p) || exists i :: IsTarget(p, i) && e == Rewritten(p, i)
  }

  lemma TargetUnique(p: seq<byte>, i: int, j: int)
    requires IsTarget(p, i) && IsTarget(p, j)
    ensures i == j
  {
  }

  lemma BraSize(p: seq<byte>, i: nat)
    requires i + 4 <= |p|
    ensures Size(BraOver(p, i)) == 4
  {
  }

  /** Every byte outside the four of the STOP keeps its offset, and only a tail STOP is cut off. */
  lemma RewrittenKeeps(p: seq<byte>, i: nat)
    requires StopAt(p, i)
    ensures var e := Rewritten(p, i);
            && |e| == (if i + 4 == |p| then |p| - 4 else |p|)
            && forall j :: 0 <= j < |e| && !(i <= j < i + 4) ==> e[j] == p[j]
  {
    BraSize(p, i);
  }

  // ---- The program ----

  function Preamble(L: FpLayout, opA: u32): seq<Instr> {
    ClearD(1) + ClearA(6) + [MoveaImm(6, L.scratch), MoveImmD(0, opA)]
  }

  function RegDump(L: FpLayout): seq<Instr> {
    SavesA(Mod32(L.finalSnap + 0x20)) + SavesD(L.finalSnap)
  }

  function Tail(L: FpLayout): seq<byte> {
    EncodeAll(RegDump(L)) + Encode(Rts)
  }

  function Whole(L: FpLayout, opA: u32, e: seq<byte>): seq<byte> {
    EncodeAll(Preamble(L, opA)) + (e + Tail(L))
  }

  lemma PartSizes(L: FpLayout, opA: u32)
    ensures |EncodeAll(ClearD(1))| == 14 && |EncodeAll(ClearA(6))| == 12
    ensures Size(MoveaImm(6, L.scratch)) == 6 && Size(MoveImmD(0, opA)) == 6 && Size(Rts) == 2
  {
    assert Size(MoveaImm(6, L.scratch)) == 6 && Size(MoveImmD(0, opA)) == 6 && Size(Rts) == 2;
    ClearSizes();
  }

  lemma ClearSizes()
    ensures |EncodeAll(ClearD(1))| == 14 && |EncodeAll(ClearA(6))| == 12
  {
    hide EncodeAll, ClearD, ClearA;
    ClearDSize(1);
    ClearASize(6);
  }

  lemma PreambleCode(L: FpLayout, opA: u32)
    ensures EncodeAll(Preamble(L, opA)) ==
            EncodeAll(ClearD(1)) + EncodeAll(ClearA(6)) + Encode(MoveaImm(6, L.scratch)) + Encode(MoveImmD(0, opA))
    ensures |EncodeAll(Preamble(L, opA))| == 38
  {
    hide Encode, EncodeAll, ClearD, ClearA;
    var d, a, m, c := ClearD(1), ClearA(6), MoveaImm(6, L.scratch), MoveImmD(0, opA);
    PartSizes(L, opA);
    EncodeAllAppend(d, a);
    EncodeOne(m);
    EncodeOne(c);
    EncodeAllAppend([m], [c]);
    EncodeAllAppend(d + a, [m, c]);
    assert [m] + [c] == [m, c];
    assert EncodeAll(d) + EncodeAll(a) + (Encode(m) + Encode(c)) == EncodeAll(d) + EncodeAll(a) + Encode(m) + Encode(c);
  }

  lemma TailCode(L: FpLayout)
    ensures EncodeAll(RegDump(L)) == EncodeAll(SavesA(Mod32(L.finalSnap + 0x20))) + EncodeAll(SavesD(L.finalSnap))
    ensures |EncodeAll(RegDump(L))| == 96 && |Tail(L)| == 98
  {
    hide Encode, EncodeAll, SavesA, SavesD;
    var a, d := SavesA(Mod32(L.finalSnap + 0x20)), SavesD(L.finalSnap);
    EncodeAllAppend(a, d);
    SavesSize(Mod32(L.finalSnap + 0x20), 0);
    SavesSize(L.finalSnap, 0);
    PartSizes(L, 0);
  }

  /** 136 bytes around the embedded program. */
  lemma WholeLength(L: FpLayout, opA: u32, e: seq<byte>)
    ensures |Whole(L, opA, e)| == 136 + |e|
  {
    hide EncodeAll, Preamble, Tail;
    PreambleCode(L, opA);
    TailCode(L);
  }

  // Short enough for the buffer: 120 bytes, or 124 with a STOP at the end, which is cut off.
  predicate FitsBuffer(p: seq<byte>) {
    |p| <= 120 || (|p| <= 124 && StopAt(p, |p| - 4))
  }

  /** What is built for a program stays inside the 256 bytes of the buffer exactly when the program is short
      enough; the source does not check. */
  lemma FitsExactly(L: FpLayout, opA: u32, p: seq<byte>, e: seq<byte>)
    requires Embeds(p, e)
    ensures |Whole(L, opA, e)| <= BUFFER_LEN <==> FitsBuffer(p)
  {
    hide Whole;
    WholeLength(L, opA, e);
    EmbedsLength(p, e);
  }

  lemma EmbedsLength(p: seq<byte>, e: seq<byte>)
    requires Embeds(p, e)
    ensures |e| == if StopAt(p, |p| - 4) then |p| - 4 else |p|
  {
    hide Rewritten;
    if NoStop(p) && e == p {
      assert |p| >= 4 ==> !StopAt(p, |p| - 4);
    } else {
      var i :| IsTarget(p, i) && e == Rewritten(p, i);
      RewrittenKeeps(p, i);
    }
  }

  // ---- build_program ----

  /** Builds preamble, embedded program, dump and RTS; `e` is the embedded program. `buf` is the memory from
      prog_buffer on, of which the first 256 bytes are the buffer's own. */
  method BuildProgram(buf: array<byte>, L: FpLayout, t: FpTest) returns (entry: u32, ghost e: seq<byte>)
    requires buf.Length >= 136 + |t.program|
    modifies buf
    ensures entry == L.code && Embeds(t.program, e)
    ensures Wrote(old(buf[..]), buf[..], 0, Whole(L, t.opA, e))
  {
    hide EncodeAll, Encode, Preamble, Tail, Embeds, Whole, Wrote;
    PreambleCode(L, t.opA);
    entry := L.code;
    ghost var b0 := buf[..];
    var p := EmitPreamble(buf, 0, L, t.opA);
    ghost var b1 := buf[..];
    var n;
    n, e := EmbedProgram(buf, p, t.program);
    EmbedsLength(t.program, e);
    ghost var b2 := buf[..];
    p := EmitTail(buf, p + n, L);
    WholeWritten(L, t.opA, e, |t.program|, b0, b1, b2, buf[..]);
  }

  // The cut STOP is overwritten by the dump, so nothing of it remains.
  lemma WholeWritten(L: FpLayout, opA: u32, e: seq<byte>, n: nat, b0: seq<byte>, b1: seq<byte>, b2: seq<byte>, b3: seq<byte>)
    requires Wrote(b0, b1, 0, EncodeAll(Preamble(L, opA))) && |b2| == |b1| && |e| <= n <= |e| + 4 && 38 + n <= |b2|
    requires b2[..38 + |e|] == b1[..38] + e && b2[38 + n..] == b1[38 + n..]
    requires Wrote(b2, b3, 38 + |e|, Tail(L))
    ensures Wrote(b0, b3, 0, Whole(L, opA, e))
  {
    hide EncodeAll, Encode, Preamble, Tail;
    PreambleCode(L, opA);
    TailCode(L);
    WholeLength(L, opA, e);
    var k := 136 + |e|;
    assert b1[..38] == EncodeAll(Preamble(L, opA));
    assert b3[..k] == b2[..38 + |e|] + Tail(L);
    assert b3[k..] == b2[38 + n..][98 + |e| - n..] == b1[38 + n..][98 + |e| - n..] == b1[k..] == b0[k..];
    assert b3 == b3[..k] + b3[k..];
  }

  method EmitPreamble(buf: array<byte>, p: nat, L: FpLayout, opA: u32) returns (q: nat)
    requires p + 38 <= buf.Length
    modifies buf
    ensures q == p + 38 && Wrote(old(buf[..]), buf[..], p, EncodeAll(Preamble(L, opA)))
  {
    hide Wrote, EncodeAll, Encode, ClearD, ClearA, Preamble;
    PreambleCode(L, opA);
    PartSizes(L, opA);
    ghost var d, a := EncodeAll(ClearD(1)), EncodeAll(ClearA(6));
    ghost var b0 := buf[..];
    q := EmitClearD(buf, p, 1);
    ghost var b1 := buf[..];
    q := EmitClearA(buf, q, 6);
    ghost var b2 := buf[..];
    WroteThen(b0, b1, b2, p, d, a);
    q := EmitMoveaLImmToAn(buf, q, 6, L.scratch);
    ghost var b3 := buf[..];
    WroteThen(b0, b2, b3, p, d + a, Encode(MoveaImm(6, L.scratch)));
    q := EmitMoveLImmToDn(buf, q, 0, opA);
    WroteThen(b0, b3, buf[..], p, d + a + Encode(MoveaImm(6, L.scratch)), Encode(MoveImmD(0, opA)));
  }

  method EmitTail(buf: array<byte>, p: nat, L: FpLayout) returns (q: nat)
    requires p + 98 <= buf.Length
    modifies buf
    ensures q == p + 98 && Wrote(old(buf[..]), buf[..], p, Tail(L))
  {
    hide Wrote, EncodeAll, Encode, SavesA, SavesD;
    ghost var b0 := buf[..];
    ghost var a, d := EncodeAll(SavesA(Mod32(L.finalSnap + 0x20))), EncodeAll(SavesD(L.finalSnap));
    TailCode(L);
    SavesSize(Mod32(L.finalSnap + 0x20), 0);
    SavesSize(L.finalSnap, 0);
    q := EmitSavesA(buf, p, Mod32(L.finalSnap + 0x20));
    ghost var b1 := buf[..];
    q := EmitSavesD(buf, q, L.finalSnap);
    ghost var b2 := buf[..];
    WroteThen(b0, b1, b2, p, a, d);
    q := EmitRts(buf, q);
    WroteThen(b0, b2, buf[..], p, a + d, Encode(Rts));
  }

  /** Copies the program to offset p and rewrites its STOP; n is the length that stays in use. */
  method EmbedProgram(buf: array<byte>, p: nat, program: seq<byte>) returns (n: nat, ghost e: seq<byte>)
    requires p + |program| <= buf.Length && |program| < 0x1_0000
    modifies buf
    ensures n == |e| <= |program| && Embeds(program, e)
    ensures buf[..p + n] == old(buf[..p]) + e && buf[p + |program|..] == old(buf[p + |program|..])
  {
    hide Encode, Rewritten, Embeds;
    n := |program|;
    var q := PutBytes(buf, p, program);
    ghost var pre := old(buf[..p]);
    assert buf[..p + n] == pre + program;
    assert buf[p..p + n] == program;
    if n >= 4 && StopAt(buf[p..p + n], n - 4) {
      n := n - 4;
      e := program[..n];
      TailCut(program, n);
      assert buf[..p + n] == pre + e;
    } else {
      var i := FindStop(buf, p, n);
      if i + 4 <= n {
        e := Rewritten(program, i);
        PatchBra(buf, p, i, n, program);
        EmbedsTarget(program, i);
      } else {
        e := program;
        EmbedsNone(program, i);
      }
    }
  }

  lemma TailCut(program: seq<byte>, n: nat)
    requires StopAt(program, n) && n + 4 == |program|
    ensures Embeds(program, program[..n])
  {
    assert IsTarget(program, n) && program[..n] == Rewritten(program, n);
  }

  lemma EmbedsTarget(program: seq<byte>, i: nat)
    requires StopAt(program, i) && !StopAt(program, |program| - 4) && NoStopBelow(program, i)
    ensures Embeds(program, Rewritten(program, i))
  {
    assert IsTarget(program, i);
  }

  lemma EmbedsNone(program: seq<byte>, i: nat)
    requires NoStopBelow(program, i) && i + 4 > |program|
    ensures Embeds(program, program)
  {
  }

  /** The first STOP in the n bytes from p, or an offset too close to their end to hold one. */
  method FindStop(buf: array<byte>, p: nat, n: nat) returns (i: nat)
    requires p + n <= buf.Length
    ensures i + 4 <= n ==> StopAt(buf[p..p + n], i)
    ensures NoStopBelow(buf[p..p + n], i)
  {
    i := 0;
    while i + 4 <= n && !(buf[p + i] == 0x4E && buf[p + i + 1] == 0x72 && buf[p + i + 2] == 0x27 && buf[p + i + 3] == 0x00)
      invariant NoStopBelow(buf[p..p + n], i)
    {
      i := i + 1;
    }
  }

  /** Replaces the STOP at offset i of the embedded program by a BRA.W to its end. */
  method PatchBra(buf: array<byte>, p: nat, i: nat, n: nat, ghost program: seq<byte>)
    requires |program| == n && p + |program| <= buf.Length && i + 4 < |program|
    requires buf[p..p + |program|] == program
    modifies buf
    ensures buf[..p + |program|] == old(buf[..p]) + Rewritten(program, i)
    ensures buf[p + |program|..] == old(buf[p + |program|..])
  {
    hide Encode, Rewritten;
    ghost var was := buf[..];
    var disp: u16 := (n - i - 2) % 0x1_0000;
    buf[p + i], buf[p + i + 1], buf[p + i + 2], buf[p + i + 3] := 0x60, 0x00, disp / 0x100, disp % 0x100;
    PatchedSeq(was, buf[..], p, i, program);
  }

  lemma PatchedSeq(was: seq<byte>, now: seq<byte>, p: nat, i: nat, program: seq<byte>)
    requires |now| == |was| && p + |program| <= |was| && i + 4 < |program| && was[p..p + |program|] == program
    requires var disp := (|program| - i - 2) % 0x1_0000;
             now == was[p + i := 0x60][p + i + 1 := 0x00][p + i + 2 := disp / 0x100][p + i + 3 := disp % 0x100]
    ensures now[..p + |program|] == was[..p] + Rewritten(program, i)
  {
    hide Encode, Rewritten;
    PatchedIs(program, i);
    var e := Rewritten(program, i);
    forall k | 0 <= k < |program|
      ensures now[p + k] == e[k]
    {
      assert was[p + k] == was[p..p + |program|][k];
    }
  }

  lemma PatchedIs(p: seq<byte>, i: nat)
    requires i + 4 < |p|
    ensures var disp := (|p| - i - 2) % 0x1_0000;
            Rewritten(p, i) == p[..i] + [0x60, 0x00, disp / 0x100, disp % 0x100] + p[i + 4..]
  {
  }
}
