/** The machine-code emitters shared by the benches: each writes into the program
    buffer at offset `p` and returns the offset after what it wrote. */
module Emit {
  import opened Bytes
  import opened M68k

  /** `now` is `was` with `bs` written at offset p. */
  predicate Wrote(was: seq<byte>, now: seq<byte>, p: nat, bs: seq<byte>) {
    p + |bs| <= |was| && now == was[..p] + bs + was[p + |bs|..]
  }

  lemma WroteThen(a: seq<byte>, b: seq<byte>, c: seq<byte>, p: nat, x: seq<byte>, y: seq<byte>)
    requires Wrote(a, b, p, x) && Wrote(b, c, p + |x|, y)
    ensures Wrote(a, c, p, x + y)
  {
    assert b[..p + |x|] == a[..p] + x;
    assert b[p + |x| + |y|..] == a[p + |x| + |y|..];
  }

  method PutW(buf: array<byte>, p: nat, v: u16) returns (q: nat)
    requires p + 2 <= buf.Length
    modifies buf
    ensures q == p + 2 && Wrote(old(buf[..]), buf[..], p, WordBytes(v))
  {
    buf[p], buf[p + 1] := v / 0x100, v % 0x100;
    q := p + 2;
  }

  method PutL(buf: array<byte>, p: nat, v: u32) returns (q: nat)
    requires p + 4 <= buf.Length
    modifies buf
    ensures q == p + 4 && Wrote(old(buf[..]), buf[..], p, LongBytes(v))
  {
    buf[p], buf[p + 1] := v / 0x100_0000, v / 0x1_0000 % 0x100;
    buf[p + 2], buf[p + 3] := v / 0x100 % 0x100, v % 0x100;
    q := p + 4;
  }

  /** memcpy of a test's bytes. */
  method PutBytes(buf: array<byte>, p: nat, bs: seq<byte>) returns (q: nat)
    requires p + |bs| <= buf.Length
    modifies buf
    ensures q == p + |bs| && Wrote(old(buf[..]), buf[..], p, bs)
  {
    forall k | 0 <= k < |bs| {
      buf[p + k] := bs[k];
    }
    q := p + |bs|;
  }

  /** An operation word followed by one longword. */
  method PutWL(buf: array<byte>, p: nat, w: u16, l: u32) returns (q: nat)
    requires p + 6 <= buf.Length
    modifies buf
    ensures q == p + 6 && Wrote(old(buf[..]), buf[..], p, WordBytes(w) + LongBytes(l))
  {
    q := PutW(buf, p, w);
    ghost var mid := buf[..];
    q := PutL(buf, q, l);
    WroteThen(old(buf[..]), mid, buf[..], p, WordBytes(w), LongBytes(l));
  }

  method EmitMoveqZero(buf: array<byte>, p: nat, n: Reg) returns (q: nat)
    requires p + 2 <= buf.Length
    modifies buf
    ensures q == p + 2 == p + Size(Moveq(n, 0)) && Wrote(old(buf[..]), buf[..], p, Encode(Moveq(n, 0)))
  {
    q := PutW(buf, p, 0x7000 + n * 0x200);
  }

  method EmitSubaSelf(buf: array<byte>, p: nat, n: Reg) returns (q: nat)
    requires p + 2 <= buf.Length
    modifies buf
    ensures q == p + 2 == p + Size(Suba(n, n)) && Wrote(old(buf[..]), buf[..], p, Encode(Suba(n, n)))
  {
    q := PutW(buf, p, 0x91C8 + n * 0x200 + n);
  }

  method EmitMoveLDnToAbs(buf: array<byte>, p: nat, n: Reg, addr: u32) returns (q: nat)
    requires p + 6 <= buf.Length
    modifies buf
    ensures q == p + 6 == p + Size(Store(D(n), addr)) && Wrote(old(buf[..]), buf[..], p, Encode(Store(D(n), addr)))
  {
    q := PutWL(buf, p, 0x23C0 + n, addr);
  }

  method EmitMoveLAnToAbs(buf: array<byte>, p: nat, n: Reg, addr: u32) returns (q: nat)
    requires p + 6 <= buf.Length
    modifies buf
    ensures q == p + 6 == p + Size(Store(A(n), addr)) && Wrote(old(buf[..]), buf[..], p, Encode(Store(A(n), addr)))
  {
    q := PutWL(buf, p, 0x23C8 + n, addr);
  }

  method EmitMoveLAbsToAbs(buf: array<byte>, p: nat, src: u32, addr: u32) returns (q: nat)
    requires p + 10 <= buf.Length
    modifies buf
    ensures q == p + 10 == p + Size(Store(Abs(src), addr)) && Wrote(old(buf[..]), buf[..], p, Encode(Store(Abs(src), addr)))
  {
    q := PutWL(buf, p, 0x23F9, src);
    ghost var mid := buf[..];
    q := PutL(buf, q, addr);
    WroteThen(old(buf[..]), mid, buf[..], p, WordBytes(0x23F9) + LongBytes(src), LongBytes(addr));
    assert WordBytes(0x23F9) + LongBytes(src) + LongBytes(addr) == Encode(Store(Abs(src), addr));
  }

  method EmitMoveaLImmToAn(buf: array<byte>, p: nat, n: Reg, imm: u32) returns (q: nat)
    requires p + 6 <= buf.Length
    modifies buf
    ensures q == p + 6 == p + Size(MoveaImm(n, imm)) && Wrote(old(buf[..]), buf[..], p, Encode(MoveaImm(n, imm)))
  {
    q := PutWL(buf, p, 0x207C + n * 0x200, imm);
  }

  method EmitMoveLImmToDn(buf: array<byte>, p: nat, n: Reg, imm: u32) returns (q: nat)
    requires p + 6 <= buf.Length
    modifies buf
    ensures q == p + 6 == p + Size(MoveImmD(n, imm)) && Wrote(old(buf[..]), buf[..], p, Encode(MoveImmD(n, imm)))
  {
    q := PutWL(buf, p, 0x203C + n * 0x200, imm);
  }

  method EmitMoveCcrToAbs(buf: array<byte>, p: nat, addr: u32) returns (q: nat)
    requires p + 6 <= buf.Length
    modifies buf
    ensures q == p + 6 == p + Size(MoveCcrAbs(addr)) && Wrote(old(buf[..]), buf[..], p, Encode(MoveCcrAbs(addr)))
  {
    q := PutWL(buf, p, 0x42F9, addr);
  }

  method EmitMoveaLAbsToA7(buf: array<byte>, p: nat, addr: u32) returns (q: nat)
    requires p + 6 <= buf.Length
    modifies buf
    ensures q == p + 6 == p + Size(LoadA(7, addr)) && Wrote(old(buf[..]), buf[..], p, Encode(LoadA(7, addr)))
  {
    q := PutWL(buf, p, 0x2E79, addr);
  }

  method EmitMoveWImmToCcr(buf: array<byte>, p: nat, imm: u16) returns (q: nat)
    requires p + 4 <= buf.Length
    modifies buf
    ensures q == p + 4 == p + Size(MoveImmCcr(imm % 0x100)) && Wrote(old(buf[..]), buf[..], p, Encode(MoveImmCcr(imm % 0x100)))
  {
    q := PutW(buf, p, 0x44FC);
    ghost var mid := buf[..];
    q := PutW(buf, q, imm % 0x100);
    WroteThen(old(buf[..]), mid, buf[..], p, WordBytes(0x44FC), WordBytes(imm % 0x100));
  }

  /** FMOVE.X FPn,(An)+ */
  method EmitFmoveXToAnPostinc(buf: array<byte>, p: nat, fp: Reg, n: Reg) returns (q: nat)
    requires p + 4 <= buf.Length
    modifies buf
    ensures q == p + 4 == p + Size(FmoveX(fp, n)) && Wrote(old(buf[..]), buf[..], p, Encode(FmoveX(fp, n)))
  {
    q := PutW(buf, p, 0xF218 + n);
    ghost var mid := buf[..];
    q := PutW(buf, q, 0x6800 + fp * 0x80);
    WroteThen(old(buf[..]), mid, buf[..], p, WordBytes(0xF218 + n), WordBytes(0x6800 + fp * 0x80));
  }

  /** FMOVE.L FPcr,addr */
  method EmitFmoveLCtrlToAbs(buf: array<byte>, p: nat, c: CtrlReg, addr: u32) returns (q: nat)
    requires p + 8 <= buf.Length
    modifies buf
    ensures q == p + 8 == p + Size(FmoveCtrl(c, addr)) && Wrote(old(buf[..]), buf[..], p, Encode(FmoveCtrl(c, addr)))
  {
    hide Wrote, WordBytes, LongBytes, Encode;
    var mask := match c case FPCR => 0x1000 case FPSR => 0x0800 case FPIAR => 0x0400;
    CtrlEncoding(c, addr);
    q := PutW(buf, p, 0xF239);
    ghost var mid := buf[..];
    q := PutWL(buf, q, 0xA000 + mask, addr);
    WroteThen(old(buf[..]), mid, buf[..], p, WordBytes(0xF239), WordBytes(CtrlExt(c)) + LongBytes(addr));
  }

  lemma CtrlEncoding(c: CtrlReg, addr: u32)
    ensures Encode(FmoveCtrl(c, addr)) == WordBytes(0xF239) + (WordBytes(CtrlExt(c)) + LongBytes(addr))
    ensures Size(FmoveCtrl(c, addr)) == 8 && |WordBytes(0xF239)| == 2
  {
  }

  method EmitSubqA7(buf: array<byte>, p: nat) returns (q: nat)
    requires p + 2 <= buf.Length
    modifies buf
    ensures q == p + 2 == p + Size(SubqA7) && Wrote(old(buf[..]), buf[..], p, Encode(SubqA7))
  {
    q := PutW(buf, p, 0x598F);
  }

  method EmitRts(buf: array<byte>, p: nat) returns (q: nat)
    requires p + 2 <= buf.Length
    modifies buf
    ensures q == p + 2 == p + Size(Rts) && Wrote(old(buf[..]), buf[..], p, Encode(Rts))
  {
    buf[p], buf[p + 1] := 0x4E, 0x75;
    q := p + 2;
  }

  /** MOVEQ #0 into D`first`..D7. */
  method EmitClearD(buf: array<byte>, p: nat, first: Reg) returns (q: nat)
    requires p + 2 * (8 - first) <= buf.Length
    modifies buf
    ensures q == p + 2 * (8 - first) && Wrote(old(buf[..]), buf[..], p, EncodeAll(ClearD(first)))
  {
    hide Wrote, EncodeAll, Encode;
    ghost var prog := ClearD(first);
    q := p;
    WroteNone(buf[..], p, prog);
    for n := first to 8
      invariant q == p + 2 * (n - first)
      invariant Wrote(old(buf[..]), buf[..], p, EncodeAll(prog[..n - first]))
      invariant |EncodeAll(prog[..n - first])| == q - p
    {
      ghost var was := buf[..];
      q := EmitMoveqZero(buf, q, n);
      WroteNext(old(buf[..]), was, buf[..], p, prog, n - first);
    }
    assert prog[..8 - first] == prog;
  }

  /** SUBA.L An,An for A0..A`count-1`. */
  method EmitClearA(buf: array<byte>, p: nat, count: nat) returns (q: nat)
    requires count <= 8 && p + 2 * count <= buf.Length
    modifies buf
    ensures q == p + 2 * count && Wrote(old(buf[..]), buf[..], p, EncodeAll(ClearA(count)))
  {
    hide Wrote, EncodeAll, Encode;
    ghost var prog := ClearA(count);
    q := p;
    WroteNone(buf[..], p, prog);
    for n := 0 to count
      invariant q == p + 2 * n
      invariant Wrote(old(buf[..]), buf[..], p, EncodeAll(prog[..n]))
      invariant |EncodeAll(prog[..n])| == q - p
    {
      ghost var was := buf[..];
      q := EmitSubaSelf(buf, q, n);
      WroteNext(old(buf[..]), was, buf[..], p, prog, n);
    }
    assert prog[..count] == prog;
  }

  function ClearD(first: Reg): seq<Instr> {
    seq(8 - first, k requires 0 <= k < 8 - first => Moveq(first + k, 0))
  }

  function ClearA(count: nat): seq<Instr>
    requires count <= 8
  {
    seq(count, n requires 0 <= n < count => Suba(n, n))
  }

  lemma ClearDSize(first: Reg)
    ensures |EncodeAll(ClearD(first))| == 2 * (8 - first)
  {
    hide EncodeAll;
    var p := ClearD(first);
    forall i | i in p ensures Size(i) == 2 {}
    UniformSize(p, 2);
  }

  lemma ClearASize(count: nat)
    requires count <= 8
    ensures |EncodeAll(ClearA(count))| == 2 * count
  {
    hide EncodeAll;
    var p := ClearA(count);
    forall i | i in p ensures Size(i) == 2 {}
    UniformSize(p, 2);
  }

  lemma WroteNone(a: seq<byte>, p: nat, prog: seq<Instr>)
    requires p <= |a|
    ensures EncodeAll(prog[..0]) == [] && Wrote(a, a, p, EncodeAll(prog[..0]))
  {
    assert prog[..0] == [];
    assert a == a[..p] + [] + a[p..];
  }

  /** One more instruction of a list has been written. */
  lemma WroteNext(a: seq<byte>, b: seq<byte>, c: seq<byte>, p: nat, prog: seq<Instr>, n: nat)
    requires n < |prog|
    requires Wrote(a, b, p, EncodeAll(prog[..n]))
    requires Wrote(b, c, p + |EncodeAll(prog[..n])|, Encode(prog[n]))
    ensures Wrote(a, c, p, EncodeAll(prog[..n + 1]))
    ensures |EncodeAll(prog[..n + 1])| == |EncodeAll(prog[..n])| + Size(prog[n])
  {
    WroteThen(a, b, c, p, EncodeAll(prog[..n]), Encode(prog[n]));
    EncodeAllSnoc(prog, n);
  }

  lemma EncodeAllSnoc(prog: seq<Instr>, n: nat)
    requires n < |prog|
    ensures EncodeAll(prog[..n + 1]) == EncodeAll(prog[..n]) + Encode(prog[n])
  {
    assert prog[..n + 1] == prog[..n] + [prog[n]];
    EncodeAllAppend(prog[..n], [prog[n]]);
    assert EncodeAll([prog[n]]) == Encode(prog[n]) + EncodeAll([]);
  }

  /** A list whose instructions all have the same size. */
  lemma {:induction false} UniformSize(prog: seq<Instr>, size: nat)
    requires forall i | i in prog :: Size(i) == size
    ensures |EncodeAll(prog)| == |prog| * size
  {
    hide Encode;
    if prog != [] {
      UniformSize(prog[1..], size);
      assert EncodeAll(prog) == Encode(prog[0]) + EncodeAll(prog[1..]);
      assert prog[0] in prog;
      assert |prog| * size == size + |prog[1..]| * size;
    }
  }
}
