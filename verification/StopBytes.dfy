/** Where the bytes of STOP #$2700 can lie inside straight-line code: nowhere but in the immediate longword
    4E722700 of a MOVE.L #imm,Dn or MOVEA.L #imm,An. */
module StopBytes {
  import opened Bytes
  import opened M68k
  import opened CpuFpuBench
  import opened LayoutIndependence

  const STOP_LONG: u32 := 0x4E72_2700

  // The instruction loads the bytes of the STOP as an immediate.
  predicate LoadsStop(i: Instr) {
    (i.MoveImmD? || i.MoveaImm?) && i.long == STOP_LONG
  }

  lemma OpBytes(f: Fields)
    ensures WordBytes(FieldsWord(f)) == [f.line * 16 + f.hi * 2 + f.mid / 32, f.mid % 32 * 8 + f.lo]
  {
    Bytes256(FieldsWord(f), f.line * 16 + f.hi * 2 + f.mid / 32, f.mid % 32 * 8 + f.lo);
  }

  lemma Bytes256(w: u16, high: byte, low: byte)
    requires w == high * 0x100 + low
    ensures WordBytes(w) == [high, low]
  {
  }

  // The first two bytes of a portable instruction.
  predicate Head(a: byte, b: byte, size: nat) {
    && a != 0 && !(a == 0x4E && b == 0x72) && !(a == 0x27 && b == 0x00)
    && (a == 0x72 && b == 0x27 ==> size == 2) && (size == 6 ==> b != 0x4E)
  }

  lemma PortableHead(i: Instr)
    requires Portable(i)
    ensures Size(i) == 2 || Size(i) == 4 || Size(i) == 6
    ensures Head(Encode(i)[0], Encode(i)[1], Size(i))
    ensures Size(i) == 6 ==> (i.MoveImmD? || i.MoveaImm?) && Encode(i)[2..] == LongBytes(i.long)
  {
    hide WordBytes, FieldsWord, LongBytes, FieldsOf, OpsOf, OpsBytes, Portable, Head;
    OpBytes(FieldsOf(i));
    PortableFields(i);
    PortableOps(i);
    assert Encode(i)[2..] == OpsBytes(OpsOf(i));
  }

  lemma PortableOps(i: Instr)
    requires Portable(i)
    ensures var b := OpsBytes(OpsOf(i));
            && (|b| == 0 || |b| == 2 || |b| == 4)
            && (|b| == 4 ==> (i.MoveImmD? || i.MoveaImm?) && b == LongBytes(i.long))
  {
  }

  lemma PortableFields(i: Instr)
    requires Portable(i)
    ensures var f := FieldsOf(i);
            && Head(f.line * 16 + f.hi * 2 + f.mid / 32, f.mid % 32 * 8 + f.lo, 2 + |OpsBytes(OpsOf(i))|)
  {
    hide WordBytes, LongBytes;
    if i.DataOp? { DataFields(i.f); } else { }
  }

  lemma DataFields(f: Fields)
    requires IsDataOp(f)
    ensures Head(f.line * 16 + f.hi * 2 + f.mid / 32, f.mid % 32 * 8 + f.lo, 2)
  {
  }

  // ---- Code that starts with something else than half a STOP ----

  lemma CodeHead(ps: seq<Instr>)
    requires AllPortable(ps)
    ensures var b := EncodeAll(ps);
            && (b != [] ==> |b| >= 2 && b[0] != 0 && !(b[0] == 0x27 && b[1] == 0x00))
            && !(|b| >= 3 && b[0] == 0x72 && b[1] == 0x27 && b[2] == 0x00)
  {
    hide Portable, Encode;
    if ps != [] {
      assert ps[0] in ps;
      PortableHead(ps[0]);
      if |ps| > 1 {
        assert ps[1] in ps;
        PortableHead(ps[1]);
        assert ps[1..][0] == ps[1];
      }
    }
  }

  /** The STOP's bytes inside straight-line code are the immediate of one of its instructions. */
  lemma {:induction false} StopInside(ps: seq<Instr>, i: nat) returns (k: nat)
    requires AllPortable(ps) && StopAt(EncodeAll(ps), i)
    ensures k < |ps| && LoadsStop(ps[k]) && i == |EncodeAll(ps[..k])| + 2
    decreases |ps|
  {
    hide Portable, Encode, LoadsStop;
    if ps == [] {
      assert false;
    } else {
      var e, rest := Encode(ps[0]), EncodeAll(ps[1..]);
      if i >= |e| {
        var j := StopInside(ps[1..], i - |e|);
        k := j + 1;
        PrefixCode(ps, k);
      } else {
        k := 0;
        FirstHolds(ps, i);
      }
    }
  }

  lemma PrefixCode(ps: seq<Instr>, k: nat)
    requires 0 < k <= |ps|
    ensures EncodeAll(ps[..k]) == Encode(ps[0]) + EncodeAll(ps[1..][..k - 1])
  {
    hide Encode;
    assert ps[..k][0] == ps[0] && ps[..k][1..] == ps[1..][..k - 1];
  }

  // A STOP that begins inside the first instruction is its immediate.
  lemma FirstHolds(ps: seq<Instr>, i: nat)
    requires AllPortable(ps) && ps != [] && i < Size(ps[0]) && StopAt(EncodeAll(ps), i)
    ensures LoadsStop(ps[0]) && i == 2
  {
    hide Portable, Encode, LongBytes;
    var e, rest := Encode(ps[0]), EncodeAll(ps[1..]);
    var b := e + rest;
    assert ps[0] in ps;
    PortableHead(ps[0]);
    CodeHead(ps[1..]);
    assert i == 2 && |e| == 6 by { FirstPlace(e, rest, i); }
    assert e[2..] == [0x4E, 0x72, 0x27, 0x00];
    LongIsStop(ps[0].long);
  }

  lemma LongIsStop(v: u32)
    requires LongBytes(v) == [0x4E, 0x72, 0x27, 0x00]
    ensures v == STOP_LONG
  {
    LongSplits(v);
  }

  // Where the STOP's bytes can begin in an instruction e followed by the code rest.
  lemma FirstPlace(e: seq<byte>, rest: seq<byte>, i: nat)
    requires |e| == 2 || |e| == 4 || |e| == 6
    requires Head(e[0], e[1], |e|) && i < |e| && StopAt(e + rest, i)
    requires rest != [] ==> |rest| >= 2 && rest[0] != 0 && !(rest[0] == 0x27 && rest[1] == 0x00)
    requires !(|rest| >= 3 && rest[0] == 0x72 && rest[1] == 0x27 && rest[2] == 0x00)
    ensures i == 2 && |e| == 6
  {
  }

  // ---- Exchanging that immediate ----

  // The instruction with another immediate longword.
  function WithLong(i: Instr, v: u32): Instr
    requires i.MoveImmD? || i.MoveaImm?
  {
    if i.MoveImmD? then MoveImmD(i.n, v) else MoveaImm(i.n, v)
  }

  lemma WithLongCode(i: Instr, v: u32)
    requires i.MoveImmD? || i.MoveaImm?
    ensures |Encode(i)| == |Encode(WithLong(i, v))| == 6
    ensures Encode(i) == Encode(i)[..2] + LongBytes(i.long) && Encode(WithLong(i, v)) == Encode(i)[..2] + LongBytes(v)
    ensures Portable(i) ==> Portable(WithLong(i, v))
  {
    hide FieldsWord;
  }

  lemma CodeSplit(ps: seq<Instr>, k: nat)
    requires k < |ps|
    ensures EncodeAll(ps) == EncodeAll(ps[..k]) + Encode(ps[k]) + EncodeAll(ps[k + 1..])
  {
    hide Encode;
    assert ps == ps[..k] + ps[k..];
    EncodeAllAppend(ps[..k], ps[k..]);
    assert ps[k..][0] == ps[k] && ps[k..][1..] == ps[k + 1..];
  }

  /** Exchanging an immediate exchanges four bytes of the code. */
  lemma ExchangeLong(ps: seq<Instr>, k: nat, v: u32)
    requires k < |ps| && (ps[k].MoveImmD? || ps[k].MoveaImm?)
    ensures var b, o := EncodeAll(ps), |EncodeAll(ps[..k])| + 2;
            && o + 4 <= |b| && b[o..o + 4] == LongBytes(ps[k].long)
            && EncodeAll(ps[k := WithLong(ps[k], v)]) == b[..o] + LongBytes(v) + b[o + 4..]
  {
    hide Encode, EncodeAll, LongBytes, WithLong;
    WithLongCode(ps[k], v);
    var q := ps[k := WithLong(ps[k], v)];
    assert q[..k] == ps[..k] && q[k + 1..] == ps[k + 1..];
    CodeSplit(ps, k);
    CodeSplit(q, k);
  }
}
