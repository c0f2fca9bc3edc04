/** The 68020/68881 instructions that the benches emit, and those that tests
    under the layout theorem are built from, with their encodings. Operation
    words are from the M68000 Family Programmer's Reference Manual, sections 4
    (integer), 5 (floating point) and 6 (supervisor). */
module M68k {
  import opened Bytes
  import opened Options

  type Reg = n: int | 0 <= n < 8
  type Mid = n: int | 0 <= n < 64
  type Line = n: int | 0 <= n < 16

  // The source of a longword store: Dn, An or an absolute longword.
  datatype Src = D(n: Reg) | A(n: Reg) | Abs(addr: u32)

  datatype AluOp = MOVE | ADD | SUB | CMP
  datatype UnOp = NEG | NOT | SWAP | CLR | TST
  datatype CtrlReg = FPCR | FPSR | FPIAR

  datatype Instr =
    | Moveq(n: Reg, imm: byte)              // MOVEQ #imm,Dn
    | Suba(m: Reg, n: Reg)                  // SUBA.L Am,An
    | MoveaImm(n: Reg, long: u32)           // MOVEA.L #long,An
    | MoveImmD(n: Reg, long: u32)           // MOVE.L #long,Dn
    | MoveImmCcr(word: u16)                 // MOVE #word,CCR
    | MoveCcrAbs(addr: u32)                 // MOVE CCR,addr
    | Store(src: Src, addr: u32)            // MOVE.L src,addr
    | LoadA(n: Reg, addr: u32)              // MOVEA.L addr,An
    | SubqA7                                // SUBQ.L #4,A7
    | Bra(disp: u16)                        // BRA.W disp
    | Stop(word: u16)                       // STOP #word
    | Rts
    | FmoveX(fp: Reg, n: Reg)               // FMOVE.X FPn,(An)+
    | FmoveCtrl(ctrl: CtrlReg, addr: u32)   // FMOVE.L ctrl,addr
    | Alu(op: AluOp, m: Reg, n: Reg)        // op.L Dm,Dn
    | Unary(uop: UnOp, n: Reg)              // uop.L Dn
    | DataOp(f: DataWord)                   // any other one-word operation on D registers
    | LeaA6(n: Reg, d16: u16)               // LEA d16(A6),An
    | LoadA6(n: Reg, d16: u16)              // MOVE.L d16(A6),Dn
    | StoreA6(n: Reg, d16: u16)             // MOVE.L Dn,d16(A6)

  // ---- The operation word as the manual draws it: line, register, mode, register ----

  datatype Fields = Fields(line: Line, hi: Reg, mid: Mid, lo: Reg)

  /** The operation words that read and change D registers and flags only, apart from those Alu, Unary and
      Moveq stand for. */
  predicate IsDataOp(f: Fields) {
    match f.line
    case 0 => f.mid in {32, 40, 48, 56}                                     // BTST, BCHG, BCLR, BSET Dn,Dm
    case 1 => f.mid == 0                                                    // MOVE.B Dm,Dn
    case 3 => f.mid == 0                                                    // MOVE.W Dm,Dn
    case 4 =>
      || (f.hi == 0 && f.mid in {0, 8, 16})                                 // NEGX
      || (f.hi in {1, 2, 3, 5} && f.mid in {0, 8})                          // CLR, NEG, NOT, TST .B and .W
      || (f.hi == 4 && f.mid in {0, 16, 24, 56})                            // NBCD, EXT, EXTB
    case 5 => f.mid in {0, 8, 16, 32, 40, 48, 24, 56}                       // ADDQ, SUBQ, Scc
    case 8 => f.mid in {0, 8, 16, 32}                                       // OR, SBCD
    case 9 => f.mid in {0, 8, 32, 40, 48}                                   // SUB.B, SUB.W, SUBX
    case 11 => f.mid in {0, 8, 32, 40, 48}                                  // CMP.B, CMP.W, EOR
    case 12 => f.mid in {0, 8, 16, 24, 32, 40, 56}                          // AND, MULU, ABCD, EXG, MULS
    case 13 => f.mid in {0, 8, 32, 40, 48}                                  // ADD.B, ADD.W, ADDX
    case 14 => f.mid / 8 % 4 != 3                                           // shifts and rotates
    case _ => false
  }

  type DataWord = f: Fields | IsDataOp(f) witness Fields(12, 0, 0, 0)

  function FieldsWord(f: Fields): u16 {
    f.line * 0x1000 + f.hi * 0x200 + f.mid * 8 + f.lo
  }

  function WordFields(w: u16): Fields {
    Fields(w / 0x1000, w / 0x200 % 8, w / 8 % 64, w % 8)
  }

  lemma FieldsSplit(f: Fields)
    ensures WordFields(FieldsWord(f)) == f
  {
    var w := FieldsWord(f);
    assert w / 8 == f.line * 0x200 + f.hi * 64 + f.mid;
    assert w / 0x200 == f.line * 8 + f.hi;
  }

  lemma FieldsJoin(w: u16)
    ensures FieldsWord(WordFields(w)) == w
  {
    assert w / 0x200 == w / 8 / 64 && w / 0x1000 == w / 0x200 / 8;
  }

  // ---- What follows the operation word ----

  datatype Ops = NoOps | W(w: u16) | L(l: u32) | LL(l1: u32, l2: u32) | WL(w: u16, l: u32)

  function OpsBytes(o: Ops): seq<byte> {
    match o
    case NoOps => []
    case W(w) => WordBytes(w)
    case L(l) => LongBytes(l)
    case LL(l1, l2) => LongBytes(l1) + LongBytes(l2)
    case WL(w, l) => WordBytes(w) + LongBytes(l)
  }

  // An operand format: the operands with their values blanked out.
  function Blank(o: Ops): Ops {
    match o
    case NoOps => NoOps
    case W(_) => W(0)
    case L(_) => L(0)
    case LL(_, _) => LL(0, 0)
    case WL(_, _) => WL(0, 0)
  }

  function WordOf(b: seq<byte>): u16
    requires |b| >= 2
  {
    JoinWord(b[0], b[1])
  }

  function LongOf(b: seq<byte>): u32
    requires |b| >= 4
  {
    JoinLong(b[0], b[1], b[2], b[3])
  }

  /** Reads operands of format `k` off the front of `b`. */
  function ParseOps(k: Ops, b: seq<byte>): Option<Ops> {
    match k
    case NoOps => Some(NoOps)
    case W(_) => if |b| < 2 then None else Some(W(WordOf(b)))
    case L(_) => if |b| < 4 then None else Some(L(LongOf(b)))
    case LL(_, _) => if |b| < 8 then None else Some(LL(LongOf(b), LongOf(b[4..])))
    case WL(_, _) => if |b| < 6 then None else Some(WL(WordOf(b), LongOf(b[2..])))
  }

  lemma LongFront(v: u32, tail: seq<byte>)
    ensures LongOf(LongBytes(v) + tail) == v
    ensures (LongBytes(v) + tail)[4..] == tail
  {
    LongSplits(v);
  }

  lemma WordFront(v: u16, tail: seq<byte>)
    ensures WordOf(WordBytes(v) + tail) == v
    ensures (WordBytes(v) + tail)[2..] == tail
  {
  }

  lemma ParseOfOps(o: Ops, tail: seq<byte>)
    ensures ParseOps(Blank(o), OpsBytes(o) + tail) == Some(o)
  {
    match o
    case NoOps =>
    case W(w) => WordFront(w, tail);
    case L(l) => LongFront(l, tail);
    case LL(l1, l2) =>
      assert OpsBytes(o) + tail == LongBytes(l1) + (LongBytes(l2) + tail);
      LongFront(l1, LongBytes(l2) + tail);
      LongFront(l2, tail);
    case WL(w, l) =>
      assert OpsBytes(o) + tail == WordBytes(w) + (LongBytes(l) + tail);
      WordFront(w, LongBytes(l) + tail);
      LongFront(l, tail);
  }

  lemma LongCanonical(b: seq<byte>)
    requires |b| >= 4
    ensures LongBytes(LongOf(b)) == b[..4]
  {
    LongJoins(b[0], b[1], b[2], b[3]);
  }

  lemma WordCanonical(b: seq<byte>)
    requires |b| >= 2
    ensures WordBytes(WordOf(b)) == b[..2]
  {
  }

  lemma LongLongCanonical(b: seq<byte>)
    requires |b| >= 8
    ensures LongBytes(LongOf(b)) + LongBytes(LongOf(b[4..])) == b[..8]
  {
    hide LongBytes, LongOf;
    LongCanonical(b);
    LongCanonical(b[4..]);
    assert b[..4] + b[4..][..4] == b[..8];
  }

  lemma WordLongCanonical(b: seq<byte>)
    requires |b| >= 6
    ensures WordBytes(WordOf(b)) + LongBytes(LongOf(b[2..])) == b[..6]
  {
    hide LongBytes, LongOf, WordBytes, WordOf;
    WordCanonical(b);
    LongCanonical(b[2..]);
    assert b[..2] + b[2..][..4] == b[..6];
  }

  lemma BlankOfParse(k: Ops, b: seq<byte>)
    requires ParseOps(k, b).Some?
    ensures Blank(ParseOps(k, b).value) == Blank(k)
  {
  }

  // ---- Instructions to fields and operands, and back ----

  function AluLine(op: AluOp): Line {
    match op case MOVE => 2 case ADD => 13 case SUB => 9 case CMP => 11
  }

  function CtrlExt(c: CtrlReg): u16 {
    match c case FPCR => 0xB000 case FPSR => 0xA800 case FPIAR => 0xA400
  }

  function FieldsOf(i: Instr): Fields {
    match i
    case Moveq(n, imm) => Fields(7, n, imm / 8, imm % 8)
    case Suba(m, n) => Fields(9, n, 57, m)
    case MoveaImm(n, _) => Fields(2, n, 15, 4)
    case MoveImmD(n, _) => Fields(2, n, 7, 4)
    case MoveImmCcr(_) => Fields(4, 2, 31, 4)
    case MoveCcrAbs(_) => Fields(4, 1, 31, 1)
    case Store(D(n), _) => Fields(2, 1, 56, n)
    case Store(A(n), _) => Fields(2, 1, 57, n)
    case Store(Abs(_), _) => Fields(2, 1, 63, 1)
    case LoadA(n, _) => Fields(2, n, 15, 1)
    case SubqA7 => Fields(5, 4, 49, 7)
    case Bra(_) => Fields(6, 0, 0, 0)
    case Stop(_) => Fields(4, 7, 14, 2)
    case Rts => Fields(4, 7, 14, 5)
    case FmoveX(_, n) => Fields(15, 1, 3, n)
    case FmoveCtrl(_, _) => Fields(15, 1, 7, 1)
    case Alu(op, m, n) => Fields(AluLine(op), n, if op == MOVE then 0 else 16, m)
    case Unary(NEG, n) => Fields(4, 2, 16, n)
    case Unary(NOT, n) => Fields(4, 3, 16, n)
    case Unary(SWAP, n) => Fields(4, 4, 8, n)
    case Unary(CLR, n) => Fields(4, 1, 16, n)
    case Unary(TST, n) => Fields(4, 5, 16, n)
    case DataOp(f) => f
    case LeaA6(n, _) => Fields(4, n, 61, 6)
    case LoadA6(n, _) => Fields(2, n, 5, 6)
    case StoreA6(n, _) => Fields(2, 6, 40, n)
  }

  function OpsOf(i: Instr): Ops {
    match i
    case MoveaImm(_, v) => L(v)
    case MoveImmD(_, v) => L(v)
    case MoveImmCcr(w) => W(w)
    case MoveCcrAbs(a) => L(a)
    case Store(Abs(s), a) => LL(s, a)
    case Store(_, a) => L(a)
    case LoadA(_, a) => L(a)
    case Bra(d) => W(d)
    case Stop(w) => W(w)
    case FmoveX(fp, _) => W(0x6800 + 0x80 * fp)
    case FmoveCtrl(c, a) => WL(CtrlExt(c), a)
    case LeaA6(_, d) => W(d)
    case LoadA6(_, d) => W(d)
    case StoreA6(_, d) => W(d)
    case _ => NoOps
  }

  /** The operand format an operation word announces; None for a word the model
      does not decode. */
  function Format(f: Fields): Option<Ops> {
    if IsDataOp(f) then Some(NoOps) else OtherFormat(f)
  }

  function OtherFormat(f: Fields): Option<Ops> {
    match f.line
    case 2 =>
      if f.mid == 0 then Some(NoOps)
      else if (f.mid == 15 && f.lo == 4) || (f.mid == 7 && f.lo == 4) || (f.mid == 15 && f.lo == 1) then Some(L(0))
      else if f.hi == 1 && (f.mid == 56 || f.mid == 57) then Some(L(0))
      else if f.hi == 1 && f.mid == 63 && f.lo == 1 then Some(LL(0, 0))
      else if (f.mid == 5 && f.lo == 6) || (f.hi == 6 && f.mid == 40) then Some(W(0))
      else None
    case 4 =>
      if f.hi == 2 && f.mid == 31 && f.lo == 4 then Some(W(0))
      else if f.hi == 1 && f.mid == 31 && f.lo == 1 then Some(L(0))
      else if f.hi == 7 && f.mid == 14 && f.lo == 2 then Some(W(0))
      else if f.hi == 7 && f.mid == 14 && f.lo == 5 then Some(NoOps)
      else if f.mid == 16 && f.hi in {1, 2, 3, 5} then Some(NoOps)
      else if f.mid == 8 && f.hi == 4 then Some(NoOps)
      else if f.mid == 61 && f.lo == 6 then Some(W(0))
      else None
    case 5 => if f == Fields(5, 4, 49, 7) then Some(NoOps) else None
    case 6 => if f == Fields(6, 0, 0, 0) then Some(W(0)) else None
    case 7 => if f.mid < 32 then Some(NoOps) else None
    case 9 => if f.mid == 57 || f.mid == 16 then Some(NoOps) else None
    case 11 => if f.mid == 16 then Some(NoOps) else None
    case 13 => if f.mid == 16 then Some(NoOps) else None
    case 15 =>
      if f.hi == 1 && f.mid == 3 then Some(W(0))
      else if f.hi == 1 && f.mid == 7 && f.lo == 1 then Some(WL(0, 0))
      else None
    case _ => None
  }

  function CtrlOf(w: u16): Option<CtrlReg> {
    if w == 0xB000 then Some(FPCR) else if w == 0xA800 then Some(FPSR)
    else if w == 0xA400 then Some(FPIAR) else None
  }

  /** The instruction with these fields and operands; None for the coprocessor
      extension words that the benches never emit. */
  function Assemble(f: Fields, o: Ops): Option<Instr>
    requires Format(f) == Some(Blank(o))
  {
    if IsDataOp(f) then Some(DataOp(f)) else AssembleOther(f, o)
  }

  function AssembleOther(f: Fields, o: Ops): Option<Instr>
    requires OtherFormat(f) == Some(Blank(o))
  {
    match f.line
    case 2 =>
      if f.mid == 0 then Some(Alu(MOVE, f.lo, f.hi))
      else if f.mid == 15 && f.lo == 4 then Some(MoveaImm(f.hi, o.l))
      else if f.mid == 7 then Some(MoveImmD(f.hi, o.l))
      else if f.mid == 15 then Some(LoadA(f.hi, o.l))
      else if f.mid == 56 then Some(Store(D(f.lo), o.l))
      else if f.mid == 57 then Some(Store(A(f.lo), o.l))
      else if f.mid == 63 then Some(Store(Abs(o.l1), o.l2))
      else if f.mid == 5 then Some(LoadA6(f.hi, o.w))
      else Some(StoreA6(f.lo, o.w))
    case 4 =>
      if f.mid == 31 && f.lo == 4 then Some(MoveImmCcr(o.w))
      else if f.mid == 31 then Some(MoveCcrAbs(o.l))
      else if f.mid == 14 && f.lo == 2 then Some(Stop(o.w))
      else if f.mid == 14 then Some(Rts)
      else if f.mid == 61 then Some(LeaA6(f.hi, o.w))
      else if f.mid == 8 then Some(Unary(SWAP, f.lo))
      else if f.hi == 2 then Some(Unary(NEG, f.lo))
      else if f.hi == 3 then Some(Unary(NOT, f.lo))
      else if f.hi == 1 then Some(Unary(CLR, f.lo))
      else Some(Unary(TST, f.lo))
    case 5 => Some(SubqA7)
    case 6 => Some(Bra(o.w))
    case 7 => Some(Moveq(f.hi, f.mid * 8 + f.lo))
    case 9 => if f.mid == 57 then Some(Suba(f.lo, f.hi)) else Some(Alu(SUB, f.lo, f.hi))
    case 11 => Some(Alu(CMP, f.lo, f.hi))
    case 13 => Some(Alu(ADD, f.lo, f.hi))
    case _ =>
      if f.mid == 3 then
        if 0x6800 <= o.w < 0x6C00 && o.w % 0x80 == 0 then Some(FmoveX((o.w - 0x6800) / 0x80, f.lo)) else None
      else
        match CtrlOf(o.w) { case Some(c) => Some(FmoveCtrl(c, o.l)) case None => None }
  }

  lemma NotData(i: Instr)
    requires !i.DataOp?
    ensures !IsDataOp(FieldsOf(i))
  {
  }

  lemma OtherOfInstr(i: Instr)
    requires !i.DataOp?
    ensures OtherFormat(FieldsOf(i)) == Some(Blank(OpsOf(i))) && AssembleOther(FieldsOf(i), OpsOf(i)) == Some(i)
  {
    hide IsDataOp;
  }

  lemma AssembleOfInstr(i: Instr)
    ensures Format(FieldsOf(i)) == Some(Blank(OpsOf(i)))
    ensures Assemble(FieldsOf(i), OpsOf(i)) == Some(i)
  {
    hide OtherFormat, AssembleOther;
    if !i.DataOp? {
      hide IsDataOp, FieldsOf, OpsOf;
      NotData(i);
      OtherOfInstr(i);
    }
  }

  // The instruction word (f, o) assembles to has these fields and operands.
  predicate Canonical(f: Fields, o: Ops)
    requires Format(f) == Some(Blank(o)) && Assemble(f, o).Some?
  {
    FieldsOf(Assemble(f, o).value) == f && OpsOf(Assemble(f, o).value) == o
  }

  predicate OtherCanonical(f: Fields, o: Ops)
    requires OtherFormat(f) == Some(Blank(o)) && AssembleOther(f, o).Some?
  {
    FieldsOf(AssembleOther(f, o).value) == f && OpsOf(AssembleOther(f, o).value) == o
  }

  lemma MoveCanonical(f: Fields, o: Ops)
    requires OtherFormat(f) == Some(Blank(o)) && AssembleOther(f, o).Some? && f.line == 2
    ensures OtherCanonical(f, o)
  {
    hide IsDataOp;
  }

  lemma MiscCanonical(f: Fields, o: Ops)
    requires OtherFormat(f) == Some(Blank(o)) && AssembleOther(f, o).Some? && f.line == 4
    ensures OtherCanonical(f, o)
  {
    hide IsDataOp;
  }

  lemma HighCanonical(f: Fields, o: Ops)
    requires OtherFormat(f) == Some(Blank(o)) && AssembleOther(f, o).Some? && f.line >= 5
    ensures OtherCanonical(f, o)
  {
    hide IsDataOp;
  }

  lemma InstrOfAssemble(f: Fields, o: Ops)
    requires Format(f) == Some(Blank(o)) && Assemble(f, o).Some?
    ensures Canonical(f, o)
  {
    hide IsDataOp, AssembleOther;
    if !IsDataOp(f) {
      if f.line == 2 { MoveCanonical(f, o); } else if f.line == 4 { MiscCanonical(f, o); } else { HighCanonical(f, o); }
    } else {
      assert Blank(o) == NoOps;
    }
  }

  // ---- Encoding and decoding ----

  function Encode(i: Instr): seq<byte> {
    WordBytes(FieldsWord(FieldsOf(i))) + OpsBytes(OpsOf(i))
  }

  function EncodeAll(p: seq<Instr>): seq<byte> {
    if p == [] then [] else Encode(p[0]) + EncodeAll(p[1..])
  }

  function Size(i: Instr): nat {
    |Encode(i)|
  }

  lemma SizeBound(i: Instr)
    ensures 2 <= Size(i) <= 10
  {
  }

  /** The first instruction of a byte string. */
  function Decode(b: seq<byte>): Option<Instr> {
    if |b| < 2 then None
    else
      var f := WordFields(WordOf(b));
      match Format(f)
      case None => None
      case Some(k) =>
        match ParseOps(k, b[2..])
        case None => None
        case Some(o) =>
          BlankOfParse(k, b[2..]);
          FormatIsBlank(f);
          Assemble(f, o)
  }

  lemma FormatIsBlank(f: Fields)
    ensures Format(f).Some? ==> Blank(Format(f).value) == Format(f).value
  {
  }

  /** Whatever follows an encoded instruction, decoding gives the instruction back. */
  lemma DecodeEncode(i: Instr, tail: seq<byte>)
    ensures Decode(Encode(i) + tail) == Some(i)
  {
    hide FieldsWord, WordFields, FieldsOf, OpsOf, Format, Assemble, ParseOps, OpsBytes, WordOf, Blank;
    var f, o := FieldsOf(i), OpsOf(i);
    var b := Encode(i) + tail;
    assert b == WordBytes(FieldsWord(f)) + (OpsBytes(o) + tail);
    WordFront(FieldsWord(f), OpsBytes(o) + tail);
    FieldsSplit(f);
    ParseOfOps(o, tail);
    AssembleOfInstr(i);
  }

  /** Only the encoding of `i` decodes to `i`. */
  lemma EncodeDecode(b: seq<byte>)
    requires Decode(b).Some?
    ensures var i := Decode(b).value; Size(i) <= |b| && Encode(i) == b[..Size(i)]
  {
    hide LongBytes, LongOf, WordBytes, WordOf, WordFields, FieldsWord, Format, FieldsOf, OpsOf, Assemble;
    var f := WordFields(WordOf(b));
    var k := Format(f).value;
    var o := ParseOps(k, b[2..]).value;
    FieldsJoin(WordOf(b));
    BlankOfParse(k, b[2..]);
    FormatIsBlank(f);
    InstrOfAssemble(f, o);
    WordCanonical(b);
    assert OpsBytes(o) == b[2..][..|OpsBytes(o)|] by {
      match k
      case NoOps =>
      case W(_) => WordCanonical(b[2..]);
      case L(_) => LongCanonical(b[2..]);
      case LL(_, _) => LongLongCanonical(b[2..]);
      case WL(_, _) => WordLongCanonical(b[2..]);
    }
  }

  // ---- The encodings as bytes ----

  // An operation word: line, register and the high bit of the mode in its first byte, the rest in the second.
  lemma FieldsBytes(f: Fields)
    ensures WordBytes(FieldsWord(f)) == [f.line * 16 + (f.hi + f.hi) + f.mid / 32, f.mid % 32 * 8 + f.lo]
  {
    hide FieldsWord;
    FieldsHalves(f);
  }

  lemma FieldsHalves(f: Fields)
    ensures FieldsWord(f) / 0x100 == f.line * 16 + (f.hi + f.hi) + f.mid / 32
    ensures FieldsWord(f) % 0x100 == f.mid % 32 * 8 + f.lo
  {
    var high, low := f.line * 16 + (f.hi + f.hi) + f.mid / 32, f.mid % 32 * 8 + f.lo;
    assert f.mid == f.mid / 32 * 32 + f.mid % 32;
    assert FieldsWord(f) == high * 0x100 + low;
  }

  lemma CodeIs(i: Instr)
    ensures var f := FieldsOf(i);
            Encode(i) == [f.line * 16 + (f.hi + f.hi) + f.mid / 32, f.mid % 32 * 8 + f.lo] + OpsBytes(OpsOf(i))
  {
    hide FieldsOf, OpsOf, WordBytes, FieldsWord, OpsBytes;
    FieldsBytes(FieldsOf(i));
  }

  /** The bytes of the instructions the benches emit: here the two that clear a register. */
  lemma ClearCode(m: Reg, n: Reg, imm: byte)
    ensures Encode(Moveq(n, imm)) == [0x70 + (n + n), imm] && Encode(Suba(m, n)) == [0x91 + (n + n), 0xC8 + m]
  {
    hide Encode;
    CodeIs(Moveq(n, imm));
    CodeIs(Suba(m, n));
  }

  lemma ReturnCode()
    ensures Encode(SubqA7) == [0x59, 0x8F] && Encode(Rts) == [0x4E, 0x75]
  {
    hide Encode;
    CodeIs(SubqA7);
    CodeIs(Rts);
  }

  lemma LoadCode(n: Reg, v: u32)
    ensures Encode(MoveaImm(n, v)) == [0x20 + (n + n), 0x7C] + LongBytes(v)
    ensures Encode(MoveImmD(n, v)) == [0x20 + (n + n), 0x3C] + LongBytes(v)
    ensures Encode(LoadA(n, v)) == [0x20 + (n + n), 0x79] + LongBytes(v)
  {
    hide Encode, LongBytes;
    CodeIs(MoveaImm(n, v));
    CodeIs(MoveImmD(n, v));
    CodeIs(LoadA(n, v));
  }

  lemma StoreCode(n: Reg, src: u32, at: u32)
    ensures Encode(Store(D(n), at)) == [0x23, 0xC0 + n] + LongBytes(at)
    ensures Encode(Store(A(n), at)) == [0x23, 0xC8 + n] + LongBytes(at)
    ensures Encode(Store(Abs(src), at)) == [0x23, 0xF9] + LongBytes(src) + LongBytes(at)
    ensures Encode(MoveCcrAbs(at)) == [0x42, 0xF9] + LongBytes(at)
  {
    hide Encode, LongBytes;
    CodeIs(Store(D(n), at));
    CodeIs(Store(A(n), at));
    CodeIs(Store(Abs(src), at));
    CodeIs(MoveCcrAbs(at));
  }

  lemma ControlCode(w: u16)
    ensures Encode(MoveImmCcr(w)) == [0x44, 0xFC] + WordBytes(w)
    ensures Encode(Bra(w)) == [0x60, 0x00] + WordBytes(w) && Encode(Stop(w)) == [0x4E, 0x72] + WordBytes(w)
  {
    hide Encode, WordBytes;
    CodeIs(MoveImmCcr(w));
    CodeIs(Bra(w));
    CodeIs(Stop(w));
  }

  lemma FpuCode(fp: Reg, n: Reg, c: CtrlReg, at: u32)
    ensures Encode(FmoveX(fp, n)) == [0xF2, 0x18 + n, 0x68 + fp / 2, if fp % 2 == 0 then 0 else 0x80]
    ensures Encode(FmoveCtrl(c, at)) ==
            [0xF2, 0x39, match c case FPCR => 0xB0 case FPSR => 0xA8 case FPIAR => 0xA4, 0x00] + LongBytes(at)
  {
    hide Encode, LongBytes;
    CodeIs(FmoveX(fp, n));
    CodeIs(FmoveCtrl(c, at));
  }

  /** The bytes of the operations a portable test is made of. */
  lemma AluCode(op: AluOp, m: Reg, n: Reg)
    ensures Encode(Alu(op, m, n)) ==
            match op
            case MOVE => [0x20 + (n + n), m]
            case ADD => [0xD0 + (n + n), 0x80 + m]
            case SUB => [0x90 + (n + n), 0x80 + m]
            case CMP => [0xB0 + (n + n), 0x80 + m]
  {
    hide Encode;
    CodeIs(Alu(op, m, n));
  }

  lemma UnaryCode(op: UnOp, n: Reg)
    ensures Encode(Unary(op, n)) ==
            match op
            case NEG => [0x44, 0x80 + n]
            case NOT => [0x46, 0x80 + n]
            case SWAP => [0x48, 0x40 + n]
            case CLR => [0x42, 0x80 + n]
            case TST => [0x4A, 0x80 + n]
  {
    hide Encode;
    CodeIs(Unary(op, n));
  }

  lemma IndexedCode(n: Reg, d16: u16)
    ensures Encode(LeaA6(n, d16)) == [0x41 + (n + n), 0xEE] + WordBytes(d16)
    ensures Encode(LoadA6(n, d16)) == [0x20 + (n + n), 0x2E] + WordBytes(d16)
    ensures Encode(StoreA6(n, d16)) == [0x2D, 0x40 + n] + WordBytes(d16)
  {
    hide Encode, WordBytes;
    CodeIs(LeaA6(n, d16));
    CodeIs(LoadA6(n, d16));
    CodeIs(StoreA6(n, d16));
  }

  /** Decodes a byte string as a list of instructions; None when some
      instruction does not decode. */
  function DecodeAll(b: seq<byte>): Option<seq<Instr>>
    decreases |b|
  {
    if b == [] then Some([])
    else match Decode(b)
      case None => None
      case Some(i) =>
        EncodeDecode(b);
        match DecodeAll(b[Size(i)..])
        case None => None
        case Some(p) => Some([i] + p)
  }

  lemma {:induction false} DecodeEncodeAll(p: seq<Instr>)
    ensures DecodeAll(EncodeAll(p)) == Some(p)
  {
    hide Decode, Encode;
    if p != [] {
      SizeBound(p[0]);
      DecodeEncode(p[0], EncodeAll(p[1..]));
      assert EncodeAll(p) == Encode(p[0]) + EncodeAll(p[1..]);
      assert EncodeAll(p)[Size(p[0])..] == EncodeAll(p[1..]);
      DecodeEncodeAll(p[1..]);
      assert [p[0]] + p[1..] == p;
    }
  }

  lemma {:induction false} EncodeDecodeAll(b: seq<byte>)
    requires DecodeAll(b).Some?
    ensures EncodeAll(DecodeAll(b).value) == b
    decreases |b|
  {
    hide Decode, Encode;
    if b != [] {
      EncodeDecode(b);
      SizeBound(Decode(b).value);
      var i := Decode(b).value;
      EncodeDecodeAll(b[Size(i)..]);
      assert b == b[..Size(i)] + b[Size(i)..];
    }
  }

  lemma {:induction false} EncodeAllAppend(p: seq<Instr>, q: seq<Instr>)
    ensures EncodeAll(p + q) == EncodeAll(p) + EncodeAll(q)
  {
    if p == [] {
      assert p + q == q;
    } else {
      assert (p + q)[0] == p[0] && (p + q)[1..] == p[1..] + q;
      EncodeAllAppend(p[1..], q);
    }
  }
}
