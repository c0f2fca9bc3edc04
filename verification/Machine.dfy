/** The processor: registers, one-instruction execution, and runs. Instructions
    that M68k does not decode take their meaning from an environment, so what is
    proved about preloads and tests holds whatever those instructions do. */
module Machine {
  import opened Bytes
  import opened M68k
  import opened Options

  type Bank = s: seq<u32> | |s| == 8 witness [0, 0, 0, 0, 0, 0, 0, 0]
  type Extended = s: seq<byte> | |s| == 12 witness [0, 0, 0, 0, 0, 0, 0, 0, 0, 0, 0, 0]
  const ZERO12: Extended := [0, 0, 0, 0, 0, 0, 0, 0, 0, 0, 0, 0]
  type FpBank = s: seq<Extended> | |s| == 8
    witness [ZERO12, ZERO12, ZERO12, ZERO12, ZERO12, ZERO12, ZERO12, ZERO12]

  datatype Ccr = Ccr(x: bool, n: bool, z: bool, v: bool, c: bool)

  // FP0..FP7 as their 96-bit memory images, and the control registers.
  datatype Fpu = Fpu(fp: FpBank, fpcr: u32, fpsr: u32, fpiar: u32)

  datatype Regs = Regs(d: Bank, a: Bank, ccr: Ccr, pc: u32, fpu: Fpu)
  datatype State = State(regs: Regs, mem: Mem)

  // What an instruction outside M68k does: its new registers and the bytes it writes.
  datatype Effect = Effect(regs: Regs, writes: Mem)

  // effect, touches: the meaning of other instructions and the bytes it depends on
  // dataOp: D registers and flags after a one-word operation on D registers
  // fmoveStatus: FPSR and FPIAR after FMOVE.X of FPn to memory at a given pc
  datatype Env = Env(effect: State -> Effect, touches: State -> set<int>, dataOp: (Fields, Bank, Ccr) -> (Bank, Ccr),
                     fmoveStatus: (Fpu, Reg, u32) -> (u32, u32))

  // ---- Condition codes ----

  function CcrByte(c: Ccr): byte {
    (if c.x then 16 else 0) + (if c.n then 8 else 0) + (if c.z then 4 else 0) + (if c.v then 2 else 0)
    + (if c.c then 1 else 0)
  }

  function CcrOf(w: u16): Ccr {
    Ccr(w / 16 % 2 == 1, w / 8 % 2 == 1, w / 4 % 2 == 1, w / 2 % 2 == 1, w % 2 == 1)
  }

  predicate Negative(v: u32) {
    v >= 0x8000_0000
  }

  /** The flags MOVE leaves: N and Z from the value, V and C clear, X kept. */
  function MoveCcr(x: bool, v: u32): Ccr {
    Ccr(x, Negative(v), v == 0, false, false)
  }

  /** dst + src or dst - src, with the flags it sets. */
  function AluResult(op: AluOp, src: u32, dst: u32, was: Ccr): (u32, Ccr) {
    match op
    case MOVE => (src, MoveCcr(was.x, src))
    case ADD =>
      var r := Mod32(dst + src);
      var carry := dst + src >= 0x1_0000_0000;
      (r, Ccr(carry, Negative(r), r == 0, Negative(src) == Negative(dst) != Negative(r), carry))
    case SUB =>
      var (r, c) := Subtract(src, dst);
      (r, c)
    case CMP =>
      var (r, c) := Subtract(src, dst);
      (dst, c.(x := was.x))
  }

  function Subtract(src: u32, dst: u32): (u32, Ccr) {
    var r := Mod32(dst - src);
    var borrow := src > dst;
    (r, Ccr(borrow, Negative(r), r == 0, Negative(src) != Negative(dst) && Negative(r) == Negative(src), borrow))
  }

  function UnaryResult(op: UnOp, v: u32, was: Ccr): (u32, Ccr) {
    match op
    case NEG => Subtract(v, 0)
    case NOT => var r := 0xFFFF_FFFF - v; (r, MoveCcr(was.x, r))
    case SWAP => var r := v % 0x1_0000 * 0x1_0000 + v / 0x1_0000; (r, MoveCcr(was.x, r))
    case CLR => (0, MoveCcr(was.x, 0))
    case TST => (v, MoveCcr(was.x, v))
  }

  // The two's-complement value of a longword.
  function Signed(v: u32): int {
    if Negative(v) then v - 0x1_0000_0000 else v
  }

  /** Each flag has its own bit of a CCR byte: X, N, Z, V, C from bit 4 down. */
  lemma CcrBits(c: Ccr)
    ensures CcrByte(c) < 32 && (c.x <==> CcrByte(c) >= 16) && (c.n <==> CcrByte(c) % 16 >= 8)
    ensures (c.z <==> CcrByte(c) % 8 >= 4) && (c.v <==> CcrByte(c) % 4 >= 2) && (c.c <==> CcrByte(c) % 2 == 1)
  {
  }

  /** SUB and CMP: the result is the signed difference unless V is set, and the unsigned one unless C is; Z, C and
      N with V order the operands. CMP changes neither its operand nor X. */
  lemma SubtractMeans(src: u32, dst: u32, was: Ccr)
    ensures var (r, f) := AluResult(SUB, src, dst, was);
            && (f.v <==> Signed(r) != Signed(dst) - Signed(src)) && (f.c <==> r != dst as int - src) && f.x == f.c
            && (f.z <==> src == dst) && (f.c <==> dst < src) && (f.n != f.v <==> Signed(dst) < Signed(src))
            && f.n == Negative(r)
            && AluResult(CMP, src, dst, was) == (dst, f.(x := was.x))
  {
  }

  /** ADD: the result is the signed sum unless V is set, and the unsigned one unless C is. */
  lemma AddMeans(src: u32, dst: u32, was: Ccr)
    ensures var (r, f) := AluResult(ADD, src, dst, was);
            && (f.v <==> Signed(r) != Signed(dst) + Signed(src)) && (f.c <==> r != dst as int + src) && f.x == f.c
            && (f.z <==> r == 0) && f.n == Negative(r) && SubtractsBack(src, dst, r)
  {
  }

  // r less src is dst.
  predicate SubtractsBack(src: u32, dst: u32, r: u32) {
    AluResult(SUB, src, r, Ccr(false, false, false, false, false)).0 == dst
  }

  /** NEG is SUB from zero; NOT undoes itself and is NEG less one; SWAP undoes itself and exchanges the words. */
  lemma UnaryMeans(v: u32, was: Ccr)
    ensures UnaryResult(NEG, v, was) == AluResult(SUB, v, 0, was)
    ensures var (r, f) := UnaryResult(NOT, v, was);
            UnaryResult(NOT, r, was).0 == v && Signed(r) == -Signed(v) - 1 && f == MoveCcr(was.x, r)
    ensures var (r, f) := UnaryResult(SWAP, v, was);
            r / 0x1_0000 == v % 0x1_0000 && r % 0x1_0000 == v / 0x1_0000 && f == MoveCcr(was.x, r)
  {
    assert v == v / 0x1_0000 * 0x1_0000 + v % 0x1_0000;
  }

  // ---- One instruction ----

  function IndexedA6(r: Regs, d16: u16): u32 {
    Mod32(r.a[6] + Signed16(d16))
  }

  /** The longword an instruction reads as data, if it reads one. */
  function ReadAddr(i: Instr, r: Regs): Option<int> {
    match i
    case Store(Abs(src), _) => Some(src)
    case LoadA(_, addr) => Some(addr)
    case LoadA6(_, d16) => Some(IndexedA6(r, d16))
    case Rts => Some(r.a[7])
    case _ => None
  }

  function Loaded(i: Instr, s: State): u32 {
    match ReadAddr(i, s.regs) case Some(a) => Long(s.mem, a) case None => 0
  }

  /** Where an instruction writes. */
  function WriteAddr(i: Instr, r: Regs): int {
    match i
    case MoveCcrAbs(addr) => addr
    case Store(_, addr) => addr
    case FmoveX(_, n) => r.a[n]
    case FmoveCtrl(_, addr) => addr
    case StoreA6(_, d16) => IndexedA6(r, d16)
    case _ => 0
  }

  /** What an instruction writes, given the longword `v` it has read. */
  function WriteData(i: Instr, r: Regs, v: u32): seq<byte> {
    match i
    case MoveCcrAbs(_) => [0, CcrByte(r.ccr)]
    case Store(D(n), _) => LongBytes(r.d[n])
    case Store(A(n), _) => LongBytes(r.a[n])
    case Store(Abs(_), _) => LongBytes(v)
    case FmoveX(fp, _) => r.fpu.fp[fp]
    case FmoveCtrl(FPCR, _) => LongBytes(r.fpu.fpcr)
    case FmoveCtrl(FPSR, _) => LongBytes(r.fpu.fpsr)
    case FmoveCtrl(FPIAR, _) => LongBytes(r.fpu.fpiar)
    case StoreA6(n, _) => LongBytes(r.d[n])
    case _ => []
  }

  function SrcValue(src: Src, r: Regs, v: u32): u32 {
    match src case D(n) => r.d[n] case A(n) => r.a[n] case Abs(_) => v
  }

  /** The registers after an instruction, apart from the program counter. */
  function Effects(env: Env, i: Instr, r: Regs, v: u32): Regs {
    match i
    case Moveq(n, imm) =>
      var e: u32 := if imm < 0x80 then imm else 0xFFFF_FF00 + imm;
      r.(d := r.d[n := e], ccr := MoveCcr(r.ccr.x, e))
    case Suba(m, n) => r.(a := r.a[n := Mod32(r.a[n] as int - r.a[m])])
    case MoveaImm(n, long) => r.(a := r.a[n := long])
    case MoveImmD(n, long) => r.(d := r.d[n := long], ccr := MoveCcr(r.ccr.x, long))
    case MoveImmCcr(word) => r.(ccr := CcrOf(word))
    case MoveCcrAbs(_) => r
    case Store(src, _) => r.(ccr := MoveCcr(r.ccr.x, SrcValue(src, r, v)))
    case LoadA(n, _) => r.(a := r.a[n := v])
    case SubqA7 => r.(a := r.a[7 := Mod32(r.a[7] as int - 4)])
    case Rts => r.(a := r.a[7 := Mod32(r.a[7] as int + 4)])
    case FmoveX(fp, n) =>
      var (fpsr, fpiar) := env.fmoveStatus(r.fpu, fp, r.pc);
      r.(a := r.a[n := Mod32(r.a[n] as int + 12)], fpu := r.fpu.(fpsr := fpsr, fpiar := fpiar))
    case Alu(op, m, n) =>
      var (e, c) := AluResult(op, r.d[m], r.d[n], r.ccr);
      r.(d := r.d[n := e], ccr := c)
    case Unary(op, n) =>
      var (e, c) := UnaryResult(op, r.d[n], r.ccr);
      r.(d := r.d[n := e], ccr := c)
    case DataOp(f) =>
      var (d, c) := env.dataOp(f, r.d, r.ccr);
      r.(d := d, ccr := c)
    case LeaA6(n, d16) => r.(a := r.a[n := IndexedA6(r, d16)])
    case LoadA6(n, _) => r.(d := r.d[n := v], ccr := MoveCcr(r.ccr.x, v))
    case StoreA6(n, _) => r.(ccr := MoveCcr(r.ccr.x, r.d[n]))
    case FmoveCtrl(_, _) => r
    case Bra(_) => r
    case Stop(_) => r
  }

  /** The next program counter; a stopped processor stays at its STOP. */
  function NextPc(i: Instr, r: Regs, v: u32): u32 {
    match i
    case Bra(disp) => Mod32(r.pc + 2 + Signed16(disp))
    case Stop(_) => r.pc
    case Rts => v
    case _ => Mod32(r.pc + Size(i))
  }

  function NextRegs(env: Env, i: Instr, r: Regs, v: u32): Regs {
    Effects(env, i, r, v).(pc := NextPc(i, r, v))
  }

  function Exec(env: Env, i: Instr, s: State): State {
    var v := Loaded(i, s);
    State(NextRegs(env, i, s.regs, v), StoreBytes(s.mem, WriteAddr(i, s.regs), WriteData(i, s.regs, v)))
  }

  // ---- What single instructions do ----

  // The flags of a value moved: N and Z from it, V and C clear, X as it was.
  predicate MovedFlags(c: Ccr, was: Ccr, v: u32) {
    (c.n <==> Signed(v) < 0) && (c.z <==> v == 0) && !c.v && !c.c && c.x == was.x
  }

  /** MOVEQ extends the sign of its byte; MOVEQ, MOVE.L #, MOVE.L d16(A6) and the unary operations but NEG set the
      flags of what they leave in Dn, and CLR leaves zero, TST what was there. */
  lemma DestinationFlags(env: Env, i: Instr, r: Regs, v: u32)
    requires i.Moveq? || i.MoveImmD? || i.LoadA6? || (i.Unary? && i.uop != NEG)
    ensures var t := Effects(env, i, r, v);
            && MovedFlags(t.ccr, r.ccr, t.d[i.n]) && t == r.(d := r.d[i.n := t.d[i.n]], ccr := t.ccr)
            && (i.Moveq? ==> Signed(t.d[i.n]) == if i.imm < 0x80 then i.imm else i.imm - 0x100)
            && (i.MoveImmD? ==> t.d[i.n] == i.long) && (i.LoadA6? ==> t.d[i.n] == v)
            && (i.Unary? && i.uop == CLR ==> t.d[i.n] == 0) && (i.Unary? && i.uop == TST ==> t.d[i.n] == r.d[i.n])
  {
    hide CcrOf, IndexedA6;
  }

  /** Stores change no register but the CCR, which gets the flags of what was stored. */
  lemma SourceFlags(env: Env, i: Instr, r: Regs, v: u32)
    requires i.Store? || i.StoreA6?
    ensures var t := Effects(env, i, r, v);
            var stored := if i.StoreA6? then r.d[i.n] else SrcValue(i.src, r, v);
            t == r.(ccr := t.ccr) && MovedFlags(t.ccr, r.ccr, stored)
  {
    hide CcrOf, IndexedA6;
  }

  /** Of the two registers of MOVE, ADD, SUB and CMP the second is the destination, which gets the first, the sum, the
      second less the first, and nothing. */
  lemma AluDestination(env: Env, op: AluOp, m: Reg, n: Reg, r: Regs)
    ensures var t := Effects(env, Alu(op, m, n), r, 0);
            && t == r.(d := r.d[n := t.d[n]], ccr := t.ccr) && t.ccr == AluResult(op, r.d[m], r.d[n], r.ccr).1
            && match op
               case MOVE => t.d[n] == r.d[m] && MovedFlags(t.ccr, r.ccr, r.d[m])
               case ADD => t.d[n] == Mod32(r.d[n] as int + r.d[m])
               case SUB => t.d[n] == Mod32(r.d[n] as int - r.d[m])
               case CMP => t.d[n] == r.d[n]
  {
    hide CcrOf, IndexedA6, Mod32;
  }

  /** SUBA, LEA d16(A6), and the displacements of LEA and BRA, which count from -32768 to 32767. */
  lemma AddressArithmetic(env: Env, m: Reg, n: Reg, d16: u16, r: Regs)
    ensures Mod32(Effects(env, Suba(m, n), r, 0).a[n] as int + r.a[m]) == r.a[n]
    ensures Effects(env, LeaA6(n, d16), r, 0) == r.(a := r.a[n := Mod32(r.a[6] + Signed16(d16))])
    ensures -0x8000 <= Signed16(d16) < 0x8000 && (Signed16(d16) == d16 || Signed16(d16) == d16 - 0x1_0000)
  {
  }

  // ---- Runs ----

  function Step(env: Env, s: State): State {
    match Decode(Window(s.mem, s.regs.pc, 10))
    case Some(i) => Exec(env, i, s)
    case None => var e := env.effect(s); State(e.regs, s.mem + e.writes)
  }

  function Run(env: Env, s: State, k: nat): State
    decreases k
  {
    if k == 0 then s else Run(env, Step(env, s), k - 1)
  }

  lemma {:induction false} RunAdd(env: Env, s: State, j: nat, k: nat)
    ensures Run(env, s, j + k) == Run(env, Run(env, s, j), k)
    decreases j
  {
    hide Step;
    if j > 0 { RunAdd(env, Step(env, s), j - 1, k); }
  }

  /** An instruction whose encoding lies at the program counter is the one executed. */
  lemma StepExecutes(env: Env, s: State, i: Instr)
    requires CodeAt(s.mem, s.regs.pc, Encode(i))
    ensures Step(env, s) == Exec(env, i, s)
  {
    DecodesAt(s, i);
  }

  // The same as a run of one step.
  lemma OneStep(env: Env, s: State, i: Instr) returns (t: State)
    requires CodeAt(s.mem, s.regs.pc, Encode(i))
    ensures t == Run(env, s, 1) == Exec(env, i, s)
  {
    hide Step, Exec, Encode, CodeAt;
    t := Exec(env, i, s);
    StepExecutes(env, s, i);
    assert Run(env, s, 1) == Run(env, Step(env, s), 0);
  }

  lemma DecodesAt(s: State, i: Instr)
    requires CodeAt(s.mem, s.regs.pc, Encode(i))
    ensures Decode(Window(s.mem, s.regs.pc, 10)) == Some(i)
  {
    SizeBound(i);
    var w := Window(s.mem, s.regs.pc, 10);
    assert w == Encode(i) + w[Size(i)..];
    DecodeEncode(i, w[Size(i)..]);
  }

  /** The effect of a list of instructions executed one after the other. */
  function ExecSeq(env: Env, p: seq<Instr>, s: State): State
    decreases |p|
  {
    if p == [] then s else ExecSeq(env, p[1..], Exec(env, p[0], s))
  }

  lemma {:induction false} ExecSeqAppend(env: Env, p: seq<Instr>, q: seq<Instr>, s: State)
    ensures ExecSeq(env, p + q, s) == ExecSeq(env, q, ExecSeq(env, p, s))
    decreases |p|
  {
    if p == [] {
      assert p + q == q;
    } else {
      assert (p + q)[0] == p[0] && (p + q)[1..] == p[1..] + q;
      ExecSeqAppend(env, p[1..], q, Exec(env, p[0], s));
    }
  }

  predicate Linear(i: Instr) {
    !i.Bra? && !i.Stop? && !i.Rts?
  }

  // Executing `i` writes nothing on [lo, hi).
  predicate Spares(i: Instr, s: State, lo: int, hi: int) {
    var n := |WriteData(i, s.regs, Loaded(i, s))|;
    n == 0 || Disjoint(WriteAddr(i, s.regs), n, lo, hi - lo)
  }

  predicate SparesAll(env: Env, p: seq<Instr>, s: State, lo: int, hi: int)
    decreases |p|
  {
    p == [] || (Spares(p[0], s, lo, hi) && SparesAll(env, p[1..], Exec(env, p[0], s), lo, hi))
  }

  lemma ExecSpares(env: Env, i: Instr, s: State, lo: int, hi: int)
    requires Spares(i, s, lo, hi)
    ensures Same(s.mem, Exec(env, i, s).mem, lo, hi)
  {
  }

  /** Linear code that leaves itself alone runs as the list it encodes, one step an instruction. */
  lemma {:induction false} RunLinear(env: Env, p: seq<Instr>, s: State, lo: int, hi: int)
    requires forall k :: 0 <= k < |p| ==> Linear(p[k])
    requires CodeAt(s.mem, s.regs.pc, EncodeAll(p))
    requires lo <= s.regs.pc && s.regs.pc + |EncodeAll(p)| <= hi < 0x1_0000_0000
    requires SparesAll(env, p, s, lo, hi)
    ensures Run(env, s, |p|) == ExecSeq(env, p, s)
    ensures ExecSeq(env, p, s).regs.pc == s.regs.pc + |EncodeAll(p)|
    ensures Same(s.mem, ExecSeq(env, p, s).mem, lo, hi)
    decreases |p|
  {
    hide Step, Exec, Encode, Spares;
    if p != [] {
      var i, s1 := p[0], Exec(env, p[0], s);
      CodeAtSplit(s.mem, s.regs.pc, Encode(i), EncodeAll(p[1..]));
      StepExecutes(env, s, i);
      ExecSpares(env, i, s, lo, hi);
      LinearPc(env, i, s);
      CodeKept(s.mem, s1.mem, s1.regs.pc, EncodeAll(p[1..]));
      RunLinear(env, p[1..], s1, lo, hi);
    }
  }

  lemma LinearPc(env: Env, i: Instr, s: State)
    requires Linear(i) && s.regs.pc + Size(i) < 0x1_0000_0000
    ensures Exec(env, i, s).regs.pc == s.regs.pc + Size(i)
  {
    hide Encode, Effects, Loaded, StoreBytes, WriteAddr, WriteData, Long;
  }

  lemma {:induction false} LinearSeqPc(env: Env, p: seq<Instr>, s: State)
    requires forall i | i in p :: Linear(i)
    requires s.regs.pc + |EncodeAll(p)| < 0x1_0000_0000
    ensures ExecSeq(env, p, s).regs.pc == s.regs.pc + |EncodeAll(p)|
    decreases |p|
  {
    hide Exec, Encode, Linear;
    if p != [] {
      assert p[0] in p;
      LinearPc(env, p[0], s);
      LinearSeqPc(env, p[1..], Exec(env, p[0], s));
    }
  }

  // ---- Lists of longword stores ----

  predicate AllStores(p: seq<Instr>) {
    forall k :: 0 <= k < |p| ==> p[k].Store?
  }

  // No store writes a longword that another store of the list reads or writes.
  predicate Apart(p: seq<Instr>)
    requires AllStores(p)
  {
    && (forall j, k :: 0 <= j < k < |p| ==> Disjoint(p[j].addr, 4, p[k].addr, 4))
    && (forall j, k :: 0 <= j < |p| && 0 <= k < |p| && p[k].src.Abs? ==> Disjoint(p[j].addr, 4, p[k].src.addr, 4))
  }

  function Value(src: Src, s: State): u32 {
    match src case D(n) => s.regs.d[n] case A(n) => s.regs.a[n] case Abs(a) => Long(s.mem, a)
  }

  lemma ExecStore(env: Env, i: Instr, s: State)
    requires i.Store?
    ensures var t := Exec(env, i, s);
            && t.regs == s.regs.(pc := t.regs.pc, ccr := MoveCcr(s.regs.ccr.x, Value(i.src, s)))
            && t.mem == StoreLong(s.mem, i.addr, Value(i.src, s))
  {
    hide StoreBytes, LongBytes, Long, Encode, MoveCcr;
  }

  /** A list of stores changes nothing outside its destinations, and of the registers only pc and CCR. */
  lemma {:induction false} StoresSpare(env: Env, p: seq<Instr>, s: State, lo: int, hi: int)
    requires AllStores(p)
    requires forall k :: 0 <= k < |p| ==> Disjoint(p[k].addr, 4, lo, hi - lo)
    ensures Same(s.mem, ExecSeq(env, p, s).mem, lo, hi)
    ensures var t := ExecSeq(env, p, s); t.regs == s.regs.(pc := t.regs.pc, ccr := t.regs.ccr)
    ensures SparesAll(env, p, s, lo, hi)
    decreases |p|
  {
    hide Exec, Encode, Long, StoreLong;
    if p != [] {
      var s1 := Exec(env, p[0], s);
      ExecStore(env, p[0], s);
      StoresSpare(env, p[1..], s1, lo, hi);
    }
  }

  /** Stores that are apart leave in each destination the value its source had at the start. */
  lemma {:induction false} StoresEffect(env: Env, p: seq<Instr>, s: State)
    requires AllStores(p) && Apart(p)
    ensures forall k :: 0 <= k < |p| ==> Long(ExecSeq(env, p, s).mem, p[k].addr) == Value(p[k].src, s)
    ensures p != [] ==> ExecSeq(env, p, s).regs.ccr == MoveCcr(s.regs.ccr.x, Value(p[|p| - 1].src, s))
    decreases |p|
  {
    hide Exec, Encode, Long, StoreLong;
    if p != [] {
      var s1, q := Exec(env, p[0], s), p[1..];
      ExecStore(env, p[0], s);
      StoresSpare(env, q, s1, p[0].addr, p[0].addr + 4);
      LongKept(s1.mem, ExecSeq(env, q, s1).mem, p[0].addr);
      StoresEffect(env, q, s1);
      forall k | 0 <= k < |q|
        ensures Value(q[k].src, s1) == Value(q[k].src, s)
      {
        assert q[k] == p[k + 1];
        if q[k].src.Abs? { LongKept(s.mem, s1.mem, q[k].src.addr); }
      }
    }
  }
}
