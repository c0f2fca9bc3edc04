/** Which bytes a step depends on or changes, and what follows for two memories
    that differ only on bytes a run does not touch. */
module Footprint {
  import opened Bytes
  import opened M68k
  import opened Machine
  import opened Options

  // How many bytes decide that the model does not decode an instruction.
  function HeadLen(b: seq<byte>): nat
    requires |b| >= 2
  {
    var f := WordFields(WordOf(b)); if f.line == 15 && Format(f).Some? then 4 else 2
  }

  // Address x is fetched, read or written by the step from s.
  ghost predicate Touches(env: Env, s: State, x: int) {
    match Decode(Window(s.mem, s.regs.pc, 10))
    case Some(i) =>
      || s.regs.pc <= x < s.regs.pc + Size(i)
      || (ReadAddr(i, s.regs).Some? && ReadAddr(i, s.regs).value <= x < ReadAddr(i, s.regs).value + 4)
      || WriteAddr(i, s.regs) <= x < WriteAddr(i, s.regs) + |WriteData(i, s.regs, Loaded(i, s))|
    case None =>
      || s.regs.pc <= x < s.regs.pc + HeadLen(Window(s.mem, s.regs.pc, 10))
      || x in env.touches(s) || x in env.effect(s).writes
  }

  ghost predicate Avoids(env: Env, s: State, C: iset<int>) {
    forall x :: x in C ==> !Touches(env, s, x)
  }

  // None of the first k steps from s touches C.
  ghost predicate RunAvoids(env: Env, s: State, k: nat, C: iset<int>)
    decreases k
  {
    k == 0 || (Avoids(env, s, C) && RunAvoids(env, Step(env, s), k - 1, C))
  }

  /** The environment's instructions depend only on the bytes they are said to touch. */
  ghost predicate Local(env: Env) {
    forall s: State, m: Mem :: LocalAt(env, s, m)
  }

  ghost predicate LocalAt(env: Env, s: State, m: Mem) {
    (forall x :: x in env.touches(s) ==> Byte(m, x) == Byte(s.mem, x)) ==> env.effect(State(s.regs, m)) == env.effect(s)
  }

  ghost predicate AgreeOff(C: iset<int>, m: Mem, m': Mem) {
    forall x :: x !in C ==> Byte(m', x) == Byte(m, x)
  }

  ghost predicate AgreeOn(C: iset<int>, m: Mem, m': Mem) {
    forall x :: x in C ==> Byte(m', x) == Byte(m, x)
  }

  lemma DecodeNoneHead(b: seq<byte>, b': seq<byte>)
    requires |b| == |b'| == 10 && b[..HeadLen(b)] == b'[..HeadLen(b)] && Decode(b) == None
    ensures Decode(b') == None
  {
    hide LongOf, FieldsOf, OpsOf, OpsBytes, Encode, WordFields;
    var f := WordFields(WordOf(b));
    assert b[0] == b[..HeadLen(b)][0] && b[1] == b[..HeadLen(b)][1];
    assert WordOf(b) == WordOf(b');
    if Format(f).Some? && f.line == 15 {
      assert b[2] == b[..4][2] && b[3] == b[..4][3];
      assert WordOf(b[2..]) == WordOf(b'[2..]);
    }
  }

  /** A step that avoids C goes the same way on any memory that agrees off C, and leaves C alone. */
  lemma StepAgrees(env: Env, C: iset<int>, s: State, m: Mem)
    requires Local(env) && Avoids(env, s, C) && AgreeOff(C, s.mem, m)
    ensures var t, u := Step(env, s), Step(env, State(s.regs, m));
            u.regs == t.regs && AgreeOff(C, t.mem, u.mem) && AgreeOn(C, s.mem, t.mem) && AgreeOn(C, m, u.mem)
  {
    hide Step;
    match Decode(Window(s.mem, s.regs.pc, 10))
    case Some(i) => KnownAgrees(env, C, s, m, i);
    case None => OtherAgrees(env, C, s, m);
  }

  lemma KnownAgrees(env: Env, C: iset<int>, s: State, m: Mem, i: Instr)
    requires Decode(Window(s.mem, s.regs.pc, 10)) == Some(i)
    requires Avoids(env, s, C) && AgreeOff(C, s.mem, m)
    ensures var t, u := Step(env, s), Step(env, State(s.regs, m));
            u.regs == t.regs && AgreeOff(C, t.mem, u.mem) && AgreeOn(C, s.mem, t.mem) && AgreeOn(C, m, u.mem)
  {
    hide Step, Decode, Encode, Long, WriteData, WriteAddr, ReadAddr, NextRegs, Byte;
    var w, v := Window(s.mem, s.regs.pc, 10), State(s.regs, m);
    EncodeDecode(w);
    assert CodeAt(s.mem, s.regs.pc, Encode(i)) by {
      forall k | 0 <= k < Size(i) ensures Byte(s.mem, s.regs.pc + k) == Encode(i)[k] { assert w[k] == w[..Size(i)][k]; }
    }
    assert CodeAt(m, s.regs.pc, Encode(i)) by {
      forall k | 0 <= k < Size(i) ensures Byte(m, s.regs.pc + k) == Encode(i)[k] {
        assert Touches(env, s, s.regs.pc + k);
      }
    }
    StepExecutes(env, s, i);
    StepExecutes(env, v, i);
    LoadedAgrees(env, C, s, m, i);
    var data := WriteData(i, s.regs, Loaded(i, s));
    forall x | x in C
      ensures !(WriteAddr(i, s.regs) <= x < WriteAddr(i, s.regs) + |data|)
    {
      assert !Touches(env, s, x);
    }
  }

  lemma LoadedAgrees(env: Env, C: iset<int>, s: State, m: Mem, i: Instr)
    requires Decode(Window(s.mem, s.regs.pc, 10)) == Some(i)
    requires Avoids(env, s, C) && AgreeOff(C, s.mem, m)
    ensures Loaded(i, State(s.regs, m)) == Loaded(i, s)
  {
    hide Decode, Encode, Long, WriteData, WriteAddr, ReadAddr, Byte;
    if ReadAddr(i, s.regs).Some? {
      var a := ReadAddr(i, s.regs).value;
      forall x | a <= x < a + 4
        ensures Byte(m, x) == Byte(s.mem, x)
      {
        assert Touches(env, s, x);
      }
      LongKept(s.mem, m, a);
    }
  }

  lemma OtherAgrees(env: Env, C: iset<int>, s: State, m: Mem)
    requires Decode(Window(s.mem, s.regs.pc, 10)) == None
    requires Local(env) && Avoids(env, s, C) && AgreeOff(C, s.mem, m)
    ensures var t, u := Step(env, s), Step(env, State(s.regs, m));
            u.regs == t.regs && AgreeOff(C, t.mem, u.mem) && AgreeOn(C, s.mem, t.mem) && AgreeOn(C, m, u.mem)
  {
    hide Decode, HeadLen;
    var w, w' := Window(s.mem, s.regs.pc, 10), Window(m, s.regs.pc, 10);
    HeadLenBound(w);
    forall k | 0 <= k < HeadLen(w)
      ensures w'[k] == w[k]
    {
      assert Touches(env, s, s.regs.pc + k);
    }
    assert w[..HeadLen(w)] == w'[..HeadLen(w)];
    DecodeNoneHead(w, w');
    forall x | x in env.touches(s)
      ensures Byte(m, x) == Byte(s.mem, x)
    {
      assert Touches(env, s, x);
    }
    assert LocalAt(env, s, m);
    forall x | x in C
      ensures x !in env.effect(s).writes
    {
      assert !Touches(env, s, x);
    }
  }

  lemma HeadLenBound(b: seq<byte>)
    requires |b| == 10
    ensures 2 <= HeadLen(b) <= 4
  {
  }

  /** A run that avoids C goes the same way, step for step, on any memory that agrees off C. */
  lemma {:induction false} RunAgrees(env: Env, C: iset<int>, s: State, m: Mem, k: nat)
    requires Local(env) && RunAvoids(env, s, k, C) && AgreeOff(C, s.mem, m)
    ensures var t, u := Run(env, s, k), Run(env, State(s.regs, m), k);
            u.regs == t.regs && AgreeOff(C, t.mem, u.mem) && AgreeOn(C, s.mem, t.mem) && AgreeOn(C, m, u.mem)
    decreases k
  {
    hide Step, Local, Avoids, Byte;
    if k > 0 {
      StepAgrees(env, C, s, m);
      var t, u := Step(env, s), Step(env, State(s.regs, m));
      assert u == State(t.regs, u.mem);
      RunAgrees(env, C, t, u.mem, k - 1);
    }
  }
}
