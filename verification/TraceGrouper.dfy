/** The CPU trace of the simulator: fetched words arrive one by one, and an
    eight-entry window decides which of them are opcodes (verilate() in
    sim_main.cpp). The disassembler is a parameter. */
module TraceGrouper {
  import opened Bytes

  const FETCH_BUF_SIZE: nat := 8
  const LOOKAHEAD: nat := 5
  const NO_PC: u32 := 0xFFFF_FFFF

  datatype Fetch = Fetch(pc: u32, word: u16, fc: byte)
  datatype Line = Line(pc: u32, word: u16, fc: byte, text: string)

  // disassemble_68k_ext_len: text and byte length from a pc and at most five words
  type Decoder = (u32, seq<u16>) -> (string, nat)

  // ---- Decoding one run of sequential fetches as a whole ----

  function Words(r: seq<Fetch>): (w: seq<u16>)
    ensures |w| == |r| && forall k :: 0 <= k < |r| ==> w[k] == r[k].word
  {
    seq(|r|, k requires 0 <= k < |r| => r[k].word)
  }

  function Ahead(r: seq<Fetch>): seq<Fetch> {
    if |r| <= LOOKAHEAD then r else r[..LOOKAHEAD]
  }

  /** The line for the instruction at the front of r. */
  function LineOf(dec: Decoder, r: seq<Fetch>): Line
    requires r != []
  {
    Line(r[0].pc, r[0].word, r[0].fc, dec(r[0].pc, Words(Ahead(r))).0)
  }

  /** Its length in words; a length below one word counts as one. */
  function StepOf(dec: Decoder, r: seq<Fetch>): nat
    requires r != []
    ensures StepOf(dec, r) >= 1
  {
    var len := dec(r[0].pc, Words(Ahead(r))).1;
    (if len < 2 then 2 else len) / 2
  }

  function Clamp(n: nat, max: nat): nat {
    if n < max then n else max
  }

  /** The lines of a run decoded as a whole, no instruction counting for more than eight words. */
  function DecodeRun(dec: Decoder, r: seq<Fetch>): seq<Line>
    decreases |r|
  {
    if r == [] then []
    else [LineOf(dec, r)] + DecodeRun(dec, r[Clamp(Clamp(StepOf(dec, r), FETCH_BUF_SIZE), |r|)..])
  }

  /** The lines of a run decoded as a whole, without that limit. */
  function DecodeWhole(dec: Decoder, r: seq<Fetch>): seq<Line>
    decreases |r|
  {
    if r == [] then [] else [LineOf(dec, r)] + DecodeWhole(dec, r[Clamp(StepOf(dec, r), |r|)..])
  }

  // ---- Decoding a history run by run ----

  predicate Follows(e: Fetch, last: Fetch) {
    e.pc == Mod32(last.pc + 2)
  }

  ghost predicate Sequential(r: seq<Fetch>) {
    forall k :: 0 < k < |r| ==> Follows(r[k], r[k - 1])
  }

  /** The history without fetches that repeat the pc of the one before; `last` is the pc before the first. */
  function Dedup(h: seq<Fetch>): (d: seq<Fetch>)
    decreases |h|
  {
    if h == [] then []
    else
      var d := Dedup(h[..|h| - 1]);
      if h[|h| - 1].pc == LastPc(d) then d else d + [h[|h| - 1]]
  }

  function LastPc(d: seq<Fetch>): u32 {
    if d == [] then NO_PC else d[|d| - 1].pc
  }

  /** The first fetch counts unless its pc is the one the recorder starts with. */
  lemma FirstFetch(e: Fetch)
    ensures Dedup([e]) == if e.pc == 0xFFFF_FFFF then [] else [e]
  {
    assert [e][..0] == [];
  }

  /** Where the last maximal run of sequential fetches begins. */
  function LastRun(d: seq<Fetch>): (k: nat)
    ensures k <= |d| && (d != [] ==> k < |d|)
    decreases |d|
  {
    if |d| <= 1 then 0
    else if Follows(d[|d| - 1], d[|d| - 2]) then LastRun(d[..|d| - 1])
    else |d| - 1
  }

  function DecodeAll(dec: Decoder, d: seq<Fetch>): seq<Line>
    decreases |d|
  {
    if d == [] then [] else DecodeAll(dec, d[..LastRun(d)]) + DecodeRun(dec, d[LastRun(d)..])
  }

  // ---- What has been emitted of a run that may still grow ----

  // However the run goes on, its lines are `emitted` followed by the lines of the buffer going on alike.
  ghost predicate Emits(dec: Decoder, consumed: seq<Fetch>, b: seq<Fetch>, emitted: seq<Line>) {
    forall x: seq<Fetch> :: DecodeRun(dec, consumed + b + x) == emitted + DecodeRun(dec, b + x)
  }

  lemma EmitsNothing(dec: Decoder, e: Fetch)
    ensures Emits(dec, [], [e], [])
  {
    forall x: seq<Fetch>
      ensures DecodeRun(dec, [] + [e] + x) == [] + DecodeRun(dec, [e] + x)
    {
      assert [] + [e] + x == [e] + x;
    }
  }

  lemma EmitsAppend(dec: Decoder, consumed: seq<Fetch>, b: seq<Fetch>, emitted: seq<Line>, e: Fetch)
    requires Emits(dec, consumed, b, emitted)
    ensures Emits(dec, consumed, b + [e], emitted)
  {
    hide DecodeRun;
    forall x: seq<Fetch>
      ensures DecodeRun(dec, consumed + (b + [e]) + x) == emitted + DecodeRun(dec, b + [e] + x)
    {
      assert consumed + (b + [e]) + x == consumed + b + ([e] + x);
      assert b + [e] + x == b + ([e] + x);
    }
  }

  /** With five words of lookahead in the buffer, more fetches cannot change the first instruction. */
  lemma FrontFixed(dec: Decoder, b: seq<Fetch>, x: seq<Fetch>)
    requires |b| >= LOOKAHEAD
    ensures LineOf(dec, b + x) == LineOf(dec, b) && StepOf(dec, b + x) == StepOf(dec, b)
  {
    assert Ahead(b + x) == Ahead(b);
  }

  /** Emitting the oldest entry of a full buffer and dropping the words of its instruction. */
  lemma EmitsOldest(dec: Decoder, consumed: seq<Fetch>, b: seq<Fetch>, emitted: seq<Line>)
    requires Emits(dec, consumed, b, emitted) && |b| == FETCH_BUF_SIZE
    ensures var n := Clamp(StepOf(dec, b), FETCH_BUF_SIZE);
            Emits(dec, consumed + b[..n], b[n..], emitted + [LineOf(dec, b)])
  {
    hide DecodeRun, LineOf, StepOf;
    var n := Clamp(StepOf(dec, b), FETCH_BUF_SIZE);
    forall x: seq<Fetch>
      ensures DecodeRun(dec, consumed + b[..n] + b[n..] + x) == emitted + [LineOf(dec, b)] + DecodeRun(dec, b[n..] + x)
    {
      OldestFirst(dec, b, x);
      assert consumed + b[..n] + b[n..] + x == consumed + b + x;
      assert emitted + ([LineOf(dec, b)] + DecodeRun(dec, b[n..] + x)) == emitted + [LineOf(dec, b)] + DecodeRun(dec, b[n..] + x);
    }
  }

  // However a full buffer goes on, its first line and what that steps over are settled.
  lemma OldestFirst(dec: Decoder, b: seq<Fetch>, x: seq<Fetch>)
    requires |b| == FETCH_BUF_SIZE
    ensures DecodeRun(dec, b + x) == [LineOf(dec, b)] + DecodeRun(dec, b[Clamp(StepOf(dec, b), FETCH_BUF_SIZE)..] + x)
  {
    hide DecodeRun, LineOf, StepOf;
    FrontFixed(dec, b, x);
    NextLines(dec, b + x);
    var n := Clamp(StepOf(dec, b), FETCH_BUF_SIZE);
    assert (b + x)[n..] == b[n..] + x;
  }

  // ---- The invariant of the window ----

  // What the lines and fetches so far are made of: `earlier`, the lines of the runs before the current
  // one; `emitted`, the lines of the current run that are out; `consumed`, the fetches of the current run
  // that have left the buffer.
  datatype Ghost = Ghost(earlier: seq<Line>, emitted: seq<Line>, consumed: seq<Fetch>)

  /** d is the deduplicated history, b the buffer and log the lines emitted so far. */
  ghost predicate Inv(dec: Decoder, d: seq<Fetch>, b: seq<Fetch>, log: seq<Line>, g: Ghost) {
    && |b| <= FETCH_BUF_SIZE && Sequential(b) && (b == [] <==> d == []) && LastPc(b) == LastPc(d)
    && log == g.earlier + g.emitted && g.earlier == DecodeAll(dec, d[..LastRun(d)])
    && d[LastRun(d)..] == g.consumed + b && Emits(dec, g.consumed, b, g.emitted)
  }

  /** The lines emitted so far, followed by a flush of the buffer, are the run-by-run decoding of the
      whole history. */
  lemma InvRefines(dec: Decoder, d: seq<Fetch>, b: seq<Fetch>, log: seq<Line>, g: Ghost)
    requires Inv(dec, d, b, log, g)
    ensures log + DecodeRun(dec, b) == DecodeAll(dec, d)
  {
    hide Dedup, LastRun, Sequential, LineOf, StepOf, Emits, DecodeRun;
    var run := d[LastRun(d)..];
    EmitsEnd(dec, g.consumed, b, g.emitted);
    RunOfNone(dec, b);
    RunOfNone(dec, run);
    assert log + DecodeRun(dec, b) == g.earlier + (g.emitted + DecodeRun(dec, b));
    if d == [] { assert d[..LastRun(d)] == []; }
  }

  lemma EmitsEnd(dec: Decoder, consumed: seq<Fetch>, b: seq<Fetch>, emitted: seq<Line>)
    requires Emits(dec, consumed, b, emitted)
    ensures DecodeRun(dec, consumed + b) == emitted + DecodeRun(dec, b)
  {
    hide DecodeRun;
    assert consumed + b + [] == consumed + b && b + [] == b;
    assert DecodeRun(dec, consumed + b + []) == emitted + DecodeRun(dec, b + []);
  }

  lemma InvInit(dec: Decoder)
    ensures Inv(dec, [], [], [], Ghost([], [], [])) && Dedup([]) == [] && LastPc([]) == NO_PC
  {
    hide DecodeRun;
    forall x: seq<Fetch>
      ensures DecodeRun(dec, [] + [] + x) == [] + DecodeRun(dec, [] + x)
    {
      assert [] + [] + x == [] + x;
    }
  }

  /** A fetch that does not follow the last one begins a new run, once the buffer has been flushed. */
  lemma InvBreak(dec: Decoder, d: seq<Fetch>, b: seq<Fetch>, log: seq<Line>, g: Ghost, e: Fetch)
    requires Inv(dec, d, b, log, g) && (d == [] || !Follows(e, d[|d| - 1]))
    ensures var log' := log + DecodeRun(dec, b); Inv(dec, d + [e], [e], log', Ghost(log', [], []))
  {
    hide Dedup, LineOf, StepOf, Emits, DecodeRun, DecodeAll, LastRun, Follows;
    InvRefines(dec, d, b, log, g);
    EmitsNothing(dec, e);
    NewRun(d, e);
    RunGrows(d, |d|, [], [], e);
    assert d[..|d|] == d;
  }

  lemma NewRun(d: seq<Fetch>, e: Fetch)
    requires d == [] || !Follows(e, d[|d| - 1])
    ensures LastRun(d + [e]) == |d|
  {
    hide Follows;
  }

  /** A fetch that follows the last one joins the run and the buffer. */
  lemma InvAppend(dec: Decoder, d: seq<Fetch>, c: seq<Fetch>, log: seq<Line>, g: Ghost, e: Fetch)
    requires d != [] && Follows(e, d[|d| - 1])
    requires log == g.earlier + g.emitted && g.earlier == DecodeAll(dec, d[..LastRun(d)])
    requires d[LastRun(d)..] == g.consumed + c && Emits(dec, g.consumed, c, g.emitted)
    requires |c| < FETCH_BUF_SIZE && Sequential(c) && (c == [] || LastPc(c) == LastPc(d))
    ensures Inv(dec, d + [e], c + [e], log, g)
  {
    hide Dedup, LineOf, StepOf, Emits, DecodeRun, DecodeAll, LastRun, Sequential, Follows;
    EmitsAppend(dec, g.consumed, c, g.emitted, e);
    LastRunGrows(d, e);
    SequentialGrows(d, c, e);
    RunGrows(d, LastRun(d), g.consumed, c, e);
  }

  lemma RunGrows(d: seq<Fetch>, k: nat, consumed: seq<Fetch>, c: seq<Fetch>, e: Fetch)
    requires k <= |d| && d[k..] == consumed + c
    ensures (d + [e])[..k] == d[..k] && (d + [e])[k..] == consumed + (c + [e])
  {
    assert (d + [e])[k..] == d[k..] + [e];
    assert consumed + c + [e] == consumed + (c + [e]);
  }

  lemma SequentialGrows(d: seq<Fetch>, c: seq<Fetch>, e: Fetch)
    requires d != [] && Follows(e, d[|d| - 1]) && Sequential(c) && (c == [] || LastPc(c) == LastPc(d))
    ensures Sequential(c + [e])
  {
  }

  lemma LastRunGrows(d: seq<Fetch>, e: Fetch)
    requires d != [] && Follows(e, d[|d| - 1])
    ensures LastRun(d + [e]) == LastRun(d)
  {
    assert (d + [e])[..|d|] == d;
  }

  // ---- The window ----

  class Grouper {
    const dec: Decoder
    const buf: array<Fetch>
    var len: nat
    var lastPc: u32
    var log: seq<Line>

    ghost var hist: seq<Fetch> // every fetch so far
    ghost var parts: Ghost

    ghost predicate Valid()
      reads this, buf
    {
      && buf.Length == FETCH_BUF_SIZE && len <= FETCH_BUF_SIZE && lastPc == LastPc(Dedup(hist))
      && Inv(dec, Dedup(hist), buf[..len], log, parts)
    }

    constructor (decoder: Decoder)
      ensures Valid() && dec == decoder && hist == [] && log == [] && fresh(buf)
    {
      hide Inv, Dedup;
      dec := decoder;
      buf := new Fetch[FETCH_BUF_SIZE](_ => Fetch(0, 0, 0));
      len, lastPc, log := 0, NO_PC, [];
      hist, parts := [], Ghost([], [], []);
      new;
      InvInit(dec);
      assert buf[..0] == [];
    }

    /** The opcode words visible from entry i, at most five. */
    method Opwords(i: nat, avail: nat) returns (w: seq<u16>)
      requires i + avail <= buf.Length
      ensures w == Words(Ahead(buf[i..i + avail]))
    {
      w := [];
      var k := 0;
      while k < avail && k < LOOKAHEAD
        invariant k <= avail && k <= LOOKAHEAD && |w| == k
        invariant forall j :: 0 <= j < k ==> w[j] == buf[i + j].word
      {
        w := w + [buf[i + k].word];
        k := k + 1;
      }
    }

    /** Decodes the buffered run as a whole and empties the buffer. */
    method Flush()
      requires len <= buf.Length
      modifies this`len, this`log
      ensures len == 0 && log == old(log) + DecodeWhole(dec, old(buf[..len]))
    {
      hide LineOf, StepOf, DecodeWhole, Rest, Words, Ahead;
      ghost var b := buf[..len];
      var i := 0;
      RestWhole(dec, b, i);
      while i < len
        invariant len == old(len) && log + Rest(dec, b, i) == old(log) + DecodeWhole(dec, b)
        decreases len - i
      {
        var e := buf[i];
        var opwords := Opwords(i, len - i);
        assert buf[i..len] == b[i..];
        var (text, bytes) := dec(e.pc, opwords);
        RestStep(dec, b, i, text, bytes);
        if bytes < 2 { bytes := 2; }
        var words := bytes / 2;
        log := log + [Line(e.pc, e.word, e.fc, text)];
        i := i + words;
      }
      RestWhole(dec, b, i);
      len := 0;
    }

    /** Emits the oldest entry of a full buffer and shifts the words of its instruction out. */
    method Oldest()
      requires len == FETCH_BUF_SIZE == buf.Length
      modifies this`len, this`log, buf
      ensures var b := old(buf[..len]);
              var n := Clamp(StepOf(dec, b), FETCH_BUF_SIZE);
              && len == FETCH_BUF_SIZE - n && buf[..len] == b[n..] && log == old(log) + [LineOf(dec, b)]
    {
      hide LineOf, StepOf, Words, Ahead;
      ghost var b := buf[..];
      assert buf[..len] == b;
      FrontWindow(b, buf[0..0 + LOOKAHEAD]);
      var e := buf[0];
      var opwords := Opwords(0, LOOKAHEAD);
      var (text, bytes) := dec(e.pc, opwords);
      FrontLine(dec, b, text, bytes);
      if bytes < 2 { bytes := 2; }
      var words := bytes / 2;
      if words > FETCH_BUF_SIZE { words := FETCH_BUF_SIZE; }
      log := log + [Line(e.pc, e.word, e.fc, text)];
      Shift(words);
    }

    /** Moves the entries from `words` on to the front. */
    method Shift(words: nat)
      requires words <= len == FETCH_BUF_SIZE == buf.Length
      modifies this`len, buf
      ensures len == FETCH_BUF_SIZE - words && buf[..len] == old(buf[..])[words..]
    {
      ghost var b := buf[..];
      var keep := len - words;
      for k := 0 to keep
        invariant forall j :: 0 <= j < k ==> buf[j] == b[j + words]
        invariant forall j :: k <= j < FETCH_BUF_SIZE ==> buf[j] == b[j]
      {
        buf[k] := buf[k + words];
      }
      len := keep;
    }

    method Push(e: Fetch)
      requires len < FETCH_BUF_SIZE == buf.Length
      modifies this`len, buf
      ensures len == old(len) + 1 && buf[..len] == old(buf[..len]) + [e]
    {
      buf[len] := e;
      len := len + 1;
    }

    /** One fetched word: repeated pcs are dropped, a break in the sequence flushes the window, a full
        window first emits its oldest instruction. What is out and what a flush would add are always the
        run-by-run decoding of the whole history. */
    method OnFetch(e: Fetch)
      requires Valid()
      modifies this, buf
      ensures Valid() && hist == old(hist) + [e]
      ensures log + DecodeRun(dec, buf[..len]) == DecodeAll(dec, Dedup(hist))
    {
      hide Inv, Dedup, DecodeRun, DecodeAll;
      DedupSnoc(hist, e);
      ghost var d := Dedup(hist);
      hist := hist + [e];
      if e.pc != lastPc {
        lastPc := e.pc;
        Take(e, d);
      }
      InvRefines(dec, Dedup(hist), buf[..len], log, parts);
    }

    /** A fetch with a new pc: d is the deduplicated history before it. */
    method Take(e: Fetch, ghost d: seq<Fetch>)
      requires buf.Length == FETCH_BUF_SIZE && len <= FETCH_BUF_SIZE && Inv(dec, d, buf[..len], log, parts)
      modifies this`len, this`log, this`parts, buf
      ensures len <= FETCH_BUF_SIZE && Inv(dec, d + [e], buf[..len], log, parts)
    {
      hide DecodeRun, DecodeWhole, DecodeAll, Emits, LastRun, LineOf, StepOf, Dedup, Inv, OldestParts;
      ghost var b := buf[..len];
      InvBounds(dec, d, b, log, parts);
      var sequential := len > 0 && e.pc == Mod32(buf[len - 1].pc + 2);
      if !sequential && len > 0 {
        Flush();
      }
      if !sequential {
        WholeIsRun(dec, b);
        RunOfNone(dec, b);
        InvBreak(dec, d, b, old(log), parts, e);
        parts := Ghost(log, [], []);
        assert log == old(log) + DecodeRun(dec, b);
        assert buf[..len] + [e] == [e];
      }
      if len < FETCH_BUF_SIZE {
        if sequential { InvJoin(dec, d, b, log, parts, e); }
      } else {
        Oldest();
        InvOldest(dec, d, b, old(log), parts, e);
        parts := OldestParts(dec, b, parts);
      }
      Push(e);
    }
  }

  lemma InvBounds(dec: Decoder, d: seq<Fetch>, b: seq<Fetch>, log: seq<Line>, g: Ghost)
    requires Inv(dec, d, b, log, g)
    ensures |b| <= FETCH_BUF_SIZE && (b == [] <==> d == [])
    ensures d != [] ==> d[|d| - 1].pc == b[|b| - 1].pc
  {
    hide Emits, DecodeAll, LastRun;
  }

  /** A fetch that follows a buffer with room. */
  lemma InvJoin(dec: Decoder, d: seq<Fetch>, b: seq<Fetch>, log: seq<Line>, g: Ghost, e: Fetch)
    requires Inv(dec, d, b, log, g) && 0 < |b| < FETCH_BUF_SIZE && Follows(e, b[|b| - 1])
    ensures Inv(dec, d + [e], b + [e], log, g)
  {
    hide Emits, DecodeAll, LastRun, DecodeRun, LineOf, StepOf;
    InvAppend(dec, d, b, log, g, e);
  }

  lemma RunOfNone(dec: Decoder, b: seq<Fetch>)
    ensures b == [] ==> DecodeRun(dec, b) == []
  {
  }

  function OldestParts(dec: Decoder, b: seq<Fetch>, g: Ghost): Ghost
    requires b != []
  {
    var n := Clamp(Clamp(StepOf(dec, b), FETCH_BUF_SIZE), |b|);
    Ghost(g.earlier, g.emitted + [LineOf(dec, b)], g.consumed + b[..n])
  }

  /** A fetch that follows a full buffer: its oldest instruction goes out and the fetch comes in. */
  lemma InvOldest(dec: Decoder, d: seq<Fetch>, b: seq<Fetch>, log: seq<Line>, g: Ghost, e: Fetch)
    requires Inv(dec, d, b, log, g) && |b| == FETCH_BUF_SIZE && Follows(e, b[|b| - 1])
    ensures var n := Clamp(StepOf(dec, b), FETCH_BUF_SIZE);
            Inv(dec, d + [e], b[n..] + [e], log + [LineOf(dec, b)], OldestParts(dec, b, g))
  {
    hide LineOf, StepOf, Emits, DecodeRun, DecodeAll, LastRun;
    var n := Clamp(StepOf(dec, b), FETCH_BUF_SIZE);
    EmitsOldest(dec, g.consumed, b, g.emitted);
    assert g.consumed + b[..n] + b[n..] == g.consumed + b;
    assert d[|d| - 1] == d[LastRun(d)..][|d| - LastRun(d) - 1] == b[|b| - 1];
    InvAppend(dec, d, b[n..], log + [LineOf(dec, b)], OldestParts(dec, b, g), e);
  }

  lemma DedupSnoc(h: seq<Fetch>, e: Fetch)
    ensures Dedup(h + [e]) == if e.pc == LastPc(Dedup(h)) then Dedup(h) else Dedup(h) + [e]
  {
    assert (h + [e])[..|h + [e]| - 1] == h;
  }

  lemma FrontWindow(b: seq<Fetch>, w: seq<Fetch>)
    requires |b| == FETCH_BUF_SIZE && w == b[..LOOKAHEAD]
    ensures Words(Ahead(w)) == Words(Ahead(b))
  {
    assert Ahead(w) == Ahead(b);
  }

  lemma FrontLine(dec: Decoder, b: seq<Fetch>, text: string, len: nat)
    requires b != [] && (text, len) == dec(b[0].pc, Words(Ahead(b)))
    ensures LineOf(dec, b) == Line(b[0].pc, b[0].word, b[0].fc, text)
    ensures StepOf(dec, b) == (if len < 2 then 2 else len) / 2
  {
  }

  // The lines of a run from entry i on.
  function Rest(dec: Decoder, b: seq<Fetch>, i: nat): seq<Line> {
    if i <= |b| then DecodeWhole(dec, b[i..]) else []
  }

  lemma RestWhole(dec: Decoder, b: seq<Fetch>, i: nat)
    ensures i == 0 ==> Rest(dec, b, i) == DecodeWhole(dec, b)
    ensures i >= |b| ==> Rest(dec, b, i) == []
  {
    if i == 0 { assert b[0..] == b; }
    if i == |b| { assert b[i..] == []; }
  }

  lemma RestStep(dec: Decoder, b: seq<Fetch>, i: nat, text: string, len: nat)
    requires i < |b| && (text, len) == dec(b[i].pc, Words(Ahead(b[i..])))
    ensures var n := (if len < 2 then 2 else len) / 2;
            Rest(dec, b, i) == [Line(b[i].pc, b[i].word, b[i].fc, text)] + Rest(dec, b, i + n)
  {
    hide LineOf, StepOf, Words, Ahead;
    var r := b[i..];
    FrontLine(dec, r, text, len);
    var n := StepOf(dec, r);
    assert DecodeWhole(dec, r) == [LineOf(dec, r)] + DecodeWhole(dec, r[Clamp(n, |r|)..]);
    if n <= |r| {
      assert r[n..] == b[i + n..];
    } else {
      assert r[|r|..] == [];
    }
  }

  /** A run that fits the buffer decodes alike with and without the eight-word limit. */
  lemma {:induction false} WholeIsRun(dec: Decoder, r: seq<Fetch>)
    requires |r| <= FETCH_BUF_SIZE
    ensures DecodeWhole(dec, r) == DecodeRun(dec, r)
    decreases |r|
  {
    hide LineOf, StepOf;
    if r != [] {
      WholeIsRun(dec, r[Clamp(StepOf(dec, r), |r|)..]);
    }
  }

  // ---- Instructions longer than the window ----

  // No instruction of the run, decoded as a whole, steps over more than eight words with more to come.
  predicate Fits(dec: Decoder, r: seq<Fetch>)
    decreases |r|
  {
    r == [] || ((StepOf(dec, r) <= FETCH_BUF_SIZE || |r| <= FETCH_BUF_SIZE) && Fits(dec, r[Clamp(StepOf(dec, r), |r|)..]))
  }

  /** The window shows a run exactly as whole-run decoding without a limit would, if and only if no
      instruction in it is longer than eight words with fetches beyond them. */
  lemma {:induction false} WindowExact(dec: Decoder, r: seq<Fetch>)
    requires Sequential(r) && |r| < 0x8000_0000
    ensures DecodeRun(dec, r) == DecodeWhole(dec, r) <==> Fits(dec, r)
    decreases |r|
  {
    hide LineOf, StepOf;
    if r != [] {
      var n := Clamp(StepOf(dec, r), |r|);
      var m := Clamp(Clamp(StepOf(dec, r), FETCH_BUF_SIZE), |r|);
      if n == m {
        WindowExact(dec, r[n..]);
        assert DecodeRun(dec, r)[1..] == DecodeRun(dec, r[n..]) && DecodeWhole(dec, r)[1..] == DecodeWhole(dec, r[n..]);
      } else {
        SecondLine(dec, r, m, n);
        assert DecodeRun(dec, r)[1..] == DecodeRun(dec, r[m..]) && DecodeWhole(dec, r)[1..] == DecodeWhole(dec, r[n..]);
      }
    }
  }

  // Skipping different numbers of entries shows in the second line.
  lemma SecondLine(dec: Decoder, r: seq<Fetch>, m: nat, n: nat)
    requires Sequential(r) && |r| < 0x8000_0000 && m < n <= |r|
    ensures DecodeRun(dec, r[m..]) != DecodeWhole(dec, r[n..])
  {
    hide DecodeRun, DecodeWhole, Sequential;
    FirstPc(dec, r[m..]);
    FirstPc(dec, r[n..]);
    if n < |r| { PcAt(r, m, n); }
  }

  lemma FirstPc(dec: Decoder, r: seq<Fetch>)
    ensures |DecodeRun(dec, r)| == 0 <==> r == []
    ensures |DecodeWhole(dec, r)| == 0 <==> r == []
    ensures r != [] ==> DecodeRun(dec, r)[0].pc == DecodeWhole(dec, r)[0].pc == r[0].pc
  {
    hide StepOf;
  }

  lemma {:induction false} PcAt(r: seq<Fetch>, m: nat, n: nat)
    requires Sequential(r) && m <= n < |r|
    ensures r[n].pc == Mod32(r[m].pc + 2 * (n - m))
    decreases n
  {
    if m < n {
      PcAt(r, m, n - 1);
      assert Follows(r[n], r[n - 1]);
    }
  }

  /** What a disassembler that sees five words can make of MOVE.L (bd.L,A0,D0.W),([bd.L,A1,D0.W],od.L): its
      words 1 and 4 announce long displacements, so it is nine words long. Everything else is one word here. */
  function NineWords(pc: u32, words: seq<u16>): (string, nat) {
    ("", if |words| == 5 && words[0] == 0x23B0 && words[1] == 0x0130 && words[4] == 0x0133 then 18 else 2)
  }

  // That instruction and a NOP behind it, fetched from pc 0.
  function NineAndNop(): seq<Fetch> {
    var words: seq<u16> := [0x23B0, 0x0130, 0x0001, 0x0002, 0x0133, 0x0003, 0x0004, 0x0005, 0x0006, 0x4E71];
    seq(10, k requires 0 <= k < 10 => Fetch(2 * k, words[k], 2))
  }

  /** A nine-word instruction is cut after eight words: the second line shown is for its last word, at pc 16;
      decoded as a whole the run has the NOP at pc 18 there. */
  lemma NineWordsCut()
    ensures Sequential(NineAndNop()) && !Fits(NineWords, NineAndNop())
    ensures var run, whole := DecodeRun(NineWords, NineAndNop()), DecodeWhole(NineWords, NineAndNop());
            |run| >= 2 && |whole| >= 2 && run[1].pc == 16 && whole[1].pc == 18
  {
    hide DecodeRun, DecodeWhole;
    var r := NineAndNop();
    forall k | 0 < k < 10
      ensures Follows(r[k], r[k - 1])
    {
    }
    assert StepOf(NineWords, r) == 9 by { NineStep(); }
    NextLines(NineWords, r);
    FirstPc(NineWords, r[8..]);
    FirstPc(NineWords, r[9..]);
  }

  lemma NineStep()
    ensures StepOf(NineWords, NineAndNop()) == 9
  {
    var r := NineAndNop();
    var w := Words(Ahead(r));
    assert w[0] == 0x23B0 && w[1] == 0x0130 && w[4] == 0x0133;
  }

  lemma NextLines(dec: Decoder, r: seq<Fetch>)
    requires r != []
    ensures DecodeRun(dec, r) == [LineOf(dec, r)] + DecodeRun(dec, r[Clamp(Clamp(StepOf(dec, r), FETCH_BUF_SIZE), |r|)..])
    ensures DecodeWhole(dec, r) == [LineOf(dec, r)] + DecodeWhole(dec, r[Clamp(StepOf(dec, r), |r|)..])
  {
    hide LineOf, StepOf;
  }
}
