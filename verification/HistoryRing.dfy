/** The 512-entry fetch history of the simulator's debug modes:
    record_bootmask_history and the order in which the dumps print it. */
module HistoryRing {
  import opened Bytes

  const SIZE: nat := 512
  const NO_PC: u32 := 0xFFFF_FFFF

  // What is sampled when a fetch is recorded.
  datatype Entry = Entry(pc: u32, op: u16, frame: int, tick: u32, d: seq<u32>, a: seq<u32>, sp: u32, ret: u32)

  /** The recorded entries without those that repeat the pc of the one kept before. */
  function Kept(calls: seq<Entry>): (k: seq<Entry>)
    ensures |k| <= |calls|
    decreases |calls|
  {
    if calls == [] then []
    else
      var k := Kept(calls[..|calls| - 1]);
      if calls[|calls| - 1].pc == LastPc(k) then k else k + [calls[|calls| - 1]]
  }

  function LastPc(k: seq<Entry>): u32 {
    if k == [] then NO_PC else k[|k| - 1].pc
  }

  lemma KeptSnoc(calls: seq<Entry>, e: Entry)
    ensures Kept(calls + [e]) == if e.pc == LastPc(Kept(calls)) then Kept(calls) else Kept(calls) + [e]
  {
    assert (calls + [e])[..|calls|] == calls;
  }

  lemma {:induction false} KeptAlternates(calls: seq<Entry>)
    ensures forall i :: 0 < i < |Kept(calls)| ==> Kept(calls)[i].pc != Kept(calls)[i - 1].pc
    ensures Kept(calls) != [] ==> Kept(calls)[0].pc != 0xFFFF_FFFF
    decreases |calls|
  {
    if calls != [] { KeptAlternates(calls[..|calls| - 1]); }
  }

  /** Recording the same pc any number of times more changes nothing, so the debug modes that each record
      every fetch can share one ring. */
  lemma {:induction false} RepeatsIgnored(calls: seq<Entry>, again: seq<Entry>)
    requires forall e | e in again :: e.pc == LastPc(Kept(calls))
    ensures Kept(calls + again) == Kept(calls)
    decreases |again|
  {
    if again == [] {
      assert calls + again == calls;
    } else {
      var init := again[..|again| - 1];
      RepeatsIgnored(calls, init);
      assert calls + again == calls + init + [again[|again| - 1]];
      KeptSnoc(calls + init, again[|again| - 1]);
    }
  }

  // The slot of the i-th oldest of `count` entries when `pos` is the next slot to write.
  lemma SlotOf(n: nat, count: nat, i: nat)
    requires i < count <= SIZE && count <= n
    ensures var first := n % SIZE - count;
            ((if first < 0 then first + SIZE else first) + i) % SIZE == (n - count + i) % SIZE
  {
    var q := n / SIZE;
    assert n == q * SIZE + n % SIZE;
    var x := n % SIZE - count + i;
    assert n - count + i == q * SIZE + x;
    ModPlus(x, q);
    ModPlus(x, 1);
  }

  lemma ModPlus(x: int, q: int)
    ensures (q * SIZE + x) % SIZE == x % SIZE
  {
  }

  // The ring holds the newest `count` entries of k.
  ghost predicate Holds(slots: seq<Entry>, k: seq<Entry>, count: nat) {
    && |slots| == SIZE && count == (if |k| < SIZE then |k| else SIZE)
    && forall i :: |k| - count <= i < |k| ==> slots[i % SIZE] == k[i]
  }

  // The ring as it stands after k was kept: pos is the next slot to write, lastPc the newest pc.
  ghost predicate Keeps(slots: seq<Entry>, k: seq<Entry>, pos: nat, count: nat, lastPc: u32) {
    Holds(slots, k, count) && pos == |k| % SIZE && lastPc == LastPc(k)
  }

  lemma KeepsMeans(slots: seq<Entry>, k: seq<Entry>, pos: nat, count: nat, lastPc: u32)
    requires Keeps(slots, k, pos, count, lastPc)
    ensures |slots| == SIZE && pos < SIZE && lastPc == LastPc(k)
  {
  }

  lemma SlotWritten(was: seq<Entry>, now: seq<Entry>, k: seq<Entry>, pos: nat, count: nat, lastPc: u32, e: Entry)
    requires Keeps(was, k, pos, count, lastPc) && now == was[pos := e]
    ensures Keeps(now, k + [e], (pos + 1) % SIZE, if count < SIZE then count + 1 else count, e.pc)
  {
    SlotsDistinct(|k|);
    ModNext(|k|);
  }

  lemma ModNext(n: nat)
    ensures (n % SIZE + 1) % SIZE == (n + 1) % SIZE
  {
  }

  // Of any 512 consecutive entries no two share a slot.
  lemma SlotsDistinct(n: nat)
    ensures forall i :: n - SIZE < i < n && 0 <= i ==> i % SIZE != n % SIZE
  {
  }

  class Ring {
    const slots: array<Entry>
    var pos: nat
    var count: nat
    var lastPc: u32
    ghost var calls: seq<Entry>

    ghost predicate Valid()
      reads this, slots
    {
      var k := Kept(calls);
      slots.Length == SIZE && Keeps(slots[..], k, pos, count, lastPc)
    }

    constructor ()
      ensures Valid() && calls == [] && fresh(slots)
    {
      slots := new Entry[SIZE](_ => Entry(0, 0, 0, 0, [], [], 0, 0));
      pos, count, lastPc := 0, 0, NO_PC;
      calls := [];
    }

    method Record(e: Entry)
      requires Valid()
      modifies this, slots
      ensures Valid() && calls == old(calls) + [e]
    {
      hide Kept, Holds, Keeps;
      ghost var k := Kept(calls);
      KeepsMeans(slots[..], k, pos, count, lastPc);
      KeptSnoc(calls, e);
      calls := calls + [e];
      if e.pc == lastPc {
        return;
      }
      ghost var was, at, n, last := slots[..], pos, count, lastPc;
      lastPc := e.pc;
      slots[pos] := e;
      pos := (pos + 1) % SIZE;
      if count < SIZE {
        count := count + 1;
      }
      SlotWritten(was, slots[..], k, at, n, last, e);
    }

    /** The entries in the order they are printed: the newest 512 of what was kept, oldest first. */
    method Dump() returns (out: seq<Entry>)
      requires Valid()
      ensures var k := Kept(calls); out == if |k| <= 512 then k else k[|k| - 512..]
    {
      hide Kept;
      ghost var k := Kept(calls);
      var first: int := pos - count;
      if first < 0 {
        first := first + SIZE;
      }
      out := [];
      for i := 0 to count
        invariant |out| == i && forall j :: 0 <= j < i ==> out[j] == k[|k| - count + j]
      {
        SlotOf(|k|, count, i);
        var idx := (first + i) % SIZE;
        out := out + [slots[idx]];
      }
    }
  }
}
