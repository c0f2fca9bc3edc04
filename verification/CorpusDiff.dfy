/** cpu_diff_corpus.py: comparing the snapshots of one test from two benches. */
module CorpusDiff {
  import opened Options

  type Eight = s: seq<int> | |s| == 8 witness [0, 0, 0, 0, 0, 0, 0, 0]

  type Index = n: int | 0 <= n < 8

  // One snapshot of a corpus line; older corpora carry no pc.
  datatype Snap = Snap(d: Eight, a: Eight, ccr: int, ram: seq<int>, pc: Option<int>)

  // The snapshots of one test on one bench.
  datatype Pair = Pair(initial: Snap, final: Snap)

  datatype Category =
    Match | Skipped | CcrOnly | FlagOnly | DregDiff | AregDiff | RamDiff | PcDiff | SignExtension | Unknown

  function Low32(x: int): nat {
    x % 0x1_0000_0000
  }

  predicate IsZeroed(s: Snap) {
    && (forall x | x in s.d :: x == 0) && (forall x | x in s.a :: x == 0) && s.ccr == 0 && (forall x | x in s.ram :: x == 0)
  }

  // Both snapshots zeroed: the mark of a test the bench did not run.
  predicate WasSkipped(p: Pair) {
    IsZeroed(p.final) && IsZeroed(p.initial)
  }

  // An address register agrees as it stands or as an offset from A6.
  predicate AMatches(b: Snap, c: Snap, i: Index) {
    b.a[i] == c.a[i] || Low32(b.a[i] - b.a[6]) == Low32(c.a[i] - c.a[6])
  }

  // The registers below n that differ, in ascending order.
  function ADiffs(b: Snap, c: Snap, n: nat): seq<Index>
    requires n <= 6
  {
    if n == 0 then [] else ADiffs(b, c, n - 1) + if AMatches(b, c, n - 1) then [] else [n - 1]
  }

  function DDiffs(b: Snap, c: Snap, n: nat): seq<Index>
    requires n <= 8
  {
    if n == 0 then [] else DDiffs(b, c, n - 1) + if b.d[n - 1] == c.d[n - 1] then [] else [n - 1]
  }

  // The distances final - initial differ; not compared when a pc is missing.
  predicate PcDiffers(b: Pair, c: Pair) {
    && b.final.pc.Some? && c.final.pc.Some? && b.initial.pc.Some? && c.initial.pc.Some?
    && Low32(b.final.pc.value - b.initial.pc.value) != Low32(c.final.pc.value - c.initial.pc.value)
  }

  function Classify(base: Pair, cand: Pair): Category {
    if WasSkipped(cand) && !WasSkipped(base) then Skipped
    else if WasSkipped(base) && WasSkipped(cand) then Match
    else
      var bf, cf := base.final, cand.final;
      var aDiffs, dDiffs := ADiffs(bf, cf, 6), DDiffs(bf, cf, 8);
      var ccrDiff, ramDiff, pcDiff := bf.ccr != cf.ccr, bf.ram != cf.ram, PcDiffers(base, cand);
      if dDiffs == [] && aDiffs == [] && !ccrDiff && !ramDiff && !pcDiff then Match
      else if pcDiff && dDiffs == [] && aDiffs == [] && !ccrDiff && !ramDiff then PcDiff
      else if dDiffs == [] && aDiffs == [] && !ramDiff && ccrDiff then CcrOnly
      else if ramDiff && dDiffs == [] && aDiffs == [] then RamDiff
      else if |dDiffs| == 1 && aDiffs == [] && !ramDiff && LowBitsMatch(bf.d[dDiffs[0]], cf.d[dDiffs[0]]) then SignExtension
      else if ccrDiff && |dDiffs| == 1 && aDiffs == [] && !ramDiff then FlagOnly
      else if dDiffs != [] && aDiffs == [] && !ramDiff then DregDiff
      else if aDiffs != [] && dDiffs == [] && !ramDiff then AregDiff
      else Unknown
  }

  // The low 16 or the low 8 bits agree.
  predicate LowBitsMatch(b: int, c: int) {
    b % 0x1_0000 == c % 0x1_0000 || b % 0x100 == c % 0x100
  }

  // ---- What is said of a difference ----

  // The values named in the detail of a verdict; each pair is baseline, candidate.
  datatype Detail =
    | NoDetail
    | Privileged
    | PcDistances(base: int, cand: int)
    | Ccrs(base: int, cand: int)
    | Scratch(at: nat, base: int, cand: int)
    | ScratchLengths
    | LowWord(reg: Index, base: int, cand: int)
    | LowByte(reg: Index, base: int, cand: int)
    | FlagReg(reg: Index, base: int, cand: int, baseCcr: int, candCcr: int)
    | DReg(reg: Index, base: int, cand: int, more: nat)
    | AReg(reg: Index, base: int, cand: int)
    | Several(dDiffs: seq<Index>, aDiffs: seq<Index>, ccr: bool, ram: bool, pc: bool)

  // The first position from i on at which the two differ, as far as both reach.
  function FirstDiff(b: seq<int>, c: seq<int>, i: nat): (r: Option<nat>)
    ensures match r
            case Some(j) => i <= j < |b| && j < |c| && b[j] != c[j] && forall k :: i <= k < j ==> b[k] == c[k]
            case None => forall k :: i <= k < |b| && k < |c| ==> b[k] == c[k]
    decreases |b| - i
  {
    if i >= |b| || i >= |c| then None else if b[i] != c[i] then Some(i) else FirstDiff(b, c, i + 1)
  }

  function DetailOf(base: Pair, cand: Pair): Detail {
    var bf, cf := base.final, cand.final;
    var aDiffs, dDiffs := ADiffs(bf, cf, 6), DDiffs(bf, cf, 8);
    match Classify(base, cand)
    case Match => NoDetail
    case Skipped => Privileged
    case PcDiff => PcDistances(Low32(bf.pc.value - base.initial.pc.value), Low32(cf.pc.value - cand.initial.pc.value))
    case CcrOnly => Ccrs(bf.ccr, cf.ccr)
    case RamDiff =>
      (match FirstDiff(bf.ram, cf.ram, 0) case Some(i) => Scratch(i, bf.ram[i], cf.ram[i]) case None => ScratchLengths)
    case SignExtension =>
      var i := dDiffs[0];
      if bf.d[i] % 0x1_0000 == cf.d[i] % 0x1_0000 then LowWord(i, Low32(bf.d[i]), Low32(cf.d[i]))
      else LowByte(i, Low32(bf.d[i]), Low32(cf.d[i]))
    case FlagOnly => FlagReg(dDiffs[0], bf.d[dDiffs[0]], cf.d[dDiffs[0]], bf.ccr, cf.ccr)
    case DregDiff => DReg(dDiffs[0], bf.d[dDiffs[0]], cf.d[dDiffs[0]], |dDiffs| - 1)
    case AregDiff => AReg(aDiffs[0], bf.a[aDiffs[0]], cf.a[aDiffs[0]])
    case Unknown => Several(dDiffs, aDiffs, bf.ccr != cf.ccr, bf.ram != cf.ram, PcDiffers(base, cand))
  }

  lemma {:induction false} ADiffsEmpty(b: Snap, c: Snap, n: nat)
    requires n <= 6
    ensures ADiffs(b, c, n) == [] <==> forall i :: 0 <= i < n ==> AMatches(b, c, i)
  {
    if n > 0 { ADiffsEmpty(b, c, n - 1); }
  }

  lemma {:induction false} DDiffsEmpty(b: Snap, c: Snap, n: nat)
    requires n <= 8
    ensures DDiffs(b, c, n) == [] <==> forall i :: 0 <= i < n ==> b.d[i] == c.d[i]
  {
    if n > 0 { DDiffsEmpty(b, c, n - 1); }
  }

  // Everything the comparison looks at agrees.
  predicate Agrees(base: Pair, cand: Pair) {
    && base.final.d == cand.final.d && (forall i :: 0 <= i < 6 ==> AMatches(base.final, cand.final, i))
    && base.final.ccr == cand.final.ccr && base.final.ram == cand.final.ram && !PcDiffers(base, cand)
  }

  /** A test counts as a match exactly when neither bench ran it, or the candidate ran it and everything
      compared agrees; a candidate that skipped a test the baseline ran never matches. */
  lemma MatchMeans(base: Pair, cand: Pair)
    ensures Classify(base, cand) == Match
            <==> (WasSkipped(base) && WasSkipped(cand)) || (!WasSkipped(cand) && Agrees(base, cand))
  {
    ADiffsEmpty(base.final, cand.final, 6);
    DDiffsEmpty(base.final, cand.final, 8);
    if Agrees(base, cand) {
      assert DDiffs(base.final, cand.final, 8) == [];
    } else if DDiffs(base.final, cand.final, 8) == [] {
      assert base.final.d == cand.final.d;
    }
  }

  /** Moving a bench's scratch RAM by any distance, with A6 and any of the address registers A0-A5 that
      were derived from it, never turns a match into a difference. */
  lemma RelocationKeepsMatch(base: Pair, cand: Pair, moved: Pair, shift: int)
    requires Classify(base, cand) == Match && !WasSkipped(cand) && !WasSkipped(moved)
    requires moved.final == cand.final.(a := moved.final.a) && !PcDiffers(base, moved)
    requires moved.final.a[6] == Low32(cand.final.a[6] + shift)
    requires forall i :: 0 <= i < 6 ==>
      (moved.final.a[i] == cand.final.a[i] == base.final.a[i])
      || (moved.final.a[i] == Low32(cand.final.a[i] + shift)
          && Low32(cand.final.a[i] - cand.final.a[6]) == Low32(base.final.a[i] - base.final.a[6]))
    ensures Classify(base, moved) == Match
  {
    MatchMeans(base, cand);
    MatchMeans(base, moved);
    forall i | 0 <= i < 6
      ensures AMatches(base.final, moved.final, i)
    {
      if moved.final.a[i] != base.final.a[i] {
        Shift(cand.final.a[i], cand.final.a[6], shift);
      }
    }
  }

  lemma Shift(x: int, y: int, shift: int)
    ensures Low32(Low32(x + shift) - Low32(y + shift)) == Low32(x - y)
  {
    var m := 0x1_0000_0000;
    var k := (x + shift) / m - (y + shift) / m;
    assert Low32(x + shift) - Low32(y + shift) == x - y - k * m;
    ModShift(x - y, k);
  }

  lemma ModShift(x: int, k: int)
    ensures Low32(x - k * 0x1_0000_0000) == Low32(x)
  {
  }

  // The D registers of two snapshots differ in i, and in none below it.
  predicate LowestD(b: Snap, c: Snap, i: Index) {
    b.d[i] != c.d[i] && forall j :: 0 <= j < i ==> b.d[j] == c.d[j]
  }

  predicate LowestA(b: Snap, c: Snap, i: Index) {
    i < 6 && !AMatches(b, c, i) && forall j :: 0 <= j < i ==> AMatches(b, c, j)
  }

  // The D registers of two snapshots agree but for i.
  predicate OnlyD(b: Snap, c: Snap, i: Index) {
    forall j :: 0 <= j < 8 ==> (b.d[j] != c.d[j] <==> j == i)
  }

  lemma {:induction false} DDiffsMean(b: Snap, c: Snap, n: nat)
    requires n <= 8
    ensures forall i :: i in DDiffs(b, c, n) <==> 0 <= i < n && b.d[i] != c.d[i]
    ensures forall j, k :: 0 <= j < k < |DDiffs(b, c, n)| ==> DDiffs(b, c, n)[j] < DDiffs(b, c, n)[k]
  {
    if n > 0 {
      DDiffsMean(b, c, n - 1);
      var d := DDiffs(b, c, n - 1);
      assert forall k :: 0 <= k < |d| ==> d[k] in d;
    }
  }

  // The first register listed is the lowest that differs; it is the only one if no other is listed.
  lemma FirstD(b: Snap, c: Snap)
    requires DDiffs(b, c, 8) != []
    ensures var d := DDiffs(b, c, 8); LowestD(b, c, d[0]) && (|d| == 1 <==> OnlyD(b, c, d[0]))
  {
    hide DDiffs;
    DDiffsMean(b, c, 8);
    var d := DDiffs(b, c, 8);
    assert d[0] in d;
    forall j | 0 <= j < d[0]
      ensures b.d[j] == c.d[j]
    {
      assert j !in d;
    }
    if |d| > 1 {
      assert d[1] in d && d[1] != d[0];
    } else {
      assert d == [d[0]];
    }
  }

  lemma {:induction false} ADiffsMean(b: Snap, c: Snap, n: nat)
    requires n <= 6
    ensures forall i :: i in ADiffs(b, c, n) <==> 0 <= i < n && !AMatches(b, c, i)
    ensures forall j, k :: 0 <= j < k < |ADiffs(b, c, n)| ==> ADiffs(b, c, n)[j] < ADiffs(b, c, n)[k]
    ensures ADiffs(b, c, n) != [] ==> LowestA(b, c, ADiffs(b, c, n)[0])
  {
    hide AMatches;
    if n > 0 {
      ADiffsMean(b, c, n - 1);
      ADiffsEmpty(b, c, n - 1);
      var d := ADiffs(b, c, n - 1);
      assert forall k :: 0 <= k < |d| ==> d[k] in d;
    }
  }

  // ---- What each verdict means ----

  // The address registers compared, A0 to A5, agree.
  ghost predicate SameA(b: Snap, c: Snap) {
    forall i :: 0 <= i < 6 ==> AMatches(b, c, i)
  }

  // Exactly one D register differs, and in its low 16 or low 8 bits the two agree.
  ghost predicate OneDLow(b: Snap, c: Snap) {
    exists i: Index :: OnlyD(b, c, i) && (b.d[i] % 0x1_0000 == c.d[i] % 0x1_0000 || b.d[i] % 0x100 == c.d[i] % 0x100)
  }

  // Exactly one D register differs, its low 8 bits among the rest.
  ghost predicate OneDWhole(b: Snap, c: Snap) {
    exists i: Index :: OnlyD(b, c, i) && b.d[i] % 0x1_0000 != c.d[i] % 0x1_0000 && b.d[i] % 0x100 != c.d[i] % 0x100
  }

  // Whether a verdict fits two tests, from the snapshots alone.
  ghost predicate Fits(base: Pair, cand: Pair, verdict: Category) {
    var b, c := base.final, cand.final;
    if WasSkipped(cand) then verdict == if WasSkipped(base) then Match else Skipped
    else
      match verdict
      case Skipped => false
      case Match => b.d == c.d && SameA(b, c) && b.ram == c.ram && b.ccr == c.ccr && !PcDiffers(base, cand)
      case PcDiff => b.d == c.d && SameA(b, c) && b.ram == c.ram && b.ccr == c.ccr && PcDiffers(base, cand)
      case CcrOnly => b.d == c.d && SameA(b, c) && b.ram == c.ram && b.ccr != c.ccr
      case RamDiff => b.d == c.d && SameA(b, c) && b.ram != c.ram
      case AregDiff => b.d == c.d && !SameA(b, c) && b.ram == c.ram
      case SignExtension => SameA(b, c) && b.ram == c.ram && OneDLow(b, c)
      case FlagOnly => SameA(b, c) && b.ram == c.ram && OneDWhole(b, c) && b.ccr != c.ccr
      case DregDiff =>
        && b.d != c.d && SameA(b, c) && b.ram == c.ram
        && !OneDLow(b, c) && !(OneDWhole(b, c) && b.ccr != c.ccr)
      case Unknown =>                                        // at least two of D, A and RAM differ
        || (b.d != c.d && !SameA(b, c)) || (b.d != c.d && b.ram != c.ram) || (!SameA(b, c) && b.ram != c.ram)
  }

  // The D registers agree, or the one register listed alone decides, or several differ.
  lemma DDiffsDecide(b: Snap, c: Snap)
    ensures DDiffs(b, c, 8) == [] <==> b.d == c.d
    ensures var d := DDiffs(b, c, 8);
            if |d| == 1 then (if LowBitsMatch(b.d[d[0]], c.d[d[0]]) then OneDLow(b, c) && !OneDWhole(b, c)
                              else OneDWhole(b, c) && !OneDLow(b, c))
            else !OneDLow(b, c) && !OneDWhole(b, c)
  {
    hide DDiffs;
    DDiffsEmpty(b, c, 8);
    if DDiffs(b, c, 8) != [] {
      FirstD(b, c);
      OnlyOne(b, c, DDiffs(b, c, 8)[0]);
    }
  }

  // If some register is the only one that differs, it is the lowest.
  lemma OnlyOne(b: Snap, c: Snap, i: Index)
    requires LowestD(b, c, i)
    ensures forall j: Index :: OnlyD(b, c, j) ==> j == i
  {
  }

  /** Every verdict is given exactly where it fits. */
  lemma VerdictMeans(base: Pair, cand: Pair, verdict: Category)
    ensures Classify(base, cand) == verdict <==> Fits(base, cand, verdict)
  {
    hide AMatches, WasSkipped, ADiffs, DDiffs, LowBitsMatch, PcDiffers, OneDLow, OneDWhole;
    ADiffsEmpty(base.final, cand.final, 6);
    DDiffsDecide(base.final, cand.final);
  }

  /** An address register of the candidate agrees if it holds the baseline's value, or that value moved by
      the distance between the two A6. */
  lemma AMatchesMeans(b: Snap, c: Snap, i: Index)
    ensures AMatches(b, c, i) <==> c.a[i] == b.a[i] || Low32(c.a[i]) == Low32(b.a[i] + (c.a[6] - b.a[6]))
  {
    hide Low32;
    Moved(b.a[i] - b.a[6], c.a[i] - c.a[6], c.a[6]);
  }

  /** The PC distances differ if and only if the two programs lie further apart, or closer, after the test than
      before it; nothing is compared if one of the four PCs is missing. */
  lemma PcDiffersMeans(b: Pair, c: Pair)
    ensures PcDiffers(b, c) <==>
            && b.final.pc.Some? && c.final.pc.Some? && b.initial.pc.Some? && c.initial.pc.Some?
            && Low32(c.final.pc.value - b.final.pc.value) != Low32(c.initial.pc.value - b.initial.pc.value)
  {
    hide Low32;
    if b.final.pc.Some? && c.final.pc.Some? && b.initial.pc.Some? && c.initial.pc.Some? {
      var x, y := b.final.pc.value - b.initial.pc.value, c.final.pc.value - c.initial.pc.value;
      Moved(x, y, c.initial.pc.value - b.final.pc.value);
    }
  }

  // Adding the same to two numbers does not change whether they agree in their low 32 bits.
  lemma Moved(x: int, y: int, t: int)
    ensures Low32(x) == Low32(y) <==> Low32(x + t) == Low32(y + t)
  {
    var m := 0x1_0000_0000;
    if Low32(x) == Low32(y) {
      ModShift(y + t, y / m - x / m);
    }
    if Low32(x + t) == Low32(y + t) {
      ModShift(y, (y + t) / m - (x + t) / m);
    }
  }

  // Every number of a snapshot but the PC.
  function Numbers(s: Snap): seq<int> {
    s.d + s.a + [s.ccr] + s.ram
  }

  lemma ZeroedMeans(s: Snap)
    ensures IsZeroed(s) <==> forall v | v in Numbers(s) :: v == 0
  {
    if forall v | v in Numbers(s) :: v == 0 {
      forall x | x in s.d ensures x == 0 { assert x in Numbers(s); }
      forall x | x in s.a ensures x == 0 { assert x in Numbers(s); }
      forall x | x in s.ram ensures x == 0 { assert x in Numbers(s); }
      assert s.ccr in Numbers(s);
    }
  }

  /** A bench did not run a test exactly when every number it recorded of it, but for the PC, is zero. */
  lemma SkippedMeans(p: Pair)
    ensures WasSkipped(p) <==> forall v | v in Numbers(p.initial) + Numbers(p.final) :: v == 0
  {
    hide IsZeroed, Numbers;
    ZeroedMeans(p.initial);
    ZeroedMeans(p.final);
    var all := Numbers(p.initial) + Numbers(p.final);
    assert forall v :: v in all <==> v in Numbers(p.initial) || v in Numbers(p.final);
  }

  // ---- What each detail means ----

  // The category a detail is given with.
  function CategoryOf(d: Detail): Category {
    match d
    case NoDetail => Match
    case Privileged => Skipped
    case PcDistances(_, _) => PcDiff
    case Ccrs(_, _) => CcrOnly
    case Scratch(_, _, _) => RamDiff
    case ScratchLengths => RamDiff
    case LowWord(_, _, _) => SignExtension
    case LowByte(_, _, _) => SignExtension
    case FlagReg(_, _, _, _, _) => FlagOnly
    case DReg(_, _, _, _) => DregDiff
    case AReg(_, _, _) => AregDiff
    case Several(_, _, _, _, _) => Unknown
  }

  // The D registers that differ, each once and in ascending order.
  ghost predicate ListsD(b: Snap, c: Snap, ds: seq<Index>) {
    && (forall i :: i in ds <==> 0 <= i < 8 && b.d[i] != c.d[i])
    && (forall j, k :: 0 <= j < k < |ds| ==> ds[j] < ds[k])
  }

  ghost predicate ListsA(b: Snap, c: Snap, as_: seq<Index>) {
    && (forall i :: i in as_ <==> 0 <= i < 6 && !AMatches(b, c, i))
    && (forall j, k :: 0 <= j < k < |as_| ==> as_[j] < as_[k])
  }

  // Apart from the lowest, `more` D registers differ.
  ghost predicate MoreD(b: Snap, c: Snap, more: nat) {
    exists ds :: ListsD(b, c, ds) && |ds| == more + 1
  }

  /** What a detail says is true of the two runs: the values are theirs, the register named is the lowest that
      differs and the only one where the category says so, the scratch byte is the first that differs. */
  ghost predicate DetailTrue(base: Pair, cand: Pair, d: Detail) {
    var b, c := base.final, cand.final;
    match d
    case NoDetail => true
    case Privileged => true
    case PcDistances(x, y) =>
      && PcDiffers(base, cand) && x != y
      && x == Low32(b.pc.value - base.initial.pc.value) && y == Low32(c.pc.value - cand.initial.pc.value)
    case Ccrs(x, y) => x == b.ccr != c.ccr == y
    case Scratch(i, x, y) =>
      i < |b.ram| && i < |c.ram| && x == b.ram[i] != c.ram[i] == y && (forall k :: 0 <= k < i ==> b.ram[k] == c.ram[k])
    case ScratchLengths => |b.ram| != |c.ram| && (b.ram <= c.ram || c.ram <= b.ram)
    case LowWord(i, x, y) =>
      OnlyD(b, c, i) && x == Low32(b.d[i]) && y == Low32(c.d[i]) && b.d[i] % 0x1_0000 == c.d[i] % 0x1_0000
    case LowByte(i, x, y) =>
      && OnlyD(b, c, i) && x == Low32(b.d[i]) && y == Low32(c.d[i])
      && b.d[i] % 0x100 == c.d[i] % 0x100 && b.d[i] % 0x1_0000 != c.d[i] % 0x1_0000
    case FlagReg(i, x, y, p, q) => OnlyD(b, c, i) && x == b.d[i] && y == c.d[i] && p == b.ccr != c.ccr == q
    case DReg(i, x, y, more) => LowestD(b, c, i) && x == b.d[i] && y == c.d[i] && MoreD(b, c, more)
    case AReg(i, x, y) => LowestA(b, c, i) && x == b.a[i] && y == c.a[i]
    case Several(ds, as_, ccr, ram, pc) =>
      && ListsD(b, c, ds) && ListsA(b, c, as_)
      && (ccr <==> b.ccr != c.ccr) && (ram <==> b.ram != c.ram) && (pc <==> PcDiffers(base, cand))
  }

  /** The detail is the one of the verdict, and true. */
  lemma DetailMeans(base: Pair, cand: Pair)
    ensures CategoryOf(DetailOf(base, cand)) == Classify(base, cand) && DetailTrue(base, cand, DetailOf(base, cand))
  {
    hide AMatches, WasSkipped, ADiffs, DDiffs, Low32, FirstDiff, LowestD, LowestA, OnlyD, Agrees, ListsD, ListsA;
    var b, c := base.final, cand.final;
    DDiffsMean(b, c, 8);
    DDiffsEmpty(b, c, 8);
    if DDiffs(b, c, 8) != [] { FirstD(b, c); }
    Listed(b, c);
    ADiffsMean(b, c, 6);
  }

  lemma Listed(b: Snap, c: Snap)
    ensures ListsD(b, c, DDiffs(b, c, 8)) && ListsA(b, c, ADiffs(b, c, 6))
  {
    hide ADiffs, DDiffs, AMatches;
    DDiffsMean(b, c, 8);
    ADiffsMean(b, c, 6);
  }
}
