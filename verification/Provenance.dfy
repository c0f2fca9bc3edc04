/** hda_match_sources.py: where the new content of each changed sector of an image
    comes from, and the grouping of changed sectors into runs. */
module Provenance {
  import opened Bytes
  import opened Options

  const SECTOR: nat := 512

  // md5 is a parameter; nothing below needs it to be free of collisions.
  type Digest = int
  type Hash = seq<byte> -> Digest

  datatype Kind = Zero | Copy | Shift(d: int) | Novel
  datatype Result = Result(dst: nat, kind: Kind, srcs: seq<nat>)

  predicate InImage(img: seq<byte>, lba: nat) {
    (lba + 1) * SECTOR <= |img|
  }

  function Sector(img: seq<byte>, lba: nat): seq<byte>
    requires InImage(img, lba)
  {
    img[lba * SECTOR..lba * SECTOR + SECTOR]
  }

  function Zeros(): (z: seq<byte>)
    ensures |z| == 512 && forall i :: 0 <= i < |z| ==> z[i] == 0
  {
    seq<byte>(SECTOR, _ => 0)
  }

  // Sectors the two images have in common.
  function Common(a: seq<byte>, b: seq<byte>): (n: nat)
    ensures forall lba: nat :: lba < n ==> InImage(a, lba) && InImage(b, lba)
  {
    (if |a| < |b| then |a| else |b|) / SECTOR
  }

  /** The sectors compared are exactly those that lie in both images as a whole. */
  lemma CommonMeans(a: seq<byte>, b: seq<byte>, lba: nat)
    ensures lba < Common(a, b) <==> lba * 512 + 512 <= |a| && lba * 512 + 512 <= |b|
  {
  }

  // ---- The index of pristine sectors ----

  /** The sectors below n with a given digest, in ascending order. */
  function Sources(a: seq<byte>, hash: Hash, h: Digest, n: nat): seq<nat>
    requires forall lba: nat :: lba < n ==> InImage(a, lba)
  {
    if n == 0 then [] else Sources(a, hash, h, n - 1) + if hash(Sector(a, n - 1)) == h then [n - 1] else []
  }

  ghost predicate Indexes(m: map<Digest, seq<nat>>, a: seq<byte>, hash: Hash, n: nat)
    requires forall lba: nat :: lba < n ==> InImage(a, lba)
  {
    forall h: Digest ::
      (h in m <==> Sources(a, hash, h, n) != []) && (h in m ==> m[h] == Sources(a, hash, h, n))
  }

  method HashSectors(a: seq<byte>, hash: Hash, n: nat) returns (m: map<Digest, seq<nat>>)
    requires forall lba: nat :: lba < n ==> InImage(a, lba)
    ensures Indexes(m, a, hash, n)
  {
    m := map[];
    for lba := 0 to n
      invariant Indexes(m, a, hash, lba)
    {
      var h := hash(Sector(a, lba));
      m := m[h := (if h in m then m[h] else []) + [lba]];
    }
  }

  lemma {:induction false} SourcesMean(a: seq<byte>, hash: Hash, h: Digest, n: nat)
    requires forall lba: nat :: lba < n ==> InImage(a, lba)
    ensures forall s: nat :: s in Sources(a, hash, h, n) <==> s < n && hash(Sector(a, s)) == h
  {
    if n > 0 { SourcesMean(a, hash, h, n - 1); }
  }

  // ---- Byte shifts ----

  const SHIFTS: seq<int> := [1, -1, 2, -2, 3, -3, 4, -4]

  function Max(x: int, y: int): int { if x > y then x else y }
  function Min(x: int, y: int): int { if x < y then x else y }

  // The positions k compared for a shift by d: k in the sector, k - d in the pristine image.
  function ShiftLo(lba: nat, d: int): int { Max(lba * SECTOR, d) }
  function ShiftHi(a: seq<byte>, b: seq<byte>, lba: nat, d: int): int {
    Min(Min(lba * SECTOR + SECTOR, |a| + d), |b|)
  }

  /** The positions compared are exactly those of the sector at which both images have a byte. */
  lemma ShiftInside(a: seq<byte>, b: seq<byte>, lba: nat, d: int, k: int)
    ensures ShiftLo(lba, d) <= k < ShiftHi(a, b, lba, d)
            <==> lba * SECTOR <= k < lba * SECTOR + SECTOR && 0 <= k < |b| && 0 <= k - d < |a|
  {
  }

  // How many of the positions from ShiftLo up to hi agree.
  function Score(a: seq<byte>, b: seq<byte>, lba: nat, d: int, hi: int): nat
    requires ShiftLo(lba, d) <= hi <= ShiftHi(a, b, lba, d)
    decreases hi
  {
    if hi == ShiftLo(lba, d) then 0
    else Score(a, b, lba, d, hi - 1) + if b[hi - 1] == a[hi - 1 - d] then 1 else 0
  }

  /** The score is the number of positions at which the two images agree. */
  lemma {:induction false} ScoreCounts(a: seq<byte>, b: seq<byte>, lba: nat, d: int, hi: int)
    requires ShiftLo(lba, d) <= hi <= ShiftHi(a, b, lba, d)
    ensures Score(a, b, lba, d, hi) == |Agreeing(a, b, lba, d, hi)|
    decreases hi
  {
    hide ShiftLo, ShiftHi;
    ShiftInside(a, b, lba, d, hi - 1);
    if hi == ShiftLo(lba, d) {
      assert Agreeing(a, b, lba, d, hi) == {};
    } else {
      var s := Agreeing(a, b, lba, d, hi - 1);
      ScoreCounts(a, b, lba, d, hi - 1);
      assert Agreeing(a, b, lba, d, hi) == if b[hi - 1] == a[hi - 1 - d] then s + {hi - 1} else s;
    }
  }

  function Agreeing(a: seq<byte>, b: seq<byte>, lba: nat, d: int, hi: int): set<int> {
    set k | ShiftLo(lba, d) <= k < hi && 0 <= k < |b| && 0 <= k - d < |a| && b[k] == a[k - d]
  }

  /** The shifts tried: every distance up to four bytes either way, the shorter ones first. */
  lemma ShiftsMean()
    ensures forall d :: d in SHIFTS <==> d != 0 && -4 <= d <= 4
    ensures forall i, j :: 0 <= i < j < |SHIFTS| ==> Max(SHIFTS[j], -SHIFTS[j]) >= Max(SHIFTS[i], -SHIFTS[i])
    ensures forall i, j :: 0 <= i < j < |SHIFTS| ==> SHIFTS[j] != -SHIFTS[i] || SHIFTS[i] > 0
  {
  }

  // At least 92% of the positions agree.
  predicate Qualifies(a: seq<byte>, b: seq<byte>, lba: nat, d: int) {
    var lo, hi := ShiftLo(lba, d), ShiftHi(a, b, lba, d);
    lo < hi && 25 * Score(a, b, lba, d, hi) >= 23 * (hi - lo)
  }

  function ScoreOf(a: seq<byte>, b: seq<byte>, lba: nat, d: int): nat
    requires Qualifies(a, b, lba, d)
  {
    Score(a, b, lba, d, ShiftHi(a, b, lba, d))
  }

  /** The best of the first i shifts: a qualifying one with the highest score, the earliest of those. */
  ghost predicate BestOf(a: seq<byte>, b: seq<byte>, lba: nat, i: nat, best: Option<int>)
    requires i <= |SHIFTS|
  {
    match best
    case None => forall j :: 0 <= j < i ==> !Qualifies(a, b, lba, SHIFTS[j])
    case Some(d) =>
      && Qualifies(a, b, lba, d)
      && exists w :: 0 <= w < i && SHIFTS[w] == d
           && (forall j :: 0 <= j < i && Qualifies(a, b, lba, SHIFTS[j]) ==>
                 ScoreOf(a, b, lba, SHIFTS[j]) <= ScoreOf(a, b, lba, d))
           && (forall j :: 0 <= j < w && Qualifies(a, b, lba, SHIFTS[j]) ==>
                 ScoreOf(a, b, lba, SHIFTS[j]) < ScoreOf(a, b, lba, d))
  }

  method ShiftMatch(a: seq<byte>, b: seq<byte>, lba: nat) returns (best: Option<int>)
    ensures BestOf(a, b, lba, |SHIFTS|, best)
  {
    hide Qualifies, Score;
    best := None;
    var top := 0;
    for i := 0 to |SHIFTS|
      invariant BestOf(a, b, lba, i, best)
      invariant best.Some? ==> top == ScoreOf(a, b, lba, best.value)
    {
      var d := SHIFTS[i];
      var lo, hi := ShiftLo(lba, d), ShiftHi(a, b, lba, d);
      QualifiesMeans(a, b, lba, d);
      if lo < hi {
        var sc := CountEqual(a, b, lba, d);
        if 25 * sc >= 23 * (hi - lo) && (best == None || sc > top) {
          best, top := Some(d), sc;
        }
      }
    }
  }

  lemma QualifiesMeans(a: seq<byte>, b: seq<byte>, lba: nat, d: int)
    ensures var lo, hi := ShiftLo(lba, d), ShiftHi(a, b, lba, d);
            Qualifies(a, b, lba, d) <==> lo < hi && 25 * Score(a, b, lba, d, hi) >= 23 * (hi - lo)
  {
  }

  method CountEqual(a: seq<byte>, b: seq<byte>, lba: nat, d: int) returns (sc: nat)
    requires ShiftLo(lba, d) < ShiftHi(a, b, lba, d)
    ensures sc == Score(a, b, lba, d, ShiftHi(a, b, lba, d))
  {
    sc := 0;
    var k := ShiftLo(lba, d);
    while k < ShiftHi(a, b, lba, d)
      invariant ShiftLo(lba, d) <= k <= ShiftHi(a, b, lba, d) && sc == Score(a, b, lba, d, k)
    {
      ShiftInside(a, b, lba, d, k);
      if b[k] == a[k - d] { sc := sc + 1; }
      k := k + 1;
    }
  }

  // ---- Classifying the changed sectors ----

  predicate Changed(a: seq<byte>, b: seq<byte>, lba: nat)
    requires InImage(a, lba) && InImage(b, lba)
  {
    Sector(a, lba) != Sector(b, lba)
  }

  /** A sector counts as changed exactly when some byte of it did. */
  lemma ChangedMeans(a: seq<byte>, b: seq<byte>, lba: nat)
    requires InImage(a, lba) && InImage(b, lba)
    ensures Changed(a, b, lba) <==> exists k :: lba * 512 <= k < lba * 512 + 512 && a[k] != b[k]
  {
    var x, y := Sector(a, lba), Sector(b, lba);
    if x != y {
      var j :| 0 <= j < SECTOR && x[j] != y[j];
      assert a[lba * 512 + j] != b[lba * 512 + j];
    } else {
      forall k | lba * 512 <= k < lba * 512 + 512
        ensures a[k] == b[k]
      {
        assert x[k - lba * 512] == y[k - lba * 512];
      }
    }
  }

  /** The changed sectors below i in ascending order. */
  function ChangedBelow(a: seq<byte>, b: seq<byte>, i: nat): seq<nat>
    requires i <= Common(a, b)
  {
    if i == 0 then [] else ChangedBelow(a, b, i - 1) + if Changed(a, b, i - 1) then [i - 1] else []
  }

  /** What a result says is true of the sector: zeros; a copy of every listed source and of no other
      sector; a byte shift of nothing known; or none of these. */
  ghost predicate Truthful(a: seq<byte>, b: seq<byte>, hash: Hash, r: Result)
    requires r.dst < Common(a, b)
  {
    var s := Sector(b, r.dst);
    var srcs := Sources(a, hash, hash(s), Common(a, b));
    match r.kind
    case Zero => s == Zeros() && r.srcs == []
    case Copy => s != Zeros() && r.srcs == srcs != []
    case Shift(d) => s != Zeros() && r.srcs == srcs == [] && BestOf(a, b, r.dst, |SHIFTS|, Some(d))
    case Novel => s != Zeros() && r.srcs == srcs == [] && BestOf(a, b, r.dst, |SHIFTS|, None)
  }

  // The results for the changed sectors below i.
  ghost predicate ResultsFor(a: seq<byte>, b: seq<byte>, hash: Hash, rs: seq<Result>, i: nat)
    requires i <= Common(a, b)
  {
    && |rs| == |ChangedBelow(a, b, i)|
    && forall k :: 0 <= k < |rs| ==>
         rs[k].dst == ChangedBelow(a, b, i)[k] && rs[k].dst < Common(a, b) && Truthful(a, b, hash, rs[k])
  }

  method Classify(a: seq<byte>, b: seq<byte>, hash: Hash) returns (results: seq<Result>)
    ensures ResultsFor(a, b, hash, results, Common(a, b))
  {
    hide BestOf, Common;
    var n := Common(a, b);
    var index := HashSectors(a, hash, n);
    results := [];
    for lba := 0 to n
      invariant ResultsFor(a, b, hash, results, lba)
    {
      if Sector(a, lba) != Sector(b, lba) {
        var r := ClassifySector(a, b, hash, index, lba);
        results := results + [r];
      }
    }
  }

  method ClassifySector(a: seq<byte>, b: seq<byte>, hash: Hash, index: map<Digest, seq<nat>>, lba: nat) returns (r: Result)
    requires lba < Common(a, b) && Indexes(index, a, hash, Common(a, b))
    ensures r.dst == lba && Truthful(a, b, hash, r)
  {
    hide BestOf, Common;
    var s := Sector(b, lba);
    var hh := hash(s);
    if s == Zeros() {
      r := Result(lba, Zero, []);
    } else if hh in index {
      r := Result(lba, Copy, index[hh]);
    } else {
      var d := ShiftMatch(a, b, lba);
      r := Result(lba, match d case Some(x) => Shift(x) case None => Novel, []);
    }
  }

  // ---- Grouping into runs ----

  datatype Run = Run(kind: Kind, dst0: nat, dst1: nat, src0: Option<nat>, src1: Option<nat>, srcall: seq<nat>, n: nat)

  // The result continues the run.
  predicate Continues(p: Run, r: Result) {
    && p.kind == r.kind && r.dst == p.dst1 + 1
    && (r.kind == Copy ==> p.src1.Some? && p.src1.value + 1 in r.srcs)
  }

  // A run starts with a result.
  function Begin(r: Result): Run {
    var src := if r.srcs == [] then None else Some(r.srcs[0]);
    Run(r.kind, r.dst, r.dst, src, src, r.srcs, 1)
  }

  function Extend(p: Run): Run {
    p.(dst1 := p.dst1 + 1, n := p.n + 1, src1 := if p.kind == Copy && p.src1.Some? then Some(p.src1.value + 1) else p.src1)
  }

  /** The run stands for exactly these results: same kind, consecutive destinations, and for a copy
      consecutive sources, each a source of its result. */
  ghost predicate Covers(p: Run, rs: seq<Result>) {
    && p.n == |rs| > 0 && p.dst1 == p.dst0 + p.n - 1 && p.srcall == rs[0].srcs
    && (forall k :: 0 <= k < |rs| ==> rs[k].kind == p.kind && rs[k].dst == p.dst0 + k)
    && p.src0 == (if p.srcall == [] then None else Some(p.srcall[0])) && (p.kind != Copy ==> p.src1 == p.src0)
    && (p.kind == Copy ==>
          && p.src0.Some? && p.src1 == Some(p.src0.value + p.n - 1) && p.srcall != [] && p.src0.value == p.srcall[0]
          && forall k :: 0 <= k < |rs| ==> p.src0.value + k in rs[k].srcs)
  }

  // The results before the i-th run.
  function RunStart(runs: seq<Run>, i: nat): nat
    requires i <= |runs|
  {
    if i == 0 then 0 else RunStart(runs, i - 1) + runs[i - 1].n
  }

  lemma {:induction false} RunStartPrefix(runs: seq<Run>, more: seq<Run>, i: nat)
    requires i <= |runs| && i <= |more| && runs[..i] == more[..i]
    ensures RunStart(runs, i) == RunStart(more, i)
  {
    if i > 0 {
      assert runs[i - 1] == runs[..i][i - 1] == more[..i][i - 1] == more[i - 1];
      assert runs[..i - 1] == runs[..i][..i - 1] && more[..i - 1] == more[..i][..i - 1];
      RunStartPrefix(runs, more, i - 1);
    }
  }

  lemma {:induction false} RunStartGrows(runs: seq<Run>, i: nat, j: nat)
    requires i <= j <= |runs|
    ensures RunStart(runs, i) <= RunStart(runs, j)
  {
    if i < j { RunStartGrows(runs, i, j - 1); }
  }

  // The i-th run covers its stretch of the results.
  ghost predicate CoversAt(runs: seq<Run>, results: seq<Result>, i: nat)
    requires i < |runs|
  {
    var s := RunStart(runs, i);
    s + runs[i].n <= |results| && Covers(runs[i], results[s..s + runs[i].n])
  }

  /** The runs cut the results, in order and without remainder, into stretches that each run covers, and
      no run could have been continued by the result behind it. */
  ghost predicate Partitions(runs: seq<Run>, results: seq<Result>) {
    && RunStart(runs, |runs|) == |results|
    && (forall i :: 0 <= i < |runs| ==> CoversAt(runs, results, i))
    && (forall i :: 0 <= i < |runs| - 1 ==> RunStart(runs, i + 1) < |results| && !Continues(runs[i], results[RunStart(runs, i + 1)]))
  }

  /** Every run is as long as it can be: no run whatever stands for its results and the one behind them. */
  lemma RunsMaximal(runs: seq<Run>, results: seq<Result>, i: nat, longer: Run)
    requires Partitions(runs, results) && i < |runs| - 1
    ensures var s, e := RunStart(runs, i), RunStart(runs, i + 1);
            s < e < |results| && !Covers(longer, results[s..e + 1])
  {
    hide Covers, Continues;
    var s, e := RunStart(runs, i), RunStart(runs, i + 1);
    assert CoversAt(runs, results, i);
    CoversSome(runs[i], results[s..e]);
    if Covers(longer, results[s..e + 1]) {
      assert results[s..e + 1] == results[s..e] + [results[e]];
      LongerContinues(runs[i], results[s..e], results[e], longer);
      assert false;
    }
  }

  lemma CoversSome(p: Run, rs: seq<Result>)
    requires Covers(p, rs)
    ensures p.n == |rs| > 0
  {
  }

  lemma LongerContinues(p: Run, rs: seq<Result>, r: Result, longer: Run)
    requires Covers(p, rs) && Covers(longer, rs + [r])
    ensures Continues(p, r)
  {
    var all := rs + [r];
    assert all[0] == rs[0] && all[|rs|] == r;
  }

  // Copies come with at least one source.
  predicate CopiesHaveSources(results: seq<Result>) {
    forall k :: 0 <= k < |results| ==> (results[k].kind == Copy ==> results[k].srcs != [])
  }

  method GroupRuns(results: seq<Result>) returns (runs: seq<Run>)
    requires CopiesHaveSources(results)
    ensures Partitions(runs, results)
  {
    hide Partitions, Continues;
    runs := [];
    NothingPartitioned();
    for i := 0 to |results|
      invariant Partitions(runs, results[..i]) && (runs == [] <==> i == 0)
    {
      var r := results[i];
      assert results[..i + 1] == results[..i] + [r];
      if runs != [] && Continues(runs[|runs| - 1], r) {
        ExtendLast(runs, results[..i], r);
        runs := runs[|runs| - 1 := Extend(runs[|runs| - 1])];
      } else {
        BeginNext(runs, results[..i], r);
        runs := runs + [Begin(r)];
      }
    }
    assert results[..|results|] == results;
  }

  lemma NothingPartitioned()
    ensures Partitions([], [])
  {
  }

  lemma BeginNext(runs: seq<Run>, done: seq<Result>, r: Result)
    requires Partitions(runs, done) && (r.kind == Copy ==> r.srcs != [])
    requires runs != [] ==> !Continues(runs[|runs| - 1], r)
    ensures Partitions(runs + [Begin(r)], done + [r])
  {
    hide Continues, Covers;
    var runs', done' := runs + [Begin(r)], done + [r];
    BeginCovers(r);
    forall i | 0 <= i <= |runs|
      ensures RunStart(runs', i) == RunStart(runs, i) <= |done|
    {
      RunStartPrefix(runs, runs', i);
      RunStartGrows(runs, i, |runs|);
    }
    forall i | 0 <= i < |runs'|
      ensures CoversAt(runs', done', i)
    {
      if i < |runs| {
        assert CoversAt(runs, done, i);
        var s := RunStart(runs, i);
        assert done'[s..s + runs[i].n] == done[s..s + runs[i].n];
      } else {
        assert done'[|done|..|done| + 1] == [r];
      }
    }
  }

  lemma BeginCovers(r: Result)
    requires r.kind == Copy ==> r.srcs != []
    ensures Covers(Begin(r), [r])
  {
  }

  lemma ExtendCovers(p: Run, rs: seq<Result>, r: Result)
    requires Covers(p, rs) && Continues(p, r)
    ensures Covers(Extend(p), rs + [r])
  {
  }

  lemma ExtendLast(runs: seq<Run>, done: seq<Result>, r: Result)
    requires Partitions(runs, done) && runs != [] && Continues(runs[|runs| - 1], r)
    ensures Partitions(runs[|runs| - 1 := Extend(runs[|runs| - 1])], done + [r])
  {
    hide Continues, Covers;
    var m := |runs| - 1;
    var runs', done' := runs[m := Extend(runs[m])], done + [r];
    forall i | 0 <= i <= m
      ensures RunStart(runs', i) == RunStart(runs, i) <= RunStart(runs, m)
    {
      RunStartPrefix(runs, runs', i);
      RunStartGrows(runs, i, m);
    }
    var s := RunStart(runs, m);
    assert CoversAt(runs, done, m);
    assert done[s..s + runs[m].n] == done[s..] && done'[s..s + runs[m].n + 1] == done[s..] + [r];
    ExtendCovers(runs[m], done[s..], r);
    forall i | 0 <= i < |runs'|
      ensures CoversAt(runs', done', i)
    {
      if i < m {
        assert CoversAt(runs, done, i);
        RunStartGrows(runs, i + 1, m);
        var q := RunStart(runs, i);
        assert done'[q..q + runs[i].n] == done[q..q + runs[i].n];
      }
    }
  }

  // ---- What the printed runs mean ----

  /** In a copy run of n sectors, for every k < n, post sector dst0 + k has the same digest as pristine
      sector src0 + k, which lies below the common length; both ranges end n - 1 further on. */
  lemma CopyRunMeans(a: seq<byte>, b: seq<byte>, hash: Hash, results: seq<Result>, runs: seq<Run>, i: nat, k: nat)
    requires ResultsFor(a, b, hash, results, Common(a, b)) && Partitions(runs, results)
    requires i < |runs| && runs[i].kind == Copy && k < runs[i].n
    ensures var p, n := runs[i], Common(a, b);
            && p.src0.Some? && p.src1 == Some(p.src0.value + p.n - 1) && p.dst1 == p.dst0 + p.n - 1
            && p.dst0 + k < n && p.src0.value + k < n
            && hash(Sector(b, p.dst0 + k)) == hash(Sector(a, p.src0.value + k))
            && Changed(a, b, p.dst0 + k)
  {
    hide Common, BestOf, Sources, ChangedBelow, Covers;
    var p, s, n := runs[i], RunStart(runs, i), Common(a, b);
    assert CoversAt(runs, results, i);
    CoveredCopy(p, results[s..s + p.n], k);
    var r := results[s + k];
    assert r == results[s..s + p.n][k];
    SourcesMean(a, hash, hash(Sector(b, r.dst)), n);
    ChangedMean(a, b, n, s + k);
  }

  lemma CoveredCopy(p: Run, rs: seq<Result>, k: nat)
    requires Covers(p, rs) && p.kind == Copy && k < p.n
    ensures p.src0.Some? && p.src1 == Some(p.src0.value + p.n - 1) && p.dst1 == p.dst0 + p.n - 1
    ensures k < |rs| && rs[k].kind == Copy && rs[k].dst == p.dst0 + k && p.src0.value + k in rs[k].srcs
  {
  }

  lemma {:induction false} ChangedMean(a: seq<byte>, b: seq<byte>, i: nat, k: nat)
    requires i <= Common(a, b) && k < |ChangedBelow(a, b, i)|
    ensures var x := ChangedBelow(a, b, i)[k]; x < i && Changed(a, b, x)
  {
    hide Common, Changed;
    if k < |ChangedBelow(a, b, i - 1)| { ChangedMean(a, b, i - 1, k); }
  }

  /** Every changed sector lies in exactly one result, and the results are in ascending order. */
  lemma {:induction false} ChangedComplete(a: seq<byte>, b: seq<byte>, i: nat)
    requires i <= Common(a, b)
    ensures forall x: nat :: x in ChangedBelow(a, b, i) <==> x < i && Changed(a, b, x)
    ensures forall j, k :: 0 <= j < k < |ChangedBelow(a, b, i)| ==> ChangedBelow(a, b, i)[j] < ChangedBelow(a, b, i)[k]
  {
    hide Common, Changed;
    if i > 0 {
      ChangedComplete(a, b, i - 1);
      var c := ChangedBelow(a, b, i - 1);
      assert forall k :: 0 <= k < |c| ==> c[k] in c;
    }
  }

  /** The whole script: classify, then group. */
  method MatchSources(a: seq<byte>, b: seq<byte>, hash: Hash) returns (results: seq<Result>, runs: seq<Run>)
    ensures ResultsFor(a, b, hash, results, Common(a, b)) && Partitions(runs, results)
  {
    hide Partitions, BestOf, Common, Sources;
    results := Classify(a, b, hash);
    runs := GroupRuns(results);
  }
}
