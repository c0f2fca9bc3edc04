/** cpu_diff_corpus.py: the report over two whole corpora. */
module CorpusReport {
  import opened CorpusDiff

  // One line of a corpus file.
  datatype Test = Test(name: string, pair: Pair)

  datatype Row = Row(name: string, op: string, category: Category, detail: Detail)

  // What the report says of one operation: tests in all, and tests per category.
  datatype OpLine = OpLine(total: nat, counts: map<Category, nat>, passRate: real)

  datatype Report = Report(rows: seq<Row>, counts: map<Category, nat>, perOp: map<string, OpLine>, passRate: real)

  const CATEGORY_ORDER: seq<Category> :=
    [Match, Skipped, CcrOnly, FlagOnly, DregDiff, AregDiff, RamDiff, PcDiff, SignExtension, Unknown]

  // The dictionary by test name; of two lines with one name the later counts.
  function ByName(ts: seq<Test>): map<string, Pair> {
    if ts == [] then map[] else ByName(ts[..|ts| - 1])[ts[|ts| - 1].name := ts[|ts| - 1].pair]
  }

  // ---- The names both corpora have, sorted ----

  // String order by characters.
  predicate Less(x: string, y: string) {
    y != "" && (x == "" || x[0] < y[0] || (x[0] == y[0] && Less(x[1..], y[1..])))
  }

  /** The order is that of the first characters in which two strings differ; a string comes before what it begins. */
  lemma {:induction false} LessMeans(x: string, y: string)
    ensures Less(x, y) <==> x < y || exists k :: FirstBelow(x, y, k)
    decreases |x|
  {
    if x != "" && y != "" && x[0] == y[0] {
      LessMeans(x[1..], y[1..]);
      assert x < y <==> x[1..] < y[1..] by { assert x == [x[0]] + x[1..] && y == [y[0]] + y[1..]; }
      BelowLater(x, y);
    } else if x != "" && y != "" && x[0] < y[0] {
      assert FirstBelow(x, y, 0);
    }
  }

  // Up to k the strings agree, and there x is smaller.
  predicate FirstBelow(x: string, y: string, k: int) {
    0 <= k && k < |x| && k < |y| && x[..k] == y[..k] && x[k] < y[k]
  }

  lemma BelowLater(x: string, y: string)
    requires x != "" && y != "" && x[0] == y[0]
    ensures (exists k :: FirstBelow(x[1..], y[1..], k)) <==> exists k :: FirstBelow(x, y, k)
  {
    if k :| FirstBelow(x[1..], y[1..], k) {
      assert x[..k + 1] == [x[0]] + x[1..][..k] && y[..k + 1] == [y[0]] + y[1..][..k];
      assert FirstBelow(x, y, k + 1);
    }
    if k :| FirstBelow(x, y, k) {
      assert x[1..][..k - 1] == x[..k][1..] && y[1..][..k - 1] == y[..k][1..];
      assert FirstBelow(x[1..], y[1..], k - 1);
    }
  }

  function Insert(x: string, s: seq<string>): seq<string> {
    if s == [] then [x] else if x == s[0] then s else if Less(x, s[0]) then [x] + s else [s[0]] + Insert(x, s[1..])
  }

  function Common(base: seq<Test>, cand: map<string, Pair>): seq<string> {
    if base == [] then []
    else
      var s, n := Common(base[..|base| - 1], cand), base[|base| - 1].name;
      if n in cand then Insert(n, s) else s
  }

  predicate Ascending(s: seq<string>) {
    forall i, j :: 0 <= i < j < |s| ==> Less(s[i], s[j])
  }

  lemma {:induction false} LessTotal(x: string, y: string)
    ensures Less(x, y) || x == y || Less(y, x)
    ensures !Less(x, x)
    decreases |x|
  {
    if x != "" && y != "" && x[0] == y[0] {
      LessTotal(x[1..], y[1..]);
      assert x == [x[0]] + x[1..] && y == [y[0]] + y[1..];
    }
    if x != "" { LessTotal(x[1..], x[1..]); }
  }

  lemma {:induction false} LessTransitive(x: string, y: string, z: string)
    requires Less(x, y) && Less(y, z)
    ensures Less(x, z)
    decreases |x|
  {
    if x != "" && x[0] == y[0] == z[0] { LessTransitive(x[1..], y[1..], z[1..]); }
  }

  lemma {:induction false} InsertAscending(x: string, s: seq<string>)
    requires Ascending(s)
    ensures Ascending(Insert(x, s)) && forall n :: n in Insert(x, s) <==> n == x || n in s
    decreases |s|
  {
    hide Less;
    if s != [] && x != s[0] {
      LessTotal(x, s[0]);
      if Less(x, s[0]) {
        forall j | 0 < j < |s|
          ensures Less(x, s[j])
        {
          LessTransitive(x, s[0], s[j]);
        }
      } else {
        var r := Insert(x, s[1..]);
        InsertAscending(x, s[1..]);
        forall j | 0 <= j < |r|
          ensures Less(s[0], r[j])
        {
          assert r[j] in r;
        }
      }
    }
  }

  /** The listing holds each name both corpora have once, in string order. */
  lemma {:induction false} CommonSorted(base: seq<Test>, cand: map<string, Pair>)
    ensures Ascending(Common(base, cand)) && forall n :: n in Common(base, cand) <==> n in ByName(base) && n in cand
    decreases |base|
  {
    hide Less, Ascending, Insert;
    if base != [] {
      var front, n := base[..|base| - 1], base[|base| - 1].name;
      CommonSorted(front, cand);
      if n in cand { InsertAscending(n, Common(front, cand)); }
    } else {
      AscendingNone();
    }
  }

  lemma AscendingNone()
    ensures Ascending([])
  {
  }

  // ---- What is counted ----

  function UpTo(name: string, sep: char): string {
    if name == "" || name[0] == sep then "" else [name[0]] + UpTo(name[1..], sep)
  }

  function WithoutColons(s: string): string {
    if s != "" && s[|s| - 1] == ':' then WithoutColons(s[..|s| - 1]) else s
  }

  // The mnemonic a test is filed under; OpMeans says which part of the name it is.
  function OpOf(name: string): string {
    var op := WithoutColons(UpTo(UpTo(name, ' '), '.'));
    if op == "DBG" then "smoke" else op
  }

  // The name up to its k-th character, with the first ' ' or '.' there or nothing at all behind, is m and colons.
  predicate Names(name: string, k: int, m: string) {
    && 0 <= k <= |name| && ' ' !in name[..k] && '.' !in name[..k] && (k < |name| ==> name[k] == ' ' || name[k] == '.')
    && m <= name[..k] && (forall j :: |m| <= j < k ==> name[j] == ':') && (m != "" ==> m[|m| - 1] != ':')
  }

  lemma {:induction false} UpToMeans(name: string, sep: char)
    ensures var u := UpTo(name, sep); u <= name && sep !in u && (|u| < |name| ==> name[|u|] == sep)
    decreases |name|
  {
    if name != "" && name[0] != sep { UpToMeans(name[1..], sep); }
  }

  lemma {:induction false} WithoutColonsMeans(s: string)
    ensures var w := WithoutColons(s);
            w <= s && (forall j :: |w| <= j < |s| ==> s[j] == ':') && (w != "" ==> w[|w| - 1] != ':')
    decreases |s|
  {
    if s != "" && s[|s| - 1] == ':' { WithoutColonsMeans(s[..|s| - 1]); }
  }

  /** The mnemonic a test is filed under stands at the front of its name, before the first ' ' or '.', without the
      colons behind it; there is exactly one such, and "DBG" is filed under "smoke". */
  lemma OpMeans(name: string)
    ensures exists k, m :: Names(name, k, m)
    ensures forall k, m :: Names(name, k, m) ==> OpOf(name) == if m == "DBG" then "smoke" else m
  {
    hide UpTo, WithoutColons;
    var u := UpTo(name, ' ');
    var v := UpTo(u, '.');
    UpToMeans(name, ' ');
    UpToMeans(u, '.');
    WithoutColonsMeans(v);
    assert v == name[..|v|] && Names(name, |v|, WithoutColons(v));
    forall k, m | Names(name, k, m)
      ensures m == WithoutColons(v)
    {
      NamesUnique(name, k, m, |v|, WithoutColons(v));
    }
  }

  lemma NamesUnique(name: string, k: int, m: string, k': int, m': string)
    requires Names(name, k, m) && Names(name, k', m')
    ensures k == k' && m == m'
  {
    NoneBefore(name, k, m);
    NoneBefore(name, k', m');
    LastNotColon(name, k, m, m');
    LastNotColon(name, k, m', m);
  }

  lemma NoneBefore(name: string, k: int, m: string)
    requires Names(name, k, m)
    ensures forall j :: 0 <= j < k ==> name[j] != ' ' && name[j] != '.'
    ensures m <= name && (m != "" ==> name[|m| - 1] != ':')
  {
    forall j | 0 <= j < k
      ensures name[j] != ' ' && name[j] != '.'
    {
      assert name[j] in name[..k];
    }
  }

  lemma LastNotColon(name: string, k: int, m: string, m': string)
    requires Names(name, k, m) && Names(name, k, m')
    ensures |m| <= |m'|
  {
    NoneBefore(name, k, m);
  }

  // The names of the rows of one operation and category, in order.
  function Filed(rows: seq<Row>, op: string, c: Category): seq<string> {
    if rows == [] then []
    else
      var last := rows[|rows| - 1];
      Filed(rows[..|rows| - 1], op, c) + if last.op == op && last.category == c then [last.name] else []
  }

  // How many rows satisfy each of the two questions the report counts.
  function InCategory(rows: seq<Row>, c: Category): nat {
    if rows == [] then 0
    else InCategory(rows[..|rows| - 1], c) + if rows[|rows| - 1].category == c then 1 else 0
  }

  function OfOp(rows: seq<Row>, op: string): nat {
    if rows == [] then 0 else OfOp(rows[..|rows| - 1], op) + if rows[|rows| - 1].op == op then 1 else 0
  }

  function LookUp(cats: map<string, map<Category, seq<string>>>, op: string, c: Category): seq<string> {
    if op in cats && c in cats[op] then cats[op][c] else []
  }

  function Sum(counts: map<Category, nat>, order: seq<Category>): nat
    requires forall c <- order :: c in counts
  {
    if order == [] then 0 else counts[order[0]] + Sum(counts, order[1..])
  }

  // The row of a test both corpora have.
  function RowOf(base: map<string, Pair>, cand: map<string, Pair>, name: string): Row
    requires name in base && name in cand
  {
    Row(name, OpOf(name), Classify(base[name], cand[name]), DetailOf(base[name], cand[name]))
  }

  // What a row says of the two tests is true, said without the functions that compute it.
  ghost predicate RowTrue(row: Row, b: Pair, c: Pair) {
    && Fits(b, c, row.category) && CategoryOf(row.detail) == row.category && DetailTrue(b, c, row.detail)
    && forall k, m :: Names(row.name, k, m) ==> row.op == if m == "DBG" then "smoke" else m
  }

  lemma RowOfTrue(base: map<string, Pair>, cand: map<string, Pair>, name: string)
    requires name in base && name in cand
    ensures RowTrue(RowOf(base, cand, name), base[name], cand[name])
  {
    hide Classify, DetailOf, OpOf, Fits, DetailTrue, Names;
    VerdictMeans(base[name], cand[name], Classify(base[name], cand[name]));
    DetailMeans(base[name], cand[name]);
    OpMeans(name);
  }

  ghost predicate RowsTrue(rows: seq<Row>, base: map<string, Pair>, cand: map<string, Pair>) {
    forall i :: 0 <= i < |rows| ==>
      rows[i].name in base && rows[i].name in cand && RowTrue(rows[i], base[rows[i].name], cand[rows[i].name])
  }

  lemma ReportsTrue(rows: seq<Row>, base: map<string, Pair>, cand: map<string, Pair>, common: seq<string>)
    requires Reports(rows, base, cand, common)
    ensures RowsTrue(rows, base, cand)
  {
    hide RowTrue, Classify, DetailOf, OpOf;
    forall i | 0 <= i < |rows|
      ensures rows[i].name == common[i] && common[i] in base && common[i] in cand
      ensures RowTrue(rows[i], base[common[i]], cand[common[i]])
    {
      RowOfTrue(base, cand, common[i]);
    }
  }

  ghost predicate Reports(rows: seq<Row>, base: map<string, Pair>, cand: map<string, Pair>, common: seq<string>) {
    && |rows| == |common|
    && forall i :: 0 <= i < |rows| ==> common[i] in base && common[i] in cand && rows[i] == RowOf(base, cand, common[i])
  }

  // The nested lists hold exactly the rows, filed by operation and category.
  ghost predicate FiledRight(cats: map<string, map<Category, seq<string>>>, rows: seq<Row>) {
    && (forall op, c :: LookUp(cats, op, c) == Filed(rows, op, c))
    && (forall op :: op in cats <==> OfOp(rows, op) > 0)
  }

  ghost predicate CountedRight(counts: map<Category, nat>, rows: seq<Row>) {
    forall c :: (if c in counts then counts[c] else 0) == InCategory(rows, c)
  }

  // A line of the per-operation table, from the rows alone.
  ghost predicate LineRight(line: OpLine, rows: seq<Row>, op: string) {
    && line.total == OfOp(rows, op) > 0
    && (forall c :: c in line.counts && line.counts[c] == |Filed(rows, op, c)|)
    && line.passRate * line.total as real == line.counts[Match] as real
  }

  // What the loop has gathered once it has seen the rows.
  ghost predicate Gathered(
    rows: seq<Row>, catCounts: map<Category, nat>, opCat: map<string, map<Category, seq<string>>>,
    base: map<string, Pair>, cand: map<string, Pair>, seen: seq<string>)
  {
    Reports(rows, base, cand, seen) && CountedRight(catCounts, rows) && FiledRight(opCat, rows)
  }

  ghost predicate TotalsRight(r: Report, common: seq<string>) {
    && (forall c :: c in r.counts && r.counts[c] == InCategory(r.rows, c))
    && (forall op :: op in r.perOp <==> exists i :: 0 <= i < |common| && OpOf(common[i]) == op)
    && (forall op :: op in r.perOp ==> LineRight(r.perOp[op], r.rows, op))
    && r.passRate * |common| as real == r.counts[Match] as real && (common == [] ==> r.passRate == 0.0)
  }

  method BuildReport(base: seq<Test>, cand: seq<Test>) returns (r: Report)
    ensures var common := Common(base, ByName(cand));
            && Ascending(common) && (forall n :: n in common <==> n in ByName(base) && n in ByName(cand))
            && Reports(r.rows, ByName(base), ByName(cand), common) && TotalsRight(r, common)
    ensures RowsTrue(r.rows, ByName(base), ByName(cand))
  {
    hide RowsTrue, Classify, DetailOf, OpOf, ByName, Gathered, TotalsRight, LookUp, Finish, Ascending, Common;
    var baseBy, candBy := ByName(base), ByName(cand);
    var common := Common(base, candBy);
    CommonSorted(base, candBy);
    var catCounts: map<Category, nat> := map[];
    var opCat: map<string, map<Category, seq<string>>> := map[];
    var rows: seq<Row> := [];
    GatheredNone(baseBy, candBy);
    for i := 0 to |common|
      invariant Gathered(rows, catCounts, opCat, baseBy, candBy, common[..i])
    {
      var name := common[i];
      assert name in common;
      var row := RowOf(baseBy, candBy, name);
      var cat := row.category;
      GatheredNext(rows, catCounts, opCat, baseBy, candBy, common[..i], name);
      assert common[..i + 1] == common[..i] + [name];
      catCounts := catCounts[cat := (if cat in catCounts then catCounts[cat] else 0) + 1];
      var cats := if row.op in opCat then opCat[row.op] else map[];
      opCat := opCat[row.op := cats[cat := LookUp(opCat, row.op, cat) + [name]]];
      rows := rows + [row];
    }
    assert common[..|common|] == common;
    r := Finish(rows, catCounts, opCat);
    ReportsFinished(rows, catCounts, opCat, baseBy, candBy, common);
    Finished(rows, catCounts, opCat, baseBy, candBy, common);
  }

  // The report from what the loop gathered.
  function Finish(rows: seq<Row>, catCounts: map<Category, nat>, opCat: map<string, map<Category, seq<string>>>): Report {
    var counts := map c | c in CATEGORY_ORDER :: if c in catCounts then catCounts[c] else 0;
    InOrder();
    Report(rows, counts, map op | op in opCat :: LineOf(opCat[op]),
           if |rows| > 0 then counts[Match] as real / |rows| as real else 0.0)
  }

  lemma Finished(
    rows: seq<Row>, catCounts: map<Category, nat>, opCat: map<string, map<Category, seq<string>>>,
    base: map<string, Pair>, cand: map<string, Pair>, common: seq<string>)
    requires Gathered(rows, catCounts, opCat, base, cand, common)
    ensures Finish(rows, catCounts, opCat).rows == rows
    ensures TotalsRight(Finish(rows, catCounts, opCat), common) && Reports(rows, base, cand, common)
  {
    hide LineOf, LineRight, RowOf, OpOf, LookUp, Filed, InCategory, OfOp, CATEGORY_ORDER;
    InOrder();
    var r := Finish(rows, catCounts, opCat);
    forall op | op in opCat
      ensures LineRight(r.perOp[op], rows, op)
    {
      LineIsRight(opCat, rows, op);
    }
    OpsSeen(rows, base, cand, common);
    AllInCategory(rows, Match);
  }

  lemma ReportsFinished(
    rows: seq<Row>, catCounts: map<Category, nat>, opCat: map<string, map<Category, seq<string>>>,
    base: map<string, Pair>, cand: map<string, Pair>, common: seq<string>)
    requires Gathered(rows, catCounts, opCat, base, cand, common)
    ensures RowsTrue(rows, base, cand)
  {
    hide Reports, RowsTrue;
    ReportsTrue(rows, base, cand, common);
  }

  lemma GatheredNone(base: map<string, Pair>, cand: map<string, Pair>)
    ensures Gathered([], map[], map[], base, cand, [])
  {
  }

  lemma GatheredNext(
    rows: seq<Row>, catCounts: map<Category, nat>, opCat: map<string, map<Category, seq<string>>>,
    base: map<string, Pair>, cand: map<string, Pair>, seen: seq<string>, name: string)
    requires Gathered(rows, catCounts, opCat, base, cand, seen) && name in base && name in cand
    ensures var row := RowOf(base, cand, name);
            var cats := if row.op in opCat then opCat[row.op] else map[];
            Gathered(rows + [row],
                     catCounts[row.category := (if row.category in catCounts then catCounts[row.category] else 0) + 1],
                     opCat[row.op := cats[row.category := LookUp(opCat, row.op, row.category) + [name]]],
                     base, cand, seen + [name])
  {
    hide FiledRight, CountedRight, OpOf, Classify, DetailOf, LookUp;
    CountNext(catCounts, rows, RowOf(base, cand, name));
    FileNext(opCat, rows, RowOf(base, cand, name));
  }

  function LineOf(cats: map<Category, seq<string>>): OpLine {
    var counts := map c | c in CATEGORY_ORDER :: if c in cats then |cats[c]| else 0;
    var total := Sum(counts, CATEGORY_ORDER);
    OpLine(total, counts, if total > 0 then counts[Match] as real / total as real else 0.0)
  }

  function Place(c: Category): nat {
    match c
    case Match => 0 case Skipped => 1 case CcrOnly => 2 case FlagOnly => 3 case DregDiff => 4
    case AregDiff => 5 case RamDiff => 6 case PcDiff => 7 case SignExtension => 8 case Unknown => 9
  }

  lemma InOrder()
    ensures forall c: Category :: c in CATEGORY_ORDER
  {
    forall c: Category
      ensures c in CATEGORY_ORDER
    {
      assert CATEGORY_ORDER[Place(c)] == c;
    }
  }

  lemma CountNext(counts: map<Category, nat>, rows: seq<Row>, row: Row)
    requires CountedRight(counts, rows)
    ensures CountedRight(counts[row.category := (if row.category in counts then counts[row.category] else 0) + 1], rows + [row])
  {
    assert (rows + [row])[..|rows|] == rows;
  }

  lemma FileNext(cats: map<string, map<Category, seq<string>>>, rows: seq<Row>, row: Row)
    requires FiledRight(cats, rows)
    ensures var inner := if row.op in cats then cats[row.op] else map[];
            FiledRight(cats[row.op := inner[row.category := LookUp(cats, row.op, row.category) + [row.name]]], rows + [row])
  {
    var more := rows + [row];
    assert more[..|rows|] == rows;
    var inner := if row.op in cats then cats[row.op] else map[];
    var next := cats[row.op := inner[row.category := LookUp(cats, row.op, row.category) + [row.name]]];
    forall op, c
      ensures LookUp(next, op, c) == Filed(more, op, c)
    {
      assert LookUp(cats, op, c) == Filed(rows, op, c);
    }
    forall op
      ensures op in next <==> OfOp(more, op) > 0
    {
      assert op in cats <==> OfOp(rows, op) > 0;
    }
  }

  // The rows of an operation, category by category, are all its rows.
  lemma {:induction false} FiledTotal(rows: seq<Row>, op: string)
    ensures |Filed(rows, op, Match)| + |Filed(rows, op, Skipped)| + |Filed(rows, op, CcrOnly)|
            + |Filed(rows, op, FlagOnly)| + |Filed(rows, op, DregDiff)| + |Filed(rows, op, AregDiff)|
            + |Filed(rows, op, RamDiff)| + |Filed(rows, op, PcDiff)| + |Filed(rows, op, SignExtension)|
            + |Filed(rows, op, Unknown)| == OfOp(rows, op)
  {
    if rows != [] { FiledTotal(rows[..|rows| - 1], op); }
  }

  lemma SumOfTwo(counts: map<Category, nat>, order: seq<Category>, k: nat)
    requires k + 2 <= |order| && forall c: Category :: c in counts
    ensures Sum(counts, order[k..]) == counts[order[k]] + counts[order[k + 1]] + Sum(counts, order[k + 2..])
  {
    assert order[k..][1..] == order[k + 1..] && order[k + 1..][1..] == order[k + 2..];
  }

  lemma SumOfTen(counts: map<Category, nat>)
    requires forall c: Category :: c in counts
    ensures Sum(counts, CATEGORY_ORDER)
            == counts[Match] + counts[Skipped] + counts[CcrOnly] + counts[FlagOnly] + counts[DregDiff]
               + counts[AregDiff] + counts[RamDiff] + counts[PcDiff] + counts[SignExtension] + counts[Unknown]
  {
    hide Sum;
    assert CATEGORY_ORDER[0..] == CATEGORY_ORDER && CATEGORY_ORDER[10..] == [];
    SumOfTwo(counts, CATEGORY_ORDER, 0);
    SumOfTwo(counts, CATEGORY_ORDER, 2);
    SumOfTwo(counts, CATEGORY_ORDER, 4);
    SumOfTwo(counts, CATEGORY_ORDER, 6);
    SumOfTwo(counts, CATEGORY_ORDER, 8);
    SumOfNone(counts);
  }

  lemma SumOfNone(counts: map<Category, nat>)
    ensures Sum(counts, []) == 0
  {
  }

  lemma LineIsRight(cats: map<string, map<Category, seq<string>>>, rows: seq<Row>, op: string)
    requires FiledRight(cats, rows) && op in cats
    ensures LineRight(LineOf(cats[op]), rows, op)
  {
    hide Sum, Filed, OfOp, CATEGORY_ORDER, LookUp;
    InOrder();
    LineCounts(cats, rows, op);
    var line := LineOf(cats[op]);
    LineTotal(line, rows, op);
    Rate(line.counts[Match], line.total);
  }

  lemma LineTotal(line: OpLine, rows: seq<Row>, op: string)
    requires forall c :: c in line.counts && line.counts[c] == |Filed(rows, op, c)|
    ensures Sum(line.counts, CATEGORY_ORDER) == OfOp(rows, op)
  {
    hide Sum, Filed, OfOp, CATEGORY_ORDER;
    SumOfTen(line.counts);
    FiledTotal(rows, op);
  }

  lemma Rate(part: nat, whole: nat)
    requires whole > 0
    ensures (part as real / whole as real) * whole as real == part as real
  {
  }

  lemma LineCounts(cats: map<string, map<Category, seq<string>>>, rows: seq<Row>, op: string)
    requires FiledRight(cats, rows) && op in cats
    ensures forall c :: c in LineOf(cats[op]).counts && LineOf(cats[op]).counts[c] == |Filed(rows, op, c)|
  {
    hide Sum, Filed, OfOp, CATEGORY_ORDER;
    InOrder();
    forall c
      ensures c in LineOf(cats[op]).counts && LineOf(cats[op]).counts[c] == |Filed(rows, op, c)|
    {
      assert LookUp(cats, op, c) == Filed(rows, op, c);
    }
  }

  lemma {:induction false} OpOccurs(rows: seq<Row>, op: string)
    ensures OfOp(rows, op) > 0 <==> exists i :: 0 <= i < |rows| && rows[i].op == op
  {
    if rows != [] {
      var front := rows[..|rows| - 1];
      OpOccurs(front, op);
      assert forall i :: 0 <= i < |front| ==> front[i] == rows[i];
    }
  }

  lemma OpsSeen(rows: seq<Row>, base: map<string, Pair>, cand: map<string, Pair>, common: seq<string>)
    requires Reports(rows, base, cand, common)
    ensures forall op :: OfOp(rows, op) > 0 <==> exists i :: 0 <= i < |common| && OpOf(common[i]) == op
  {
    hide OpOf, Classify, DetailOf;
    forall op
      ensures OfOp(rows, op) > 0 <==> exists i :: 0 <= i < |common| && OpOf(common[i]) == op
    {
      OpOccurs(rows, op);
      if i :| 0 <= i < |common| && OpOf(common[i]) == op { assert rows[i].op == op; }
      if i :| 0 <= i < |rows| && rows[i].op == op { assert OpOf(common[i]) == op; }
    }
  }

  lemma {:induction false} AllInCategory(rows: seq<Row>, c: Category)
    ensures InCategory(rows, c) <= |rows|
    ensures InCategory(rows, c) == |rows| <==> forall i :: 0 <= i < |rows| ==> rows[i].category == c
  {
    if rows != [] {
      var front := rows[..|rows| - 1];
      AllInCategory(front, c);
      if forall i :: 0 <= i < |rows| ==> rows[i].category == c {
        assert forall i :: 0 <= i < |front| ==> front[i] == rows[i];
      } else if rows[|rows| - 1].category == c && InCategory(front, c) == |front| {
        forall i | 0 <= i < |rows|
          ensures rows[i].category == c
        {
          assert i < |front| ==> front[i].category == c;
        }
      }
    }
  }

  /** A report whose match count is its common count says exactly this: of every test both corpora have,
      the last recorded lines agree in all that is compared, or neither bench ran the test. */
  lemma PerfectReport(rows: seq<Row>, base: seq<Test>, cand: seq<Test>)
    requires Reports(rows, ByName(base), ByName(cand), Common(base, ByName(cand)))
    ensures InCategory(rows, Match) == |Common(base, ByName(cand))|
            <==> forall n :: n in ByName(base) && n in ByName(cand) ==>
              var b, c := ByName(base)[n], ByName(cand)[n];
              (WasSkipped(b) && WasSkipped(c)) || (!WasSkipped(c) && Agrees(b, c))
  {
    hide Classify, DetailOf, Agrees, WasSkipped, ByName, InCategory, OpOf, Common, Ascending;
    var b, c := ByName(base), ByName(cand);
    var common := Common(base, c);
    CommonSorted(base, c);
    AllInCategory(rows, Match);
    forall i | 0 <= i < |common|
      ensures rows[i].category == Match
              <==> (WasSkipped(b[common[i]]) && WasSkipped(c[common[i]]))
                   || (!WasSkipped(c[common[i]]) && Agrees(b[common[i]], c[common[i]]))
    {
      MatchMeans(b[common[i]], c[common[i]]);
    }
    assert forall i :: 0 <= i < |common| ==> common[i] in b && common[i] in c;
  }

  /** The dictionary holds the last line of each name and nothing else. */
  lemma {:induction false} ByNameLast(ts: seq<Test>, name: string)
    ensures name in ByName(ts) <==> exists k :: 0 <= k < |ts| && ts[k].name == name
    ensures forall k :: 0 <= k < |ts| && ts[k].name == name && (forall j :: k < j < |ts| ==> ts[j].name != name)
              ==> ByName(ts)[name] == ts[k].pair
  {
    if ts != [] {
      var front := ts[..|ts| - 1];
      ByNameLast(front, name);
      assert forall k :: 0 <= k < |front| ==> front[k] == ts[k];
    }
  }
}
