/** parse_btree of hfs_forensics.py: the walk along the leaf chain of a B-tree
    file whose links, node types and record offsets may be corrupt. */
module LeafWalk {
  import opened Bytes
  import opened Options

  // ---- struct.unpack_from, with Python's rule for negative offsets; None is struct.error ----

  function Start(b: seq<byte>, o: int, n: nat): Option<nat> {
    if o >= 0 then (if |b| - o >= n then Some(o) else None)
    else if o + n > 0 || o + |b| < 0 then None
    else Some(o + |b|)
  }

  function Be16(b: seq<byte>, o: int): Option<u16> {
    match Start(b, o, 2) case None => None case Some(s) => if s + 2 <= |b| then Some(JoinWord(b[s], b[s + 1])) else None
  }

  function Be32(b: seq<byte>, o: int): Option<u32> {
    match Start(b, o, 4)
    case None => None
    case Some(s) => if s + 4 <= |b| then Some(JoinLong(b[s], b[s + 1], b[s + 2], b[s + 3])) else None
  }

  // ---- The tree file ----

  datatype Rec = Rec(node: nat, bytes: seq<byte>)

  // The header node's first leaf and node size; the file is at least 512 bytes long.
  type Header = h: seq<byte> | |h| >= 512 witness seq<byte>(512, _ => 0)

  function FirstLeaf(data: Header): nat {
    Be32(data, 24).value
  }

  function NodeSize(data: Header): nat {
    var n := Be16(data, 32).value; if n == 0 then 512 else n
  }

  function NodeCount(data: Header): nat {
    |data| / NodeSize(data)
  }

  // Where a node begins: NodeSize times its number, by StartIs.
  function NodeStart(data: Header, node: nat): nat {
    if node == 0 then 0 else NodeStart(data, node - 1) + NodeSize(data)
  }

  lemma {:induction false} StartIs(data: Header, node: nat)
    ensures NodeStart(data, node) == node * NodeSize(data)
  {
    hide NodeSize;
    if node > 0 {
      StartIs(data, node - 1);
      assert node * NodeSize(data) == (node - 1) * NodeSize(data) + NodeSize(data);
    }
  }

  function Link(data: Header, node: nat): Option<u32> { Be32(data, NodeStart(data, node)) }
  function BackLink(data: Header, node: nat): Option<u32> { Be32(data, NodeStart(data, node) + 4) }
  function RecCount(data: Header, node: nat): Option<u16> { Be16(data, NodeStart(data, node) + 10) }

  function TypeOf(data: Header, node: nat): Option<byte> {
    var o := NodeStart(data, node) + 8; if o < |data| then Some(data[o]) else None
  }

  // ---- The same, byte by byte ----

  // The number in the n bytes from o on, counted from the end of the file where o is negative.
  function NumberAt(b: seq<byte>, o: int, n: nat): Option<nat> {
    if 0 <= o && o + n <= |b| then Some(Number(b[o..o + n]))
    else if -|b| <= o && o + n <= 0 then Some(Number(b[|b| + o..|b| + o + n]))
    else None
  }

  lemma Be16Means(b: seq<byte>, o: int)
    ensures Be16(b, o) == NumberAt(b, o, 2)
  {
    hide Number;
    if Be16(b, o).Some? {
      var s := Start(b, o, 2).value;
      assert b[s..s + 2] == [b[s], b[s + 1]];
      NumberOfTwo(b[s], b[s + 1]);
    }
  }

  lemma Be32Means(b: seq<byte>, o: int)
    ensures Be32(b, o) == NumberAt(b, o, 4)
  {
    hide Number;
    if Be32(b, o).Some? {
      var s := Start(b, o, 4).value;
      assert b[s..s + 4] == [b[s], b[s + 1], b[s + 2], b[s + 3]];
    }
  }

  /** The header fields the walk uses: the first leaf in bytes 24 to 27, the node size in bytes 32 and 33, and as
      many nodes as fit the file. */
  lemma HeaderFields(data: Header, node: nat)
    ensures Some(FirstLeaf(data)) == NumberAt(data, 24, 4)
    ensures Some(NodeSize(data)) == if NumberAt(data, 32, 2) == Some(0) then Some(512) else NumberAt(data, 32, 2)
    ensures node < NodeCount(data) <==> (node + 1) * NodeSize(data) <= |data|
  {
    hide NumberAt, Be16, Be32;
    Be32Means(data, 24);
    Be16Means(data, 32);
    HeaderReads(data);
    CountMeans(|data|, NodeSize(data), node);
  }

  lemma HeaderReads(data: Header)
    ensures Be32(data, 24).Some? && Be16(data, 32).Some?
  {
  }

  lemma CountMeans(len: nat, size: nat, node: nat)
    requires size > 0
    ensures node < len / size <==> (node + 1) * size <= len
  {
    var n := len / size;
    assert n * size <= len < (n + 1) * size;
    if node < n { Scale(node + 1, n, size); } else { Scale(n + 1, node + 1, size); }
  }

  lemma Scale(x: nat, y: nat, size: nat)
    requires x <= y
    ensures x * size <= y * size
  {
    assert y * size == x * size + (y - x) * size;
  }

  /** The fields of a node, counted from its start: forward link in its first four bytes, backward link in the next four, type in byte 8,
      record count in bytes 10 and 11; the offset table runs from the end of the node downwards. */
  lemma NodeFields(data: Header, node: nat, r: nat)
    ensures var s, size := NodeStart(data, node), NodeSize(data);
            && Link(data, node) == NumberAt(data, s, 4) && BackLink(data, node) == NumberAt(data, s + 4, 4)
            && TypeOf(data, node) == NumberAt(data, s + 8, 1) && RecCount(data, node) == NumberAt(data, s + 10, 2)
            && RecOffset(data, node, r) == NumberAt(data, s + size - (r + r) - 2, 2)
  {
    hide NumberAt, NodeSize, NodeStart, Be16, Be32;
    var s := NodeStart(data, node);
    Be32Means(data, s);
    Be32Means(data, s + 4);
    Be16Means(data, s + 10);
    Be16Means(data, s + NodeSize(data) - 2 - (r + r));
    ByteMeans(data, s + 8);
  }

  lemma ByteMeans(b: seq<byte>, o: nat)
    ensures NumberAt(b, o, 1) == if o < |b| then Some(b[o]) else None
  {
    if o < |b| {
      assert b[o..o + 1] == [b[o]];
      NumberOfOne(b[o]);
    }
  }

  // The header words of a node can be read.
  predicate Readable(data: Header, node: nat) {
    Link(data, node).Some? && BackLink(data, node).Some? && TypeOf(data, node).Some? && RecCount(data, node).Some?
  }

  /** The header words of a node can be read exactly where the file has the node's first twelve bytes. */
  lemma ReadableMeans(data: Header, node: nat)
    ensures Readable(data, node) <==> NodeStart(data, node) + 12 <= |data|
  {
    hide NodeSize, NodeStart, Number;
    NodeFields(data, node, 0);
  }

  predicate IsLeaf(data: Header, node: nat) {
    node != 0 && node < NodeCount(data) && Readable(data, node) && TypeOf(data, node).value == 0xFF
  }

  // The r-th entry of the offset table at the end of a node.
  function RecOffset(data: Header, node: nat, r: nat): Option<u16> {
    Be16(data, NodeStart(data, node) + NodeSize(data) - 2 - (r + r))
  }

  // ---- The records of one node ----

  // Outcome of reading the offset table from entry r on: records, and how many offsets were bad.
  datatype Scan = Broken | Scan(recs: seq<Rec>, bad: nat)

  function RecordAt(data: Header, node: nat, off: nat, next: Option<u16>): Rec
    requires node < NodeCount(data) && off < NodeSize(data)
  {
    var o, size := NodeStart(data, node), NodeSize(data);
    NodeInside(data, node);
    var end := if next.Some? && next.value > off && next.value <= size then next.value else size;
    Rec(node, data[o + off..o + end])
  }

  lemma NodeInside(data: Header, node: nat)
    requires node < NodeCount(data)
    ensures NodeStart(data, node) + NodeSize(data) <= |data|
  {
    StartIs(data, node);
    var n, s := NodeCount(data), NodeSize(data);
    assert n * s <= |data|;
    NodesFit(node, n, s);
  }

  lemma NodesFit(node: nat, n: nat, s: nat)
    requires node < n
    ensures node * s + s <= n * s
  {
    assert n * s == (node + 1) * s + (n - node - 1) * s;
  }

  function ScanFrom(data: Header, node: nat, r: nat): Scan
    requires IsLeaf(data, node)
    decreases RecCount(data, node).value - r
  {
    var count := RecCount(data, node).value;
    if r >= count then Scan([], 0)
    else
      var off := RecOffset(data, node, r);
      var next := if r + 1 < count then RecOffset(data, node, r + 1) else None;
      if off == None || (r + 1 < count && next == None) then Broken
      else match ScanFrom(data, node, r + 1)
        case Broken => Broken
        case Scan(recs, bad) =>
          if off.value >= NodeSize(data) then Scan(recs, bad + 1)
          else Scan([RecordAt(data, node, off.value, next)] + recs, bad)
  }

  function NodeScan(data: Header, node: nat): Scan
    requires IsLeaf(data, node)
  {
    ScanFrom(data, node, 0)
  }

  lemma LeafDefined(data: Header, node: nat)
    requires IsLeaf(data, node)
    ensures Link(data, node).Some? && RecCount(data, node).Some? && node != 0 && node < NodeCount(data)
  {
  }

  /** No bad offsets exactly when every entry of the offset table lies inside the node. */
  lemma {:induction false} ScanClean(data: Header, node: nat, r: nat)
    requires IsLeaf(data, node) && ScanFrom(data, node, r).Scan?
    ensures ScanFrom(data, node, r).bad == 0
            <==> forall k :: r <= k < RecCount(data, node).value ==>
                   RecOffset(data, node, k).Some? && RecOffset(data, node, k).value < NodeSize(data)
    decreases RecCount(data, node).value - r
  {
    hide IsLeaf, RecOffset, RecCount, NodeSize, NodeCount, RecordAt;
    LeafDefined(data, node);
    if r < RecCount(data, node).value {
      ScanClean(data, node, r + 1);
    }
  }

  // ---- The chain of leaves ----

  /** The leaf nodes of the chain from the first leaf, in order, none twice. */
  ghost predicate Chain(data: Header, path: seq<nat>) {
    && (forall k :: 0 <= k < |path| ==> IsLeaf(data, path[k]) && path[k] == NodeAt(data, path, k))
    && (forall j, k :: 0 <= j < k < |path| ==> path[j] != path[k])
  }

  // The node the chain leads to after the first k nodes of path.
  function NodeAt(data: Header, path: seq<nat>, k: nat): nat
    requires k <= |path|
  {
    if k == 0 then FirstLeaf(data)
    else match Link(data, path[k - 1]) case Some(n) => n case None => 0
  }

  ghost predicate Scanned(data: Header, path: seq<nat>) {
    forall k :: 0 <= k < |path| ==> IsLeaf(data, path[k]) && NodeScan(data, path[k]).Scan?
  }

  /** The records of the nodes of a path, in chain order. */
  ghost function RecordsOf(data: Header, path: seq<nat>): seq<Rec>
    requires Scanned(data, path)
    decreases |path|
  {
    if path == [] then []
    else
      var k := |path| - 1;
      assert IsLeaf(data, path[k]);
      RecordsOf(data, path[..k]) + NodeScan(data, path[k]).recs
  }

  ghost function BadOf(data: Header, path: seq<nat>): nat
    requires Scanned(data, path)
    decreases |path|
  {
    if path == [] then 0
    else
      var k := |path| - 1;
      assert IsLeaf(data, path[k]);
      BadOf(data, path[..k]) + NodeScan(data, path[k]).bad
  }

  // How a walk ended: at link 0, at a node seen before, behind the last node, at a node that is no leaf.
  datatype Ending = AtZero | Loop(node: nat) | PastEof(node: nat) | NotLeaf(node: nat)

  datatype Outcome = Crashed | Done(leaves: seq<Rec>, visited: nat, bad: nat, ending: Ending)

  ghost predicate EndsAs(data: Header, path: seq<nat>, ending: Ending) {
    var n := NodeAt(data, path, |path|);
    match ending
    case AtZero => n == 0
    case Loop(m) => m == n != 0 && n in path
    case PastEof(m) => m == n != 0 && n !in path && n >= NodeCount(data)
    case NotLeaf(m) => m == n != 0 && n !in path && n < NodeCount(data) && Readable(data, n) && !IsLeaf(data, n)
  }

  /** What a walk that did not crash reports: the records of the whole chain in chain order, one anomaly
      for every bad record offset, and one more when the chain did not end at link 0. */
  ghost predicate Reports(data: Header, path: seq<nat>, out: Outcome) {
    && out.Done? && Chain(data, path) && Scanned(data, path) && EndsAs(data, path, out.ending)
    && out.leaves == RecordsOf(data, path)
    && out.bad == BadOf(data, path) + (if out.ending.AtZero? then 0 else 1)
    && out.visited == |path| + (if out.ending.PastEof? || out.ending.NotLeaf? then 1 else 0)
  }

  // {0, .., n - 1}
  function Below(n: nat): (s: set<nat>)
    ensures |s| == n && forall x: nat :: x in s <==> x < n
  {
    if n == 0 then {} else Below(n - 1) + {n - 1}
  }

  function Elements(path: seq<nat>): (s: set<nat>)
    ensures forall x :: x in s <==> x in path
    decreases |path|
  {
    if path == [] then {} else Elements(path[..|path| - 1]) + {path[|path| - 1]}
  }

  lemma {:induction false} DistinctSize(path: seq<nat>)
    requires forall j, k :: 0 <= j < k < |path| ==> path[j] != path[k]
    ensures |Elements(path)| == |path|
    decreases |path|
  {
    if path != [] {
      DistinctSize(path[..|path| - 1]);
    }
  }

  lemma {:induction false} SubsetSize(s: set<nat>, t: set<nat>)
    requires s <= t
    ensures |s| <= |t|
    decreases s
  {
    if s != {} {
      var x: nat :| x in s;
      SubsetSize(s - {x}, t - {x});
    }
  }

  /** A chain visits at most as many nodes as the file has. */
  lemma ChainBounded(data: Header, path: seq<nat>)
    requires Chain(data, path)
    ensures |path| <= NodeCount(data)
  {
    hide IsLeaf, NodeAt, NodeCount;
    DistinctSize(path);
    LeavesBelow(data, path);
    SubsetSize(Elements(path), Below(NodeCount(data)));
  }

  lemma LeavesBelow(data: Header, path: seq<nat>)
    requires Chain(data, path)
    ensures Elements(path) <= Below(NodeCount(data))
  {
    hide Below, Elements, NodeCount, Readable, NodeAt;
  }

  // ---- The walk ----

  /** The records of a node: ScanFrom, read with a loop over the offset table. */
  method ReadRecords(data: Header, node: nat) returns (scan: Scan)
    requires IsLeaf(data, node)
    ensures scan == NodeScan(data, node)
  {
    hide IsLeaf, RecOffset, RecCount, NodeSize, NodeCount, RecordAt, ScanFrom, Prepend, NodeScan;
    LeafDefined(data, node);
    var nrecs := RecCount(data, node).value;
    var recs, bad := [], 0;
    var r := 0;
    ScanStart(data, node);
    while r < nrecs
      invariant r <= nrecs && Prepend(recs, bad, ScanFrom(data, node, r)) == NodeScan(data, node)
      decreases nrecs as int - r
    {
      ScanStep(data, node, r, recs, bad);
      var off := RecOffset(data, node, r);
      if off == None { return Broken; }
      var next := None;
      if r + 1 < nrecs {
        next := RecOffset(data, node, r + 1);
        if next == None { return Broken; }
      }
      if off.value >= NodeSize(data) {
        bad := bad + 1;
      } else {
        recs := recs + [RecordAt(data, node, off.value, next)];
      }
      r := r + 1;
    }
    ScanEnd(data, node, recs, bad);
    return Scan(recs, bad);
  }

  function Prepend(recs: seq<Rec>, bad: nat, rest: Scan): Scan {
    match rest case Broken => Broken case Scan(rs, b) => Scan(recs + rs, bad + b)
  }

  lemma ScanStart(data: Header, node: nat)
    requires IsLeaf(data, node)
    ensures Prepend([], 0, ScanFrom(data, node, 0)) == NodeScan(data, node)
  {
    hide ScanFrom;
    var s := NodeScan(data, node);
    if s.Scan? { assert [] + s.recs == s.recs; }
  }

  lemma ScanEnd(data: Header, node: nat, recs: seq<Rec>, bad: nat)
    requires IsLeaf(data, node)
    ensures Prepend(recs, bad, ScanFrom(data, node, RecCount(data, node).value)) == Scan(recs, bad)
  {
    assert recs + [] == recs;
  }

  // What one entry of the offset table contributes.
  lemma ScanStep(data: Header, node: nat, r: nat, recs: seq<Rec>, bad: nat)
    requires IsLeaf(data, node) && r < RecCount(data, node).value && node < NodeCount(data)
    ensures var off, last := RecOffset(data, node, r), r + 1 == RecCount(data, node).value;
            var next := if last then None else RecOffset(data, node, r + 1);
            var now, rest := Prepend(recs, bad, ScanFrom(data, node, r)), ScanFrom(data, node, r + 1);
            if off == None || (!last && next == None) then now == Broken
            else if off.value >= NodeSize(data) then now == Prepend(recs, bad + 1, rest)
            else now == Prepend(recs + [RecordAt(data, node, off.value, next)], bad, rest)
  {
    hide IsLeaf, RecOffset, RecCount, NodeSize, NodeCount, RecordAt;
    var rest := ScanFrom(data, node, r + 1);
    if rest.Scan? {
      forall x: Rec
        ensures recs + ([x] + rest.recs) == recs + [x] + rest.recs
      {
      }
    }
  }

  // How a walk along `path` comes out.
  ghost predicate ComesOut(data: Header, path: seq<nat>, out: Outcome) {
    && |path| <= NodeCount(data)
    && (out.Done? ==> Reports(data, path, out)) && (out.Crashed? ==> CrashesAfter(data, path))
  }

  /** What the walk of a file comes to. */
  ghost predicate WalkGives(data: Header, out: Outcome) {
    exists path :: ComesOut(data, path, out)
  }

  /** The walk along the leaf chain. It ends after at most one step more than there are nodes. */
  method WalkLeaves(data: Header) returns (out: Outcome)
    ensures WalkGives(data, out)
  {
    hide IsLeaf, NodeCount, NodeSize, Link, NodeScan, Readable, Chain, Scanned, RecordsOf, BadOf, NodeAt, BackLink, TypeOf,
         RecCount, Reports, Elements;
    ghost var path: seq<nat> := [];
    var leaves, visited, node, bad := [], {}, FirstLeaf(data), 0;
    EmptyChain(data);
    while node != 0
      invariant Chain(data, path) && Scanned(data, path) && node == NodeAt(data, path, |path|)
      invariant visited == Elements(path) && |visited| == |path| <= NodeCount(data)
      invariant leaves == RecordsOf(data, path) && bad == BadOf(data, path)
      decreases NodeCount(data) - |path|
    {
      if node in visited {
        Reported(data, path, Loop(node));
        out := Done(leaves, |visited|, bad + 1, Loop(node));
        assert ComesOut(data, path, out);
        return;
      }
      if node >= NodeCount(data) {
        Reported(data, path, PastEof(node));
        out := Done(leaves, |visited| + 1, bad + 1, PastEof(node));
        assert ComesOut(data, path, out);
        return;
      }
      if !Readable(data, node) {
        out := Crashed;
        assert ComesOut(data, path, out);
        return;
      }
      LeafMeans(data, node);
      if TypeOf(data, node).value != 0xFF {
        Reported(data, path, NotLeaf(node));
        out := Done(leaves, |visited| + 1, bad + 1, NotLeaf(node));
        assert ComesOut(data, path, out);
        return;
      }
      var scan := ReadRecords(data, node);
      if scan == Broken {
        out := Crashed;
        assert ComesOut(data, path, out);
        return;
      }
      ChainGrows(data, path, node);
      visited, leaves, bad := visited + {node}, leaves + scan.recs, bad + scan.bad;
      path := path + [node];
      node := Link(data, node).value;
    }
    Reported(data, path, AtZero);
    out := Done(leaves, |visited|, bad, AtZero);
    assert ComesOut(data, path, out);
    return;
  }

  lemma Reported(data: Header, path: seq<nat>, ending: Ending)
    requires Chain(data, path) && Scanned(data, path) && EndsAs(data, path, ending)
    ensures Reports(data, path, Done(RecordsOf(data, path),
                                     |path| + (if ending.PastEof? || ending.NotLeaf? then 1 else 0),
                                     BadOf(data, path) + (if ending.AtZero? then 0 else 1), ending))
  {
    hide Chain, Scanned, RecordsOf, BadOf, EndsAs;
  }

  /** A crash means a node of the chain whose header or offset table cannot be read. */
  ghost predicate CrashesAfter(data: Header, path: seq<nat>) {
    var n := NodeAt(data, path, |path|);
    && Chain(data, path) && Scanned(data, path) && n != 0 && n !in path && n < NodeCount(data)
    && (!Readable(data, n) || (IsLeaf(data, n) && NodeScan(data, n).Broken?))
  }

  lemma LeafMeans(data: Header, node: nat)
    requires Readable(data, node)
    ensures Link(data, node).Some? && TypeOf(data, node).Some?
    ensures IsLeaf(data, node) <==> node != 0 && node < NodeCount(data) && TypeOf(data, node).value == 0xFF
  {
  }

  lemma EmptyChain(data: Header)
    ensures Chain(data, []) && Scanned(data, []) && NodeAt(data, [], 0) == FirstLeaf(data)
    ensures RecordsOf(data, []) == [] && BadOf(data, []) == 0 && Elements([]) == {}
  {
  }

  lemma ChainGrows(data: Header, path: seq<nat>, node: nat)
    requires Chain(data, path) && Scanned(data, path) && node == NodeAt(data, path, |path|) && node !in path
    requires IsLeaf(data, node) && NodeScan(data, node).Scan?
    ensures var q := path + [node];
            && Chain(data, q) && Scanned(data, q) && |q| <= NodeCount(data) && Elements(q) == Elements(path) + {node}
            && |Elements(q)| == |q|
            && NodeAt(data, q, |q|) == Link(data, node).value
            && RecordsOf(data, q) == RecordsOf(data, path) + NodeScan(data, node).recs
            && BadOf(data, q) == BadOf(data, path) + NodeScan(data, node).bad
  {
    hide IsLeaf, NodeScan, NodeCount, NodeSize, Elements;
    var q := path + [node];
    LeafDefined(data, node);
    GrownChain(data, path, node);
    GrownSums(data, path, node);
    ChainBounded(data, q);
    DistinctSize(q);
  }

  lemma GrownChain(data: Header, path: seq<nat>, node: nat)
    requires Chain(data, path) && node == NodeAt(data, path, |path|) && node !in path && IsLeaf(data, node)
    ensures Chain(data, path + [node]) && Elements(path + [node]) == Elements(path) + {node}
    ensures NodeAt(data, path + [node], |path| + 1) == Link(data, node).value
  {
    hide IsLeaf, NodeAt;
    LeafDefined(data, node);
    var q := path + [node];
    assert q[..|path|] == path;
    NodeAtLast(data, q);
    forall k | 0 <= k < |q|
      ensures IsLeaf(data, q[k]) && q[k] == NodeAt(data, q, k)
    {
      NodeAtSame(data, path, q, k);
      if k < |path| { assert q[k] == path[k]; }
    }
  }

  lemma NodeAtSame(data: Header, path: seq<nat>, q: seq<nat>, k: nat)
    requires path <= q && k <= |path|
    ensures NodeAt(data, q, k) == NodeAt(data, path, k)
  {
  }

  lemma NodeAtLast(data: Header, q: seq<nat>)
    requires q != [] && Link(data, q[|q| - 1]).Some?
    ensures NodeAt(data, q, |q|) == Link(data, q[|q| - 1]).value
  {
  }

  lemma GrownSums(data: Header, path: seq<nat>, node: nat)
    requires Scanned(data, path) && IsLeaf(data, node) && NodeScan(data, node).Scan?
    ensures var q := path + [node];
            && Scanned(data, q) && RecordsOf(data, q) == RecordsOf(data, path) + NodeScan(data, node).recs
            && BadOf(data, q) == BadOf(data, path) + NodeScan(data, node).bad
  {
    hide IsLeaf, NodeScan;
    assert (path + [node])[..|path|] == path;
  }

  // ---- What the anomaly count means ----

  // Every entry of the node's offset table can be read and lies inside the node.
  ghost predicate TableInside(data: Header, node: nat)
    requires IsLeaf(data, node)
  {
    forall r :: 0 <= r < RecCount(data, node).value ==>
      RecOffset(data, node, r).Some? && RecOffset(data, node, r).value < NodeSize(data)
  }

  /** A sound leaf chain: distinct leaf nodes from the first leaf to link 0, every record offset inside its node. */
  ghost predicate Sound(data: Header, path: seq<nat>) {
    && Chain(data, path) && NodeAt(data, path, |path|) == 0
    && forall k :: 0 <= k < |path| ==> IsLeaf(data, path[k]) && TableInside(data, path[k])
  }

  lemma {:induction false} ScanDefined(data: Header, node: nat, r: nat)
    requires IsLeaf(data, node) && TableInside(data, node)
    ensures ScanFrom(data, node, r).Scan?
    decreases RecCount(data, node).value - r
  {
    hide IsLeaf, NodeSize, NodeCount, RecordAt, RecOffset, RecCount;
    LeafDefined(data, node);
    if r < RecCount(data, node).value { ScanDefined(data, node, r + 1); }
  }

  // The r-th record of a node whose offset table is sound: up to the next offset, or to the end of the node.
  ghost function SoundRecord(data: Header, node: nat, r: nat): Rec
    requires IsLeaf(data, node) && TableInside(data, node) && node < NodeCount(data) && r < RecCount(data, node).value
  {
    RecordAt(data, node, RecOffset(data, node, r).value,
             if r + 1 < RecCount(data, node).value then RecOffset(data, node, r + 1) else None)
  }

  // The bytes of the node at `start` from offset `off` up to `next` where that is greater and inside the node, and up
  // to the end of the node otherwise.
  predicate Spans(data: seq<byte>, start: nat, size: nat, off: nat, next: nat, bytes: seq<byte>) {
    && off < size && start + size <= |data|
    && bytes == if off < next <= size then data[start + off..start + next] else data[start + off..start + size]
  }

  // r is the k-th record of a node: it begins at the k-th offset and runs up to the one behind it.
  ghost predicate IsRecord(data: Header, node: nat, k: nat, r: Rec)
    requires IsLeaf(data, node) && TableInside(data, node) && k < RecCount(data, node).value
  {
    var next := if k + 1 < RecCount(data, node).value then RecOffset(data, node, k + 1).value else 0;
    r.node == node && Spans(data, node * NodeSize(data), NodeSize(data), RecOffset(data, node, k).value, next, r.bytes)
  }

  /** The record collected for an entry of any offset table, sound or not. */
  lemma RecordSpans(data: Header, node: nat, off: nat, next: Option<u16>)
    requires node < NodeCount(data) && off < NodeSize(data)
    ensures var r := RecordAt(data, node, off, next);
            r.node == node
            && Spans(data, node * NodeSize(data), NodeSize(data), off, if next.Some? then next.value else 0, r.bytes)
  {
    hide NodeSize, NodeCount;
    StartIs(data, node);
    NodeInside(data, node);
  }

  lemma RecordIs(data: Header, node: nat, k: nat)
    requires IsLeaf(data, node) && TableInside(data, node) && node < NodeCount(data) && k < RecCount(data, node).value
    ensures IsRecord(data, node, k, SoundRecord(data, node, k))
  {
    hide IsLeaf, NodeSize, NodeCount, RecOffset, RecCount, RecordAt, Spans;
    LeafDefined(data, node);
    var next := if k + 1 < RecCount(data, node).value then RecOffset(data, node, k + 1) else None;
    RecordSpans(data, node, RecOffset(data, node, k).value, next);
  }

  /** From a node whose offset table is sound every record is collected, in the order of the table. */
  lemma {:induction false} SoundRecords(data: Header, node: nat, r: nat)
    requires IsLeaf(data, node) && TableInside(data, node) && node < NodeCount(data) && r <= RecCount(data, node).value
    ensures ScanFrom(data, node, r).Scan? && |ScanFrom(data, node, r).recs| == RecCount(data, node).value - r
    ensures var recs := ScanFrom(data, node, r).recs;
            forall j :: 0 <= j < |recs| ==> IsRecord(data, node, r + j, recs[j])
    decreases RecCount(data, node).value - r
  {
    hide IsLeaf, NodeSize, NodeCount, RecordAt, RecOffset, RecCount, IsRecord;
    LeafDefined(data, node);
    if r < RecCount(data, node).value {
      SoundRecords(data, node, r + 1);
      RecordIs(data, node, r);
      var rest, recs := ScanFrom(data, node, r + 1).recs, ScanFrom(data, node, r).recs;
      assert recs == [SoundRecord(data, node, r)] + rest;
      forall j | 0 <= j < |recs|
        ensures IsRecord(data, node, r + j, recs[j])
      {
        if j > 0 { assert recs[j] == rest[j - 1] && IsRecord(data, node, r + 1 + (j - 1), rest[j - 1]); }
      }
    }
  }

  /** The walk counts no anomaly in a node exactly when the node's offset table is sound. */
  lemma NodeClean(data: Header, node: nat)
    requires IsLeaf(data, node)
    ensures NodeScan(data, node).Scan? && NodeScan(data, node).bad == 0 <==> TableInside(data, node)
  {
    hide IsLeaf, ScanFrom, RecCount, RecOffset, NodeSize;
    LeafDefined(data, node);
    if TableInside(data, node) { ScanDefined(data, node, 0); }
    if NodeScan(data, node).Scan? { ScanClean(data, node, 0); }
  }

  lemma {:induction false} BadZero(data: Header, path: seq<nat>)
    requires Scanned(data, path)
    ensures BadOf(data, path) == 0 <==> forall k :: 0 <= k < |path| ==> IsLeaf(data, path[k]) && NodeScan(data, path[k]).bad == 0
    decreases |path|
  {
    hide IsLeaf, NodeScan;
    if path != [] {
      var front := path[..|path| - 1];
      assert forall k :: 0 <= k < |front| ==> front[k] == path[k];
      BadZero(data, front);
    }
  }

  /** Two chains of the same file run along each other. */
  lemma {:induction false} ChainPrefix(data: Header, p: seq<nat>, q: seq<nat>, k: nat)
    requires Chain(data, p) && Chain(data, q) && k <= |p| && k <= |q|
    ensures p[..k] == q[..k]
  {
    hide IsLeaf, NodeAt;
    if k > 0 {
      var r := p[..k - 1];
      ChainPrefix(data, p, q, k - 1);
      assert r <= p && r <= q;
      NodeAtSame(data, r, p, k - 1);
      NodeAtSame(data, r, q, k - 1);
      assert p[..k] == r + [p[k - 1]] && q[..k] == r + [q[k - 1]];
    }
  }

  /** No chain goes on behind link 0, and a chain that does not end there stops only where the walk does. */
  lemma SoundIsWhole(data: Header, path: seq<nat>, ending: Ending, q: seq<nat>)
    requires Chain(data, path) && EndsAs(data, path, ending) && Chain(data, q) && NodeAt(data, q, |q|) == 0
    ensures path == q && ending == AtZero
  {
    hide NodeCount, Readable, TypeOf, NodeSize, Link;
    var k := if |path| < |q| then |path| else |q|;
    ChainPrefix(data, path, q, k);
    assert path[..k] <= path && path[..k] <= q;
    NodeAtSame(data, path[..k], path, k);
    NodeAtSame(data, path[..k], q, k);
    if |path| < |q| {
      assert false;
    } else if |q| < |path| {
      assert false;
    }
  }

  /** The outcome of a walk is determined by the file. */
  lemma WalkUnique(data: Header, out: Outcome, out': Outcome)
    requires WalkGives(data, out) && WalkGives(data, out')
    ensures out == out'
  {
    hide ComesOut;
    var p :| ComesOut(data, p, out);
    var q :| ComesOut(data, q, out');
    NotLonger(data, p, out, q, out');
    NotLonger(data, q, out', p, out);
    SamePath(data, p, q, out, out');
  }

  // A walk that has come out does not go on.
  lemma NotLonger(data: Header, p: seq<nat>, out: Outcome, q: seq<nat>, out': Outcome)
    requires ComesOut(data, p, out) && ComesOut(data, q, out')
    ensures |q| <= |p|
  {
    hide NodeCount, TypeOf, NodeSize, Link, RecordsOf, BadOf, NodeScan, Chain, Scanned, NodeAt, BackLink, RecCount, IsLeaf, Readable;
    if |p| < |q| {
      GoesOn(data, p, q);
      LeafDefined(data, NodeAt(data, p, |p|));
      assert false;
    }
  }

  // The node a chain leads to, where a longer chain exists.
  lemma GoesOn(data: Header, p: seq<nat>, q: seq<nat>)
    requires Chain(data, p) && Chain(data, q) && Scanned(data, q) && |p| < |q|
    ensures var n := NodeAt(data, p, |p|); n !in p && IsLeaf(data, n) && Readable(data, n) && NodeScan(data, n).Scan?
  {
    hide NodeCount, TypeOf, NodeSize, Link, NodeScan, BackLink, RecCount;
    ChainPrefix(data, p, q, |p|);
    assert p[..|p|] == p && p <= q;
    NodeAtSame(data, p, q, |p|);
    var n := q[|p|];
    assert IsLeaf(data, n) && NodeScan(data, n).Scan?;
    assert forall k :: 0 <= k < |p| ==> p[k] == q[k] != n;
  }

  lemma SamePath(data: Header, p: seq<nat>, q: seq<nat>, out: Outcome, out': Outcome)
    requires ComesOut(data, p, out) && ComesOut(data, q, out') && |p| == |q|
    ensures out == out'
  {
    hide NodeCount, TypeOf, NodeSize, Link, RecordsOf, BadOf, NodeScan;
    ChainPrefix(data, p, q, |p|);
    assert p == p[..|p|] == q[..|p|] == q;
  }

  /** The walk reports no anomaly exactly when the leaf chain is sound; it then has visited the whole
      chain and collected its records in order. */
  lemma NoAnomalyMeansSound(data: Header, path: seq<nat>, out: Outcome)
    requires Reports(data, path, out)
    ensures out.bad == 0 <==> exists q :: Sound(data, q)
    ensures forall q :: Sound(data, q) ==>
              q == path && Scanned(data, q) && out.leaves == RecordsOf(data, q) && out.visited == |q|
  {
    hide Chain, NodeAt, RecordsOf, BadOf, EndsAs, NodeScan, IsLeaf, TableInside;
    BadZero(data, path);
    forall k | 0 <= k < |path|
      ensures IsLeaf(data, path[k]) && (NodeScan(data, path[k]).bad == 0 <==> TableInside(data, path[k]))
    {
      NodeClean(data, path[k]);
    }
    forall q | Sound(data, q)
      ensures q == path && out.ending == AtZero
    {
      SoundIsWhole(data, path, out.ending, q);
    }
    if out.bad == 0 {
      AtZeroMeans(data, path, out.ending);
      assert Sound(data, path);
    }
  }

  lemma AtZeroMeans(data: Header, path: seq<nat>, ending: Ending)
    requires EndsAs(data, path, ending)
    ensures ending.AtZero? <==> NodeAt(data, path, |path|) == 0
  {
  }

  /** With nodes big enough for a header and for the offset table of every record they claim, nothing is
      read outside the file, so the walk does not crash. */
  lemma NoCrash(data: Header, out: Outcome)
    requires NodeSize(data) >= 14 && WalkGives(data, out)
    requires forall n :: IsLeaf(data, n) ==> 2 * RecCount(data, n).value + 14 <= NodeSize(data)
    ensures out.Done?
  {
    hide NodeSize, RecCount, IsLeaf, CrashesAfter, Reports;
    var path :| ComesOut(data, path, out);
    NoCrashAfter(data, path);
  }

  lemma NoCrashAfter(data: Header, path: seq<nat>)
    requires NodeSize(data) >= 14
    requires forall n :: IsLeaf(data, n) ==> 2 * RecCount(data, n).value + 14 <= NodeSize(data)
    ensures !CrashesAfter(data, path)
  {
    hide Chain, NodeAt;
    var n := NodeAt(data, path, |path|);
    if n != 0 && n < NodeCount(data) {
      HeaderReadable(data, n);
      if IsLeaf(data, n) { TableReadable(data, n, 0); }
    }
  }

  lemma HeaderReadable(data: Header, node: nat)
    requires NodeSize(data) >= 14 && node < NodeCount(data)
    ensures Readable(data, node)
  {
    NodeInside(data, node);
    hide NodeSize, NodeCount;
  }

  lemma {:induction false} TableReadable(data: Header, node: nat, r: nat)
    requires IsLeaf(data, node) && 2 * RecCount(data, node).value + 14 <= NodeSize(data)
    ensures ScanFrom(data, node, r).Scan?
    decreases RecCount(data, node).value - r
  {
    hide IsLeaf, NodeSize, NodeCount, RecordAt, RecOffset, RecCount;
    LeafDefined(data, node);
    if r < RecCount(data, node).value {
      EntryReadable(data, node, r);
      if r + 1 < RecCount(data, node).value { EntryReadable(data, node, r + 1); }
      TableReadable(data, node, r + 1);
    }
  }

  lemma EntryReadable(data: Header, node: nat, r: nat)
    requires IsLeaf(data, node) && r < RecCount(data, node).value && 2 * RecCount(data, node).value + 14 <= NodeSize(data)
    ensures RecOffset(data, node, r).Some?
  {
    LeafDefined(data, node);
    NodeInside(data, node);
    hide NodeSize, NodeCount, IsLeaf, RecCount;
  }

  // ---- parse_btree ----

  datatype Parse = TooSmall(size: nat) | NoHeaderNode(nodeType: byte) | Walked(out: Outcome)

  method ParseBtree(data: seq<byte>) returns (r: Parse)
    ensures r.TooSmall? <==> |data| < 512
    ensures r.NoHeaderNode? <==> |data| >= 512 && data[8] != 1
    ensures r.Walked? ==> WalkGives(data, r.out)
    ensures r.Walked? && r.out.Done? ==> (r.out.bad == 0 <==> exists q :: Sound(data, q))
  {
    hide ComesOut, Sound, NodeCount;
    if |data| < 512 { return TooSmall(|data|); }
    if data[8] != 1 { return NoHeaderNode(data[8]); }
    var out := WalkLeaves(data);
    if out.Done? { NoAnomaly(data, out); }
    return Walked(out);
  }

  lemma NoAnomaly(data: Header, out: Outcome)
    requires WalkGives(data, out) && out.Done?
    ensures out.bad == 0 <==> exists q :: Sound(data, q)
  {
    hide Sound, NodeCount;
    var path :| ComesOut(data, path, out);
    NoAnomalyMeansSound(data, path, out);
  }
}
