/** The two directions in which hfs_forensics.py maps a volume: from a fork to its
    bytes (read_fork) and from a disk sector to the fork offset it holds (owner_of). */
module ExtentMaps {
  import opened Bytes

  // A run of allocation blocks.
  datatype Extent = Extent(start: u16, count: u16)

  // The image, the first sector of the partition, drAlBlSt and drAlBlkSiz.
  datatype Volume = Volume(img: seq<byte>, partStart: nat, alBlSt: u16, blockSize: u32)

  const SECTOR: nat := 512

  function SectorsPerBlock(v: Volume): nat {
    v.blockSize / SECTOR
  }

  /** The disk sector an allocation block begins at. */
  function AbToLba(v: Volume, ab: nat): nat {
    v.partStart + v.alBlSt + ab * SectorsPerBlock(v)
  }

  /** Block 0 begins at drAlBlSt of the partition, every other block a block size of whole sectors further on. */
  lemma AbToLbaIs(v: Volume, ab: nat)
    ensures AbToLba(v, 0) == v.partStart + v.alBlSt && AbToLba(v, ab + 1) == AbToLba(v, ab) + v.blockSize / 512
  {
    hide SectorsPerBlock;
    assert (ab + 1) * SectorsPerBlock(v) == ab * SectorsPerBlock(v) + SectorsPerBlock(v);
    PerBlock(v);
  }

  lemma PerBlock(v: Volume)
    ensures SectorsPerBlock(v) == v.blockSize / 512
  {
  }

  // The first sector of an extent and the sector behind it.
  function Lo(v: Volume, e: Extent): nat { AbToLba(v, e.start) }
  function Hi(v: Volume, e: Extent): nat { Lo(v, e) + e.count * SectorsPerBlock(v) }

  // A Python slice with non-negative bounds.
  function Slice(b: seq<byte>, lo: nat, hi: nat): seq<byte> {
    if lo >= |b| || lo >= hi then [] else if hi >= |b| then b[lo..] else b[lo..hi]
  }

  function ExtentBytes(v: Volume, e: Extent): seq<byte> {
    var o := Lo(v, e) * SECTOR; Slice(v.img, o, o + e.count * v.blockSize)
  }

  /** Of an extent as much is read as the image holds. */
  lemma ExtentInImage(v: Volume, e: Extent, j: nat)
    ensures j < |ExtentBytes(v, e)| <==> j < e.count * v.blockSize && Lo(v, e) * SECTOR + j < |v.img|
    ensures j < |ExtentBytes(v, e)| ==> ExtentBytes(v, e)[j] == v.img[Lo(v, e) * SECTOR + j]
  {
    hide Lo;
  }

  /** All bytes of a list of extents, one after the other. */
  function ForkBytes(v: Volume, exts: seq<Extent>): seq<byte> {
    if exts == [] then [] else ExtentBytes(v, exts[0]) + ForkBytes(v, exts[1..])
  }

  function Take(b: seq<byte>, n: nat): seq<byte> {
    if n >= |b| then b else b[..n]
  }

  /** read_fork: stops reading as soon as it has enough, and yields the first `size` bytes of the fork. */
  method ReadFork(v: Volume, exts: seq<Extent>, size: nat) returns (r: seq<byte>)
    ensures r == Take(ForkBytes(v, exts), size)
  {
    hide ExtentBytes;
    var data: seq<byte> := [];
    var k := 0;
    assert exts[0..] == exts && [] + ForkBytes(v, exts) == ForkBytes(v, exts);
    while k < |exts|
      invariant k <= |exts| && data + ForkBytes(v, exts[k..]) == ForkBytes(v, exts)
    {
      var e := exts[k];
      assert exts[k..][0] == e && exts[k..][1..] == exts[k + 1..];
      ZeroExtent(v, e);
      ReadMore(data, ExtentBytes(v, e), ForkBytes(v, exts[k + 1..]));
      if e.count != 0 {
        data := data + ExtentBytes(v, e);
        if |data| >= size {
          PrefixTaken(data, ForkBytes(v, exts[k + 1..]), size);
          return data[..size];
        }
      }
      k := k + 1;
    }
    assert data + [] == data;
    return if size < |data| then data[..size] else data;
  }

  lemma ReadMore(a: seq<byte>, b: seq<byte>, c: seq<byte>)
    ensures a + (b + c) == a + b + c && (b == [] ==> b + c == c)
  {
  }

  lemma PrefixTaken(a: seq<byte>, b: seq<byte>, n: nat)
    requires n <= |a|
    ensures Take(a + b, n) == a[..n]
  {
  }

  lemma ZeroExtent(v: Volume, e: Extent)
    ensures e.count == 0 ==> ExtentBytes(v, e) == []
  {
  }

  // ---- The reverse map ----

  datatype Fork = Data | Rsrc

  datatype File = File(cnid: u32, parId: u32, name: string, dataExts: seq<Extent>, rsrcExts: seq<Extent>)

  type Overflow = map<(u32, Fork), seq<Extent>>

  datatype Owner = Owner(name: string, parId: u32, fork: Fork, off: nat, cnid: u32)

  /** The extents of a fork: the catalog record's, then those of the extents-overflow file. */
  function AllExtents(f: File, fork: Fork, overflow: Overflow): seq<Extent> {
    (if fork == Data then f.dataExts else f.rsrcExts)
    + (if (f.cnid, fork) in overflow then overflow[(f.cnid, fork)] else [])
  }

  // Bytes of the extents before the k-th.
  function Before(v: Volume, exts: seq<Extent>, k: nat): nat
    requires k <= |exts|
  {
    if k == 0 then 0 else Before(v, exts, k - 1) + exts[k - 1].count * v.blockSize
  }

  // The k-th extent holds the sector, which is then at fork offset `off`.
  predicate Holds(v: Volume, exts: seq<Extent>, k: int, lba: nat, off: int) {
    && 0 <= k < |exts| && Lo(v, exts[k]) <= lba < Hi(v, exts[k])
    && off == Before(v, exts, k) + (lba - Lo(v, exts[k])) * SECTOR
  }

  ghost predicate OwnsAt(v: Volume, exts: seq<Extent>, lba: nat, off: int) {
    exists k :: Holds(v, exts, k, lba, off)
  }

  predicate Ascending(offs: seq<nat>) {
    forall j, k :: 0 <= j < k < |offs| ==> offs[j] < offs[k]
  }

  predicate AllBelow(offs: seq<nat>, n: int) {
    forall j :: 0 <= j < |offs| ==> offs[j] < n
  }

  // The offsets the first k extents contribute.
  ghost predicate OffsetsOf(v: Volume, exts: seq<Extent>, k: nat, lba: nat, offs: seq<nat>)
    requires k <= |exts|
  {
    && (forall off :: off in offs <==> exists j :: j < k && Holds(v, exts, j, lba, off))
    && Ascending(offs) && AllBelow(offs, Before(v, exts, k))
  }

  /** The offsets at which one fork holds a sector, in ascending order and none twice. */
  method ForkOffsets(v: Volume, exts: seq<Extent>, lba: nat) returns (offs: seq<nat>)
    ensures forall off :: off in offs <==> OwnsAt(v, exts, lba, off)
    ensures Ascending(offs)
  {
    hide OffsetsOf, Holds;
    offs := [];
    var fo, k := 0, 0;
    NoOffsets(v, exts, lba);
    while k < |exts|
      invariant k <= |exts| && fo == Before(v, exts, k) && OffsetsOf(v, exts, k, lba, offs)
    {
      var e := exts[k];
      ghost var was := offs;
      if e.count != 0 {
        var lo := AbToLba(v, e.start);
        var hi := lo + e.count * SectorsPerBlock(v);
        if lo <= lba < hi {
          offs := offs + [fo + (lba - lo) * SECTOR];
        }
        fo := fo + e.count * v.blockSize;
      }
      Extended(v, exts, k, lba, was, offs);
      k := k + 1;
    }
    AllOffsets(v, exts, lba, offs);
  }

  lemma NoOffsets(v: Volume, exts: seq<Extent>, lba: nat)
    ensures OffsetsOf(v, exts, 0, lba, [])
  {
  }

  lemma AllOffsets(v: Volume, exts: seq<Extent>, lba: nat, offs: seq<nat>)
    requires OffsetsOf(v, exts, |exts|, lba, offs)
    ensures (forall off :: off in offs <==> OwnsAt(v, exts, lba, off)) && Ascending(offs)
  {
    hide Lo, Before;
    forall off ensures off in offs <==> OwnsAt(v, exts, lba, off) {}
  }

  lemma SectorBelow(v: Volume, i: nat, count: nat)
    requires i < count * SectorsPerBlock(v)
    ensures i * SECTOR < count * v.blockSize
  {
    hide SectorsPerBlock;
    SectorsFit(v, count);
    SectorInside(i, count * SectorsPerBlock(v), 0);
  }

  lemma Extended(v: Volume, exts: seq<Extent>, k: nat, lba: nat, was: seq<nat>, offs: seq<nat>)
    requires k < |exts| && OffsetsOf(v, exts, k, lba, was)
    requires offs == if Lo(v, exts[k]) <= lba < Hi(v, exts[k])
                     then was + [Before(v, exts, k) + (lba - Lo(v, exts[k])) * SECTOR] else was
    ensures OffsetsOf(v, exts, k + 1, lba, offs)
  {
    OffsetsMembers(v, exts, k, lba, was, offs);
    OffsetsOrdered(v, exts, k, lba, was, offs);
  }

  lemma OffsetsMembers(v: Volume, exts: seq<Extent>, k: nat, lba: nat, was: seq<nat>, offs: seq<nat>)
    requires k < |exts| && OffsetsOf(v, exts, k, lba, was)
    requires offs == if Lo(v, exts[k]) <= lba < Hi(v, exts[k])
                     then was + [Before(v, exts, k) + (lba - Lo(v, exts[k])) * SECTOR] else was
    ensures forall off :: off in offs <==> exists j :: j < k + 1 && Holds(v, exts, j, lba, off)
  {
    hide Ascending, AllBelow;
    forall off
      ensures off in offs <==> exists j :: j < k + 1 && Holds(v, exts, j, lba, off)
    {
      if off in offs {
        if off in was {
          var j :| j < k && Holds(v, exts, j, lba, off);
          assert j < k + 1 && Holds(v, exts, j, lba, off);
        } else {
          assert Holds(v, exts, k, lba, off);
        }
      } else {
        forall j | j < k + 1 ensures !Holds(v, exts, j, lba, off) {}
      }
    }
  }

  lemma OffsetsOrdered(v: Volume, exts: seq<Extent>, k: nat, lba: nat, was: seq<nat>, offs: seq<nat>)
    requires k < |exts| && Ascending(was) && AllBelow(was, Before(v, exts, k))
    requires offs == if Lo(v, exts[k]) <= lba < Hi(v, exts[k])
                     then was + [Before(v, exts, k) + (lba - Lo(v, exts[k])) * SECTOR] else was
    ensures Ascending(offs) && AllBelow(offs, Before(v, exts, k + 1))
  {
    hide Lo;
    BeforeStep(v, exts, k + 1);
    if Lo(v, exts[k]) <= lba < Hi(v, exts[k]) {
      SectorBelow(v, lba - Lo(v, exts[k]), exts[k].count);
    }
  }

  /** The owners one fork of one file contributes. */
  method ForkOwners(v: Volume, f: File, fork: Fork, overflow: Overflow, lba: nat) returns (out: seq<Owner>)
    ensures ForkListed(v, f, fork, overflow, lba, out)
  {
    hide OwnsAt, AllExtents;
    var offs := ForkOffsets(v, AllExtents(f, fork, overflow), lba);
    out := seq(|offs|, i requires 0 <= i < |offs| => Owner(f.name, f.parId, fork, offs[i], f.cnid));
    forall o
      ensures o in out <==> o.fork == fork && OwnedBy(v, f, overflow, lba, o)
    {
      ExtentsAre(v, f, overflow, lba, o);
      if o.fork == fork && OwnedBy(v, f, overflow, lba, o) {
        var i :| 0 <= i < |offs| && offs[i] == o.off;
        assert out[i] == o;
      }
    }
  }

  // o says of a fork of f that it holds the sector: one of the catalog record's extents for that fork does, or one
  // of the extents-overflow file's behind them.
  ghost predicate OwnedBy(v: Volume, f: File, overflow: Overflow, lba: nat, o: Owner) {
    && o.name == f.name && o.parId == f.parId && o.cnid == f.cnid
    && match o.fork
       case Data => OwnsAt(v, if (f.cnid, Data) in overflow then f.dataExts + overflow[(f.cnid, Data)] else f.dataExts, lba, o.off)
       case Rsrc => OwnsAt(v, if (f.cnid, Rsrc) in overflow then f.rsrcExts + overflow[(f.cnid, Rsrc)] else f.rsrcExts, lba, o.off)
  }

  lemma ExtentsAre(v: Volume, f: File, overflow: Overflow, lba: nat, o: Owner)
    ensures OwnedBy(v, f, overflow, lba, o)
            <==> o.name == f.name && o.parId == f.parId && o.cnid == f.cnid
                 && OwnsAt(v, AllExtents(f, o.fork, overflow), lba, o.off)
  {
    hide OwnsAt;
    assert f.dataExts + [] == f.dataExts && f.rsrcExts + [] == f.rsrcExts;
  }

  // All that one fork of one file contributes, at ascending offsets.
  ghost predicate ForkListed(v: Volume, f: File, fork: Fork, overflow: Overflow, lba: nat, out: seq<Owner>) {
    && (forall o :: o in out <==> o.fork == fork && OwnedBy(v, f, overflow, lba, o))
    && forall j, k :: 0 <= j < k < |out| ==> out[j].off < out[k].off
  }

  // The lists of the files' data and resource forks, file by file, the data fork first.
  function Joined(data: seq<seq<Owner>>, rsrc: seq<seq<Owner>>): seq<Owner>
    requires |data| == |rsrc|
  {
    if data == [] then []
    else var k := |data| - 1; Joined(data[..k], rsrc[..k]) + (data[k] + rsrc[k])
  }

  // Every fork of the first n files with all it contributes.
  ghost predicate FilesListed(
    v: Volume, files: seq<File>, overflow: Overflow, lba: nat, data: seq<seq<Owner>>, rsrc: seq<seq<Owner>>)
  {
    && |data| == |rsrc| <= |files|
    && forall i :: 0 <= i < |data| ==>
         ForkListed(v, files[i], Data, overflow, lba, data[i]) && ForkListed(v, files[i], Rsrc, overflow, lba, rsrc[i])
  }

  /** owner_of: exactly the forks that hold a sector, with the offsets at which they do, in the order of the files,
      data fork before resource fork. */
  method OwnerOf(v: Volume, files: seq<File>, overflow: Overflow, lba: nat)
    returns (out: seq<Owner>, ghost data: seq<seq<Owner>>, ghost rsrc: seq<seq<Owner>>)
    ensures |data| == |files| && FilesListed(v, files, overflow, lba, data, rsrc) && out == Joined(data, rsrc)
    ensures forall o :: o in out <==> exists i :: 0 <= i < |files| && OwnedBy(v, files[i], overflow, lba, o)
  {
    hide ForkListed, OwnedBy;
    out, data, rsrc := [], [], [];
    for i := 0 to |files|
      invariant |data| == i && FilesListed(v, files, overflow, lba, data, rsrc) && out == Joined(data, rsrc)
    {
      var d := ForkOwners(v, files[i], Data, overflow, lba);
      var r := ForkOwners(v, files[i], Rsrc, overflow, lba);
      assert (data + [d])[..i] == data && (rsrc + [r])[..i] == rsrc;
      data, rsrc := data + [d], rsrc + [r];
      out := out + (d + r);
    }
    JoinedOwns(v, files, overflow, lba, data, rsrc);
  }

  lemma {:induction false} JoinedOwns(
    v: Volume, files: seq<File>, overflow: Overflow, lba: nat, data: seq<seq<Owner>>, rsrc: seq<seq<Owner>>)
    requires FilesListed(v, files, overflow, lba, data, rsrc)
    ensures forall o :: o in Joined(data, rsrc) <==> exists i :: 0 <= i < |data| && OwnedBy(v, files[i], overflow, lba, o)
    decreases |data|
  {
    hide ForkListed, OwnedBy;
    if data != [] {
      var k := |data| - 1;
      JoinedOwns(v, files, overflow, lba, data[..k], rsrc[..k]);
      ForksOwn(v, files[k], overflow, lba, data[k], rsrc[k]);
    }
  }

  lemma ForksOwn(v: Volume, f: File, overflow: Overflow, lba: nat, d: seq<Owner>, r: seq<Owner>)
    requires ForkListed(v, f, Data, overflow, lba, d) && ForkListed(v, f, Rsrc, overflow, lba, r)
    ensures forall o :: o in d + r <==> OwnedBy(v, f, overflow, lba, o)
  {
    hide OwnedBy;
  }

  // ---- The two maps are inverse ----

  predicate Aligned(v: Volume) {
    v.blockSize % SECTOR == 0
  }

  // The extents lie inside the image.
  predicate InImage(v: Volume, exts: seq<Extent>) {
    forall k :: 0 <= k < |exts| ==> Lo(v, exts[k]) * SECTOR + exts[k].count * v.blockSize <= |v.img|
  }

  lemma WholeBlocks(v: Volume, n: nat)
    requires Aligned(v)
    ensures n * v.blockSize == n * SectorsPerBlock(v) * SECTOR
  {
    assert v.blockSize == SectorsPerBlock(v) * SECTOR;
    assert n * (SectorsPerBlock(v) * SECTOR) == n * SectorsPerBlock(v) * SECTOR;
  }

  // A block size that is no multiple of 512 leaves bytes beyond the whole sectors of an extent.
  lemma SectorsFit(v: Volume, n: nat)
    ensures n * SectorsPerBlock(v) * SECTOR <= n * v.blockSize
  {
    var s := SectorsPerBlock(v) * SECTOR;
    assert s <= v.blockSize;
    assert n * s == n * SectorsPerBlock(v) * SECTOR;
    Scale(n, s, v.blockSize);
  }

  lemma ExtentWhole(v: Volume, e: Extent)
    requires Lo(v, e) * SECTOR + e.count * v.blockSize <= |v.img|
    ensures |ExtentBytes(v, e)| == e.count * v.blockSize
    ensures forall j :: 0 <= j < e.count * v.blockSize ==> ExtentBytes(v, e)[j] == v.img[Lo(v, e) * SECTOR + j]
  {
    hide Lo;
  }

  lemma {:induction false} BeforeFront(v: Volume, exts: seq<Extent>, k: nat)
    requires 1 <= k <= |exts|
    ensures Before(v, exts, k) == exts[0].count * v.blockSize + Before(v, exts[1..], k - 1)
    decreases k
  {
    if k > 1 { BeforeFront(v, exts, k - 1); }
  }

  /** Byte j of the k-th extent is byte Before(k) + j of the fork. */
  lemma {:induction false} ForkAt(v: Volume, exts: seq<Extent>, k: nat, j: nat)
    requires InImage(v, exts) && k < |exts| && j < exts[k].count * v.blockSize
    ensures Before(v, exts, k) + j < |ForkBytes(v, exts)|
    ensures Lo(v, exts[k]) * SECTOR + j < |v.img|
    ensures ForkBytes(v, exts)[Before(v, exts, k) + j] == v.img[Lo(v, exts[k]) * SECTOR + j]
    decreases k
  {
    hide Lo, ExtentBytes, SectorsPerBlock;
    ExtentWhole(v, exts[0]);
    assert ForkBytes(v, exts) == ExtentBytes(v, exts[0]) + ForkBytes(v, exts[1..]);
    if k > 0 {
      ForkAt(v, exts[1..], k - 1, j);
      BeforeFront(v, exts, k);
    }
  }

  lemma {:induction false} ForkLength(v: Volume, exts: seq<Extent>)
    requires InImage(v, exts)
    ensures |ForkBytes(v, exts)| == Before(v, exts, |exts|)
    decreases |exts|
  {
    hide Lo, ExtentBytes;
    if exts != [] {
      ExtentWhole(v, exts[0]);
      ForkLength(v, exts[1..]);
      BeforeFront(v, exts, |exts|);
    }
  }

  /** Reverse, then forward, whatever the block size. If the reverse map says that a fork holds a sector at
      offset off, then the bytes read_fork returns from off on are that sector's bytes, as far as the fork's
      size allows. */
  lemma ReverseThenForward(v: Volume, exts: seq<Extent>, size: nat, lba: nat, off: nat, j: nat)
    requires InImage(v, exts) && OwnsAt(v, exts, lba, off) && j < SECTOR && off + j < size
    ensures var r := Take(ForkBytes(v, exts), size);
            off + j < |r| && lba * SECTOR + j < |v.img| && r[off + j] == v.img[lba * SECTOR + j]
  {
    hide Lo, ForkBytes, Before;
    var k :| Holds(v, exts, k, lba, off);
    var lo := Lo(v, exts[k]);
    SectorsFit(v, exts[k].count);
    SectorInside(lba - lo, exts[k].count * SectorsPerBlock(v), j);
    ForkAt(v, exts, k, (lba - lo) * SECTOR + j);
    assert lo * SECTOR + ((lba - lo) * SECTOR + j) == lba * SECTOR + j;
  }

  lemma SectorInside(i: nat, n: nat, j: nat)
    requires i < n && j < SECTOR
    ensures i * SECTOR + j < n * SECTOR
  {
  }

  // Byte p of the fork lies in some sector that the reverse map takes back to it.
  ghost predicate Found(v: Volume, exts: seq<Extent>, p: int) {
    exists lba: nat, off: nat :: OwnsAt(v, exts, lba, off) && off <= p < off + SECTOR
  }

  /** Forward, then reverse. Every byte of a fork lies in some sector that the reverse map takes back to
      the fork, at the offset of that sector. */
  lemma ForwardThenReverse(v: Volume, exts: seq<Extent>, p: nat)
    requires Aligned(v) && InImage(v, exts) && p < |ForkBytes(v, exts)|
    ensures Found(v, exts, p)
  {
    hide Lo, ForkBytes, SectorsPerBlock, InImage;
    ForkLength(v, exts);
    var k := ExtentOf(v, exts, |exts|, p);
    var q := p - Before(v, exts, k);
    var i := q / SECTOR;
    WholeBlocks(v, exts[k].count);
    assert i < exts[k].count * SectorsPerBlock(v);
    var lba, off := Lo(v, exts[k]) + i, Before(v, exts, k) + i * SECTOR;
    assert Hi(v, exts[k]) == Lo(v, exts[k]) + exts[k].count * SectorsPerBlock(v);
    assert Holds(v, exts, k, lba, off);
    assert OwnsAt(v, exts, lba, off);
  }

  lemma {:induction false} ExtentOf(v: Volume, exts: seq<Extent>, n: nat, p: nat) returns (k: nat)
    requires n <= |exts| && p < Before(v, exts, n)
    ensures k < n && Before(v, exts, k) <= p < Before(v, exts, k) + exts[k].count * v.blockSize
    decreases n
  {
    if p < Before(v, exts, n - 1) {
      k := ExtentOf(v, exts, n - 1, p);
    } else {
      k := n - 1;
    }
  }

  lemma BeforeStep(v: Volume, exts: seq<Extent>, k: nat)
    requires 0 < k <= |exts|
    ensures Before(v, exts, k - 1) <= Before(v, exts, k)
  {
  }

  lemma {:induction false} BeforeGrows(v: Volume, exts: seq<Extent>, j: nat, k: nat)
    requires j <= k <= |exts|
    ensures Before(v, exts, j) <= Before(v, exts, k)
    decreases k
  {
    hide Before;
    if j < k {
      BeforeGrows(v, exts, j, k - 1);
      BeforeStep(v, exts, k);
    }
  }

  /** Where the block size is no multiple of 512, the last byte of every extent of every fork lies in no
      sector that the reverse map takes back to the fork. */
  lemma MisalignedLosesBytes(v: Volume, exts: seq<Extent>, k: nat)
    requires !Aligned(v) && k < |exts| && exts[k].count > 0
    ensures Before(v, exts, k + 1) > Before(v, exts, k) && !Found(v, exts, Before(v, exts, k + 1) - 1)
  {
    hide Lo;
    var last := Before(v, exts, k + 1) - 1;
    Positive(exts[k].count, v.blockSize);
    forall lba: nat, off: nat | OwnsAt(v, exts, lba, off)
      ensures !(off <= last < off + SECTOR)
    {
      var j :| Holds(v, exts, j, lba, off);
      HeldInside(v, exts, j, lba, off);
      if j <= k { BeforeGrows(v, exts, j + 1, k + 1); } else { BeforeGrows(v, exts, k + 1, j); }
    }
  }

  // A sector an extent holds ends before the last byte of the extent.
  lemma HeldInside(v: Volume, exts: seq<Extent>, j: nat, lba: nat, off: nat)
    requires !Aligned(v) && Holds(v, exts, j, lba, off)
    ensures Before(v, exts, j) <= off && off + SECTOR < Before(v, exts, j + 1)
  {
    hide Lo;
    var e := exts[j];
    Positive(e.count, SectorsPerBlock(v));
    if e.count == 0 { assert false; }
    Shortfall(v.blockSize, e.count, lba - Lo(v, e));
  }

  /** Exactly when forward and reverse map agree on a non-empty fork: every byte of it lies in a sector that
      maps back to it if and only if the block size is a multiple of 512. */
  lemma ForwardExact(v: Volume, exts: seq<Extent>)
    requires InImage(v, exts) && ForkBytes(v, exts) != []
    ensures (forall p :: 0 <= p < |ForkBytes(v, exts)| ==> Found(v, exts, p)) <==> Aligned(v)
  {
    hide Lo, ForkBytes, Found;
    if Aligned(v) {
      forall p | 0 <= p < |ForkBytes(v, exts)|
        ensures Found(v, exts, p)
      {
        ForwardThenReverse(v, exts, p);
      }
    } else {
      ForkLength(v, exts);
      var k := ExtentOf(v, exts, |exts|, 0);
      Empty(v.blockSize);
      MisalignedLosesBytes(v, exts, k);
      BeforeGrows(v, exts, k + 1, |exts|);
    }
  }

  lemma Empty(n: nat)
    ensures 0 * n == 0
  {
  }

  lemma Shortfall(size: u32, count: u16, i: nat)
    requires size % SECTOR != 0 && count > 0 && i < count * (size / SECTOR)
    ensures i * SECTOR + SECTOR < count * size
  {
    var s := size / SECTOR;
    assert (i + 1) * SECTOR <= count * s * SECTOR;
    assert count * (s * SECTOR) == count * s * SECTOR;
    assert count * (s * SECTOR + 1) == count * (s * SECTOR) + count;
    assert s * SECTOR + 1 <= size;
    Scale(count, s * SECTOR + 1, size);
  }

  lemma Scale(n: nat, x: nat, y: nat)
    requires x <= y
    ensures n * x <= n * y
  {
  }

  // ---- The allocation bitmap ----

  /** The allocation block whose bitmap bit is shown for a sector. */
  function AllocBlockOf(v: Volume, lba: int): int
    requires SectorsPerBlock(v) > 0
  {
    (lba - v.partStart - v.alBlSt) / SectorsPerBlock(v)
  }

  /** The bitmap bit shown for a sector of an extent is the bit of one of the extent's own blocks. */
  lemma BitmapBlockOwned(v: Volume, e: Extent, lba: nat)
    requires Lo(v, e) <= lba < Hi(v, e)
    ensures SectorsPerBlock(v) > 0 && e.start <= AllocBlockOf(v, lba) < e.start + e.count
    ensures AbToLba(v, AllocBlockOf(v, lba)) <= lba < AbToLba(v, AllocBlockOf(v, lba) + 1)
  {
    hide SectorsPerBlock;
    var s := SectorsPerBlock(v);
    Positive(e.count, s);
    BlockOf(lba - v.partStart - v.alBlSt, s, e.start, e.count);
  }

  lemma BlockOf(x: int, s: nat, a: nat, n: nat)
    requires s > 0 && a * s <= x < a * s + n * s
    ensures a <= x / s < a + n && x / s * s <= x < (x / s + 1) * s
  {
    assert a * s >= 0;
    DivBounds(x, s);
    assert (a + n) * s == a * s + n * s;
    Between(x / s, s, a, a + n, x);
  }

  lemma Positive(n: nat, s: nat)
    ensures s == 0 ==> n * s == 0
  {
  }

  lemma DivBounds(x: nat, s: nat)
    requires s > 0
    ensures x / s * s <= x < x / s * s + s && (x / s + 1) * s == x / s * s + s
  {
  }

  lemma Between(q: int, s: nat, a: int, b: int, x: int)
    requires s > 0 && q * s <= x < (q + 1) * s && a * s <= x < b * s
    ensures a <= q < b
  {
    if q + 1 <= a { ScaleInt(s, q + 1, a); }
    if b <= q { ScaleInt(s, b, q); }
  }

  lemma ScaleInt(s: nat, x: int, y: int)
    requires x <= y
    ensures x * s <= y * s
  {
  }
}
