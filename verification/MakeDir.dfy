/** Creating a directory (fat.c:124-133, 504-644). */
module MakeDir {
  import opened Bytes
  import opened FatTable
  import opened Chains
  import opened FileData
  import opened Partitions
  import opened Allocation
  import opened LongNames
  import opened Directories
  import opened Trees
  import opened Volumes
  import opened SlotScan
  import opened Placement
  import opened Creation

  /** The name and extension of `.` and `..`, blank-padded (fat.c:512-523). */
  function DotName(dots: nat): (r: seq<byte>)
    requires 1 <= dots <= 2
    ensures |r| == 11
  {
    seq(11, i => if i < dots then DOT else 32)
  }

  function DotEntry(dots: nat, first: nat): (e: Entry)
    requires 1 <= dots <= 2 && first < 0x1_0000_0000
    ensures IsDot(e) && !IsLong(e) && First(e) == first
  {
    var a := Patch(Patch(Zeros(ENTRY_SIZE), 0, DotName(dots)), 11, [0x10]);
    assert a[0] == DotName(dots)[0];
    SetFirst(a, first)
  }

  /** A new directory's first sector. */
  function DotSector(first: nat, up: nat): Sector
    requires first < 0x1_0000_0000 && up < 0x1_0000_0000
  {
    Padded(DotEntry(1, first) + DotEntry(2, up))
  }

  function ZeroSectors(n: nat): (r: seq<Sector>)
    ensures |r| == n
  {
    seq(n, i => Zeros(SECTOR_SIZE))
  }

  /** The data area with a new directory in cluster `c`. */
  function DirInit(g: Geometry, d: seq<Sector>, c: nat, up: nat): (r: seq<Sector>)
    requires c >= 2 && Base(g.sectorsPerCluster, c) + g.sectorsPerCluster <= |d| && g.sectorsPerCluster > 0
    requires c < 0x1_0000_0000 && up < 0x1_0000_0000
    ensures |r| == |d|
  {
    PutRun(d, Base(g.sectorsPerCluster, c), [DotSector(c, up)] + ZeroSectors(g.sectorsPerCluster - 1))
  }

  lemma ZeroMore(d: seq<Sector>, at: nat, n: nat)
    requires at + n < |d|
    ensures PutRun(d, at, ZeroSectors(n))[at + n := Zeros(SECTOR_SIZE)] == PutRun(d, at, ZeroSectors(n + 1))
  {
  }

  /** fat.c:124-133 */
  method EmptyOutCluster(p: Partition, cluster: nat)
    requires p.Sound() && 2 <= cluster && Base(p.g.sectorsPerCluster, cluster) + p.g.sectorsPerCluster <= |p.Data()|
    modifies p.hd.sectors
    ensures p.Sound() && p.Fat() == old(p.Fat()) && p.Info() == old(p.Info())
    ensures p.Data() == PutRun(old(p.Data()), Base(p.g.sectorsPerCluster, cluster), ZeroSectors(p.g.sectorsPerCluster))
  {
    var first := Base(p.g.sectorsPerCluster, cluster);
    var offset := 0;
    assert p.Data() == PutRun(old(p.Data()), first, ZeroSectors(0));
    hide Mountable, FatView, Mirrored, Partition.Data, PutRun, ZeroSectors;
    while offset < p.g.sectorsPerCluster
      invariant offset <= p.g.sectorsPerCluster
      invariant p.Sound() && p.Fat() == old(p.Fat()) && p.Info() == old(p.Info())
      invariant p.Data() == PutRun(old(p.Data()), first, ZeroSectors(offset))
    {
      ZeroMore(old(p.Data()), first, offset);
      PaddedFull(Zeros(SECTOR_SIZE));
      p.WriteData(first + offset, Zeros(SECTOR_SIZE));
      offset := offset + 1;
    }
  }

  lemma DotsOverZeros(g: Geometry, d: seq<Sector>, c: nat, up: nat)
    requires c >= 2 && Base(g.sectorsPerCluster, c) + g.sectorsPerCluster <= |d| && g.sectorsPerCluster > 0
    requires c < 0x1_0000_0000 && up < 0x1_0000_0000
    ensures var at := Base(g.sectorsPerCluster, c);
      PutRun(d, at, ZeroSectors(g.sectorsPerCluster))[at := DotSector(c, up)]
         == DirInit(g, d, c, up)
  {
  }

  /** At byte `at` of the sector: a directory entry called by that many dots, blank-padded to 11 bytes,
      with attribute 0x10 and size 0, for first cluster `first`. */
  ghost predicate DotAt(x: Sector, at: nat, dots: nat, first: nat)
    requires at + 32 <= 512
  {
    && (forall k :: at <= k < at + 11 ==> x[k] == if k < at + dots then 46 else 32) && x[at + 11] == 0x10
    && (forall k :: at + 12 <= k < at + 20 || at + 22 <= k < at + 26 || at + 28 <= k < at + 32 ==> x[k] == 0)
    && U16(x, at + 26) + 65536 * U16(x, at + 20) == first
  }

  ghost predicate ZeroFrom(x: Sector, from: nat) {
    forall k :: from <= k < 512 ==> x[k] == 0
  }

  /** Cluster `c` holds `.` for itself, `..` for the cluster `up`, and zeros. */
  ghost predicate NewDirData(g: Geometry, d: seq<Sector>, c: nat, up: nat) {
    && c >= 2 && g.sectorsPerCluster > 0 && Base(g.sectorsPerCluster, c) + g.sectorsPerCluster <= |d|
    && var at := Base(g.sectorsPerCluster, c);
    && DotAt(d[at], 0, 1, c) && DotAt(d[at], 32, 2, up) && ZeroFrom(d[at], 64)
    && forall k :: at < k < at + g.sectorsPerCluster ==> ZeroFrom(d[k], 0)
  }

  lemma DotEntryBytes(dots: nat, first: nat)
    requires 1 <= dots <= 2 && first < 0x1_0000_0000
    ensures var e := DotEntry(dots, first);
      && (forall k :: 0 <= k < 11 ==> e[k] == if k < dots then 46 else 32) && e[11] == 0x10
      && (forall k :: 12 <= k < 20 || 22 <= k < 26 || 28 <= k < 32 ==> e[k] == 0)
      && U16(e, 26) + 65536 * U16(e, 20) == first
  {
    var a := Patch(Patch(Zeros(ENTRY_SIZE), 0, DotName(dots)), 11, [0x10]);
    assert forall k :: 0 <= k < 32 ==> a[k] == if k < 11 then DotName(dots)[k] else if k == 11 then 0x10 else 0;
    hide Patch;
  }

  lemma DotSectorBytes(first: nat, up: nat)
    requires first < 0x1_0000_0000 && up < 0x1_0000_0000
    ensures var x := DotSector(first, up); DotAt(x, 0, 1, first) && DotAt(x, 32, 2, up) && ZeroFrom(x, 64)
  {
    DotEntryBytes(1, first);
    DotEntryBytes(2, up);
    var a, b, x := DotEntry(1, first), DotEntry(2, up), DotSector(first, up);
    assert forall k :: 0 <= k < 512 ==> x[k] == if k < 32 then a[k] else if k < 64 then b[k - 32] else 0;
    hide DotEntry, DotSector;
  }

  lemma NewDirBytes(g: Geometry, d: seq<Sector>, c: nat, up: nat)
    requires c >= 2 && Base(g.sectorsPerCluster, c) + g.sectorsPerCluster <= |d| && g.sectorsPerCluster > 0
    requires c < 0x1_0000_0000 && up < 0x1_0000_0000
    ensures NewDirData(g, DirInit(g, d, c, up), c, up)
  {
    DotSectorBytes(c, up);
    hide DotSector, DotAt;
    var at, ss := Base(g.sectorsPerCluster, c), [DotSector(c, up)] + ZeroSectors(g.sectorsPerCluster - 1);
    forall k | at <= k < at + g.sectorsPerCluster
      ensures DirInit(g, d, c, up)[k] == ss[k - at]
    {
    }
  }

  /** fat.c:504-537: zero the cluster, then store the dot entries; the short write zero-fills. */
  method InitDir(p: Partition, dirFirstCluster: nat, parentFirstCluster: nat)
    requires p.Sound() && 2 <= dirFirstCluster < 0x1_0000_0000 && parentFirstCluster < 0x1_0000_0000
    requires Base(p.g.sectorsPerCluster, dirFirstCluster) + p.g.sectorsPerCluster <= |p.Data()|
    modifies p.hd.sectors
    ensures p.Sound() && p.Fat() == old(p.Fat()) && p.Info() == old(p.Info())
    ensures p.Data() == DirInit(p.g, old(p.Data()), dirFirstCluster, parentFirstCluster)
    ensures NewDirData(p.g, p.Data(), dirFirstCluster, parentFirstCluster)
  {
    ghost var d := p.Data();
    NewDirBytes(p.g, d, dirFirstCluster, parentFirstCluster);
    DotsOverZeros(p.g, d, dirFirstCluster, parentFirstCluster);
    EmptyOutCluster(p, dirFirstCluster);
    var dirent := DotEntry(1, dirFirstCluster) + DotEntry(2, parentFirstCluster);
    hide Mountable, FatView, Mirrored, Partition.Data, PutRun, ZeroSectors, DotEntry, Padded, DirInit;
    p.WriteData(Base(p.g.sectorsPerCluster, dirFirstCluster), dirent);
  }

  // ---- what a new directory looks like ----

  lemma InitCluster(g: Geometry, d: seq<Sector>, c: nat, up: nat, c': nat)
    requires c >= 2 && Base(g.sectorsPerCluster, c) + g.sectorsPerCluster <= |d| && g.sectorsPerCluster > 0
    requires c < 0x1_0000_0000 && up < 0x1_0000_0000
    requires c' >= 2 && Base(g.sectorsPerCluster, c') + g.sectorsPerCluster <= |d|
    ensures Cluster(DirInit(g, d, c, up), g.sectorsPerCluster, c') ==
            if c ==
                c' then [DotSector(c, up)] + ZeroSectors(g.sectorsPerCluster - 1)
                  else Cluster(d, g.sectorsPerCluster, c')
  {
    hide DotSector, ZeroSectors;
    ClusterPutRun(d, g.sectorsPerCluster, c, [DotSector(c, up)] + ZeroSectors(g.sectorsPerCluster - 1), c');
  }

  lemma DotSectorSlots(first: nat, up: nat)
    requires first < 0x1_0000_0000 && up < 0x1_0000_0000
    ensures Slots(DotSector(first, up))[0] == DotEntry(1, first) && Slots(DotSector(first, up))[1] == DotEntry(2, up)
    ensures Slots(DotSector(first, up))[2][0] == 0
  {
    hide DotEntry;
    assert EntryAt(DotSector(first, up), 0) == DotEntry(1, first);
    assert EntryAt(DotSector(first, up), 1) == DotEntry(2, up);
  }

  /** The entries of a new directory: the two dot entries, then zeros. */
  lemma NewDirSlots(g: Geometry, d: seq<Sector>, c: nat, up: nat)
    requires c >= 2 && Base(g.sectorsPerCluster, c) + g.sectorsPerCluster <= |d| && g.sectorsPerCluster > 0
    requires c < 0x1_0000_0000 && up < 0x1_0000_0000
    ensures var es := DirSlots(DirInit(g, d, c, up), g.sectorsPerCluster, [c]);
      |es| == SLOTS * g.sectorsPerCluster && es[0] == DotEntry(1, c) && es[1] == DotEntry(2, up)
      && forall k :: 2 <= k < |es| ==> es[k][0] == 0
  {
    var d' := DirInit(g, d, c, up);
    var ss := ChainSectors(d', g.sectorsPerCluster, [c]);
    InitCluster(g, d, c, up, c);
    assert Times(g.sectorsPerCluster, 1) == g.sectorsPerCluster;
    assert ss == ChainSectors(d', g.sectorsPerCluster, []) + Cluster(d', g.sectorsPerCluster, c);
    assert ss == [DotSector(c, up)] + ZeroSectors(g.sectorsPerCluster - 1);
    DotSectorSlots(c, up);
    FirstSectorSlots(ss, DotSector(c, up));
  }

  lemma FirstSectorSlots(ss: seq<Sector>, x: Sector)
    requires ss != [] && ss == [x] + ZeroSectors(|ss| - 1)
    requires forall k :: 2 * ENTRY_SIZE <= k < SECTOR_SIZE ==> x[k] == 0
    ensures AllSlots(ss)[0] == Slots(x)[0] && AllSlots(ss)[1] == Slots(x)[1]
    ensures forall k :: 2 <= k < |AllSlots(ss)| ==> AllSlots(ss)[k][0] == 0
  {
    forall k | 2 <= k < |AllSlots(ss)|
      ensures AllSlots(ss)[k][0] == 0
    {
      assert AllSlots(ss)[k][0] == ss[k / SLOTS][ENTRY_SIZE * (k % SLOTS)];
    }
  }

  lemma NewDirListed(g: Geometry, es: seq<Entry>, c: nat, up: nat)
    requires g.sectorsPerCluster > 0 && |es| == SLOTS * g.sectorsPerCluster
    requires c < 0x1_0000_0000 && up < 0x1_0000_0000
    requires es[0] == DotEntry(1, c) && es[1] == DotEntry(2, up) && forall k :: 2 <= k < |es| ==> es[k][0] == 0
    ensures Listed(g, es, c, [], up)
  {
    assert Items(es, 2, 0) == [] && Tidy(es, 2, 0);
    assert Items(es, 1, 0) == [] && Tidy(es, 1, 0);
    assert es[2][0] == 0;
  }

  lemma NewDirStored(g: Geometry, f: seq<nat>, d: seq<Sector>, c: nat, up: nat)
    requires 2 <= c < |f| <= END_OF_CHAIN && Base(g.sectorsPerCluster, c) + g.sectorsPerCluster <= |d|
    requires g.sectorsPerCluster > 0 && up < 0x1_0000_0000
    ensures Stored(g, f[c := END_OF_CHAIN], DirInit(g, d, c, up), Dir([c], []), up)
  {
    NewDirSlots(g, d, c, up);
    var es := DirSlots(DirInit(g, d, c, up), g.sectorsPerCluster, [c]);
    NewDirListed(g, es, c, up);
    hide Listed;
    assert Chain(f[c := END_OF_CHAIN], [c]);
  }

  lemma InitSame(g: Geometry, f: seq<nat>, d: seq<Sector>, c: nat, up: nat, cs: set<nat>)
    requires 2 <= c < |f| && c < 0x1_0000_0000 && Base(g.sectorsPerCluster, c) + g.sectorsPerCluster <= |d|
    requires g.sectorsPerCluster > 0 && up < 0x1_0000_0000 && c !in cs
    ensures SameAt(g.sectorsPerCluster, f, d, f[c := END_OF_CHAIN], DirInit(g, d, c, up), cs)
  {
    hide DirInit;
    var spc := g.sectorsPerCluster;
    forall c' | c' in cs && 2 <= c' && Base(spc, c') + spc <= |d|
      ensures Cluster(DirInit(g, d, c, up), spc, c') == Cluster(d, spc, c')
    {
      InitCluster(g, d, c, up, c');
    }
  }

  lemma SameTrans(spc: nat, f: seq<nat>, d: seq<Sector>, f1: seq<nat>, d1: seq<Sector>, f2: seq<nat>, d2: seq<Sector>,
                  cs: set<nat>)
    requires SameAt(spc, f, d, f1, d1, cs) && SameAt(spc, f1, d1, f2, d2, cs)
    ensures SameAt(spc, f, d, f2, d2, cs)
  {
  }

  lemma OneTaken(f: seq<nat>, c: nat)
    requires c in Free(f)
    ensures Free(f[c := END_OF_CHAIN]) == Free(f) - {c} && |Free(f[c := END_OF_CHAIN])| == |Free(f)| - 1
  {
    assert Free(f[c := END_OF_CHAIN]) == Free(f) - {c};
  }

  /** The volume around the parent after a directory was made in the free cluster `c`. */
  lemma DirAround(g: Geometry, f: seq<nat>, d: seq<Sector>, d1: seq<Sector>, free: nat, t: Node, path: seq<Name>,
                  t0: Node, c: nat)
    requires VolumeOk(g, f, d, free, t) && At(t, path) == Some(t0) && Around(g, f, d, f, d1, free, t, t0)
    requires t0.chain != [] && |f| <= END_OF_CHAIN && g.sectorsPerCluster > 0 && t0.chain[0] < |f|
    requires c in Free(f) && Base(g.sectorsPerCluster, c) + g.sectorsPerCluster <= |d|
    requires KidClusters(t0) <= Clusters(t) - Elems(t0.chain)
    ensures c !in Clusters(t)
    ensures var d2 := DirInit(g, d1, c, t0.chain[0]);
      Around(g, f, d, f[c := END_OF_CHAIN], d2, free - 1, t, t0)
      && DirSlots(d2, g.sectorsPerCluster, t0.chain) == DirSlots(d1, g.sectorsPerCluster, t0.chain)
  {
    var spc, cs, f', d2 :=
      g.sectorsPerCluster, Clusters(t) - Elems(t0.chain), f[c := END_OF_CHAIN], DirInit(g, d1, c, t0.chain[0]);
    OwnedNotFree(g, f, d, t, 0);
    AtStored(g, f, d, t, 0, path);
    hide Stored, DirInit, Proper;
    assert Elems(t0.chain) <= Clusters(t0) <= Clusters(t);
    InitSame(g, f, d1, c, t0.chain[0], cs);
    SameTrans(spc, f, d, f, d1, f', d2, cs);
    InitSame(g, f, d1, c, t0.chain[0], Elems(t0.chain));
    ChainSame(spc, f, d1, f', d2, t0.chain);
    OneTaken(f, c);
  }

  /** A directory is added to the directory `t0`. */
  lemma DirAdded(g: Geometry, f: seq<nat>, d: seq<Sector>, free: nat, t: Node, path: seq<Name>, t0: Node,
                 q: nat, m: nat, r: Room, run: seq<Entry>, e: Entry, name: Option<Name>, c: nat) returns (j: nat)
    requires VolumeOk(g, f, d, free, t) && At(t, path) == Some(t0) && |f| <= END_OF_CHAIN && g.sectorsPerCluster > 0
    requires c in Free(f) && Base(g.sectorsPerCluster, c) + g.sectorsPerCluster <= |d|
    requires RunFits(g, d, t0.chain, q, m, r, run, e, Kid(name, Dir([c], [])))
    requires t0.Dir? && (name.Some? ==> !HasName(t0.kids, name.value))
    ensures t0.chain != [] && t0.chain[0] < |f| && 2 <= c < |f| && free > 0
    ensures r.Room? && |r.dirent| == SLOTS && r.index + |run| < SLOTS
    ensures r.cluster >= 2 && Base(g.sectorsPerCluster, r.cluster) + r.offset < |d|
    ensures t0.Dir? && j <= |t0.kids|
    ensures VolumeOk(g, f[c := END_OF_CHAIN], DirInit(g, RunPut(g, d, r, run, e), c, t0.chain[0]), free - 1,
                     Put(t, path, Dir(t0.chain, Insert(t0.kids, j, Kid(name, Dir([c], []))))))
  {
    hide *;
    var kid := Kid(name, Dir([c], []));
    FreeIsCluster(f, c);
    VolumeBasics(g, f, d, free, t, path, t0);
    RunPutOk(g, d, t0.chain, q, m, r, run, e, kid);
    var d1 := RunPut(g, d, r, run, e);
    RoomAround(g, f, d, free, t, path, t0, q, m, r, run, e, kid);
    DirAround(g, f, d, d1, free, t, path, t0, c);
    RunWritten(g, d, t0.chain, q, m, r, run, e, kid);
    NewDirStored(g, f, d1, c, t0.chain[0]);
    NewDirOwns(c, t);
    OneTaken(f, c);
    j := KidAdded(g, f, d, free, t, path, t0, f[c := END_OF_CHAIN], DirInit(g, d1, c, t0.chain[0]), free - 1,
                  SLOTS * m + r.index, |run|, kid);
  }

  lemma FreeIsCluster(f: seq<nat>, c: nat)
    requires c in Free(f) && |f| <= END_OF_CHAIN
    ensures 2 <= c < |f| < 0x1_0000_0000 && |Free(f)| > 0
  {
  }

  lemma NewDirOwns(c: nat, t: Node)
    requires c !in Clusters(t)
    ensures Proper(Dir([c], [])) && Clusters(Dir([c], [])) == {c} && Clusters(Dir([c], [])) !! Clusters(t)
  {
    assert Elems([c]) == {c};
  }

  /** All that happens when a directory is made where there is room. */
  lemma DirCreated(g: Geometry, f: seq<nat>, d: seq<Sector>, free: nat, t: Node, path: seq<Name>, t0: Node,
                   es: seq<Entry>, q: nat, m: nat, r: Room, dirName: Name, stack: seq<word>, sfn: seq<byte>,
                   checksum: byte, c: nat)
    returns (j: nat)
    requires VolumeOk(g, f, d, free, t) && At(t, path) == Some(t0) && |f| <= END_OF_CHAIN && g.sectorsPerCluster > 0
    requires InArea(|d|, g.sectorsPerCluster, t0.chain) && es == DirSlots(d, g.sectorsPerCluster, t0.chain)
    requires t0.Dir? && CanCreate(g, es, t0.kids, dirName, stack, sfn)
    requires RoomOk(g.sectorsPerCluster, d, t0.chain, r, q, m, PickSlot(es, PartCount(dirName), 0))
    requires c in Free(f) && Base(g.sectorsPerCluster, c) + g.sectorsPerCluster <= |d|
    ensures t0.chain != [] && t0.chain[0] < |f| && 2 <= c < |f| && free > 0
    ensures r.Room? && |r.dirent| == SLOTS && r.index + PartCount(dirName) < SLOTS
    ensures r.cluster >= 2 && Base(g.sectorsPerCluster, r.cluster) + r.offset < |d|
    ensures j <= |t0.kids|
    ensures VolumeOk(g, f[c := END_OF_CHAIN],
                     DirInit(g, RunPut(g, d, r, NameRun(dirName, stack, checksum),
                                       NewShort(r.dirent[r.index + PartCount(dirName)], sfn, 0x10, c)), c, t0.chain[0]),
                     free - 1, Put(t, path, Dir(t0.chain, Insert(t0.kids, j, Kid(KidName(dirName), Dir([c], []))))))
  {
    hide *;
    FreeIsCluster(f, c);
    var node := Dir([c], []);
    NewDirFirst(c);
    CanCreateIsTry(g, es, t0.kids, dirName, stack, sfn);
    CanTryParts(g, es, t0.kids, dirName, stack, sfn);
    RoomPicked(g.sectorsPerCluster, d, t0.chain, r, q, m, PickSlot(es, PartCount(dirName), 0));
    NewRunFits(g, d, t0, es, q, m, r, dirName, stack, sfn, checksum, 0x10, node);
    NameIsNew(g, es, t0.kids, dirName, stack, sfn);
    var run, e := NameRun(dirName, stack, checksum), NewShort(r.dirent[r.index + PartCount(dirName)], sfn, 0x10, c);
    j := DirAdded(g, f, d, free, t, path, t0, q, m, r, run, e, KidName(dirName), c);
  }

  lemma NewDirFirst(c: nat)
    ensures FirstOf(Dir([c], [])) == c
  {
  }

  lemma NameIsNew(g: Geometry, es: seq<Entry>, kids: seq<Kid>, name: Name, stack: seq<word>, sfn: seq<byte>)
    requires CanCreate(g, es, kids, name, stack, sfn)
    ensures KidName(name).Some? ==> !HasName(kids, KidName(name).value)
  {
  }

  lemma ClusterFits(p: Partition, c: nat)
    requires p.Mounted() && 2 <= c < p.g.Limit()
    ensures p.g.sectorsPerCluster > 0 && Base(p.g.sectorsPerCluster, c) + p.g.sectorsPerCluster <= |p.Data()|
    ensures |p.Fat()| == p.g.Limit() <= END_OF_CHAIN < FAT_MASK < 0x1_0000_0000
  {
    ClustersInArea(p.g, p.hd.sectors.Length, [c]);
    assert [c][0] == c;
  }

  lemma FirstFreeOne(f: seq<nat>, c: nat)
    requires FirstFree(f, [c])
    ensures c in Free(f) && forall x :: x in Free(f) ==> c <= x
  {
    assert [c][0] in Free(f);
  }

  /** Making a directory elsewhere does not mend a run that was put in the wrong place. */
  lemma StillWrong(g: Geometry, f: seq<nat>, d: seq<Sector>, s: seq<nat>, es: seq<Entry>, dirName: Name, c: nat,
                   up: nat)
    requires WentWrong(g, d, s, es, dirName) && Chain(f, s) && c in Free(f) && up < 0x1_0000_0000
    requires 2 <= c < |f| && c < 0x1_0000_0000 && Base(g.sectorsPerCluster, c) + g.sectorsPerCluster <= |d|
    requires g.sectorsPerCluster > 0
    ensures WentWrong(g, DirInit(g, d, c, up), s, es, dirName)
  {
    ChainNotFree(f, s);
    hide DirInit, OneMore, Chain, Free;
    InitSame(g, f, d, c, up, Elems(s));
    ChainSame(g.sectorsPerCluster, f, d, f[c := END_OF_CHAIN], DirInit(g, d, c, up), s);
  }

  // ---- on a full volume ----

  /** The sector that init_dir computes for the number that stands for no cluster, with 32 bits. */
  function NowhereSector(g: Geometry): nat {
    (g.DataStart() + g.sectorsPerCluster * (NO_CLUSTER - 2)) % 0x1_0000_0000
  }

  /** Before the data area, or at no address. */
  predicate Outside(g: Geometry, n: nat, at: nat) {
    at < g.DataStart() || at >= n
  }

  /** It lies three clusters before the data area, or nowhere. */
  lemma NowhereOutside(g: Geometry, n: nat, offset: nat)
    requires Mountable(g, n) && (offset < g.sectorsPerCluster || offset == 0)
    ensures Outside(g, n, (NowhereSector(g) + offset) % 0x1_0000_0000) && Outside(g, n, NowhereSector(g))
    ensures NowhereSector(g) == if g.DataStart() >= 3 * g.sectorsPerCluster then g.DataStart() - 3 * g.sectorsPerCluster
                                else g.DataStart() + 0x1_0000_0000 - 3 * g.sectorsPerCluster
  {
    MountableSizes(g, n);
    hide *;
    Wraps(g.DataStart(), g.sectorsPerCluster);
    NowhereIs(g);
    OutsideIs(g, n, NowhereSector(g));
    OutsideIs(g, n, (NowhereSector(g) + offset) % 0x1_0000_0000);
  }

  lemma MountableSizes(g: Geometry, n: nat)
    requires Mountable(g, n)
    ensures 0 < g.sectorsPerCluster <= 0xFF && g.DataStart() <= n <= 0x1000_0000
  {
  }

  lemma NowhereIs(g: Geometry)
    ensures NO_CLUSTER - 2 == 0xFFFF_FFFD
    ensures NowhereSector(g) == (g.DataStart() + g.sectorsPerCluster * 0xFFFF_FFFD) % 0x1_0000_0000
  {
  }

  lemma OutsideIs(g: Geometry, n: nat, at: nat)
    ensures Outside(g, n, at) <==> at < g.DataStart() || at >= n
  {
  }

  lemma Wraps(start: nat, spc: nat)
    requires start <= 0x1000_0000 && spc <= 0xFF
    ensures (start + spc * 0xFFFF_FFFD) % 0x1_0000_0000 ==
            if start >= 3 * spc then start - 3 * spc else start + 0x1_0000_0000 - 3 * spc
  {
    assert start + spc * 0xFFFF_FFFD == start - 3 * spc + 0x1_0000_0000 * spc;
  }

  /** How many sectors behind `first` sector `k` comes, when the numbers go round at 32 bits. */
  function Past(first: nat, k: nat): int {
    if k >= first then k - first else k + 0x1_0000_0000 - first
  }

  /** The drive after init_dir for the number that stands for no cluster: from the sector that the code
      computes on, as many as a cluster has are zeros, where there are such, and the first one begins
      with the two dot entries. */
  ghost predicate NowhereInit(g: Geometry, d: seq<Sector>, d': seq<Sector>, up: nat) {
    && |d'| == |d|
    && forall k :: 0 <= k < |d| ==>
         if k == NowhereSector(g) then
           DotAt(d'[k], 0, 1, 0xFFFF_FFFF) && DotAt(d'[k], 32, 2, up) && ZeroFrom(d'[k], 64)
         else if Past(NowhereSector(g), k) < g.sectorsPerCluster then ZeroFrom(d'[k], 0)
         else d'[k] == d[k]
  }

  /** `n` sectors from `first` on are zeros. */
  ghost predicate Wiped(d: seq<Sector>, d': seq<Sector>, first: nat, n: nat) {
    |d'| == |d| && forall k :: 0 <= k < |d| ==> d'[k] == if Past(first, k) < n then Zeros(SECTOR_SIZE) else d[k]
  }

  /** What a store at `at` does, if there is such a sector. */
  function StoredAt(d: seq<Sector>, at: nat, bytes: seq<byte>): seq<Sector>
    requires |bytes| <= SECTOR_SIZE
  {
    if at < |d| then d[at := Padded(bytes)] else d
  }

  lemma WipedMore(d: seq<Sector>, d': seq<Sector>, first: nat, n: nat)
    requires Wiped(d, d', first, n) && first < 0x1_0000_0000 && n < 0x1_0000_0000 && |d| <= 0x1000_0000
    ensures |Zeros(SECTOR_SIZE)| <= SECTOR_SIZE
    ensures Wiped(d, StoredAt(d', (first + n) % 0x1_0000_0000, Zeros(SECTOR_SIZE)), first, n + 1)
  {
    var at := (first + n) % 0x1_0000_0000;
    PaddedFull(Zeros(SECTOR_SIZE));
    assert Past(first, at) == n;
  }

  lemma WipedNone(d: seq<Sector>, first: nat)
    requires first < 0x1_0000_0000
    ensures Wiped(d, d, first, 0)
  {
  }

  lemma NowhereInitNow(g: Geometry, d: seq<Sector>, d': seq<Sector>, up: nat, dots: seq<byte>)
    requires Wiped(d, d', NowhereSector(g), g.sectorsPerCluster) && up < 0x1_0000_0000
    requires dots == DotEntry(1, NO_CLUSTER) + DotEntry(2, up) && |dots| <= SECTOR_SIZE
    ensures NowhereInit(g, d, StoredAt(d', NowhereSector(g), dots), up)
  {
    assert Padded(dots) == DotSector(NO_CLUSTER, up);
    DotSectorBytes(NO_CLUSTER, up);
    hide DotEntry, DotSector, NowhereSector, DotAt;
  }

  /** init_dir for that number (fat.c:124-133, 504-537) stores in no sector of the data area. */
  method InitNowhere(p: Partition, parentFirstCluster: nat)
    requires p.Mounted() && parentFirstCluster < 0x1_0000_0000
    modifies p.hd.sectors
    ensures p.Data() == old(p.Data()) && NowhereInit(p.g, old(p.Disk()), p.Disk(), parentFirstCluster)
  {
    hide *;
    MountedIs(p);
    var first := NowhereSector(p.g);
    NowhereOutside(p.g, p.hd.sectors.Length, 0);
    ghost var d := p.Disk();
    WipedNone(d, first);
    var offset := 0;
    var zeros := ZeroBytes();
    while offset < p.g.sectorsPerCluster
      invariant offset <= p.g.sectorsPerCluster && p.Data() == old(p.Data()) && Wiped(d, p.Disk(), first, offset)
    {
      NowhereOutside(p.g, p.hd.sectors.Length, offset);
      WipedMore(d, p.Disk(), first, offset);
      StoreNowhere(p, (first + offset) % 0x1_0000_0000, zeros);
      offset := offset + 1;
    }
    var dots := DotsOf(parentFirstCluster);
    NowhereInitNow(p.g, d, p.Disk(), parentFirstCluster, dots);
    StoreNowhere(p, first, dots);
  }

  method ZeroBytes() returns (zeros: Sector)
    ensures zeros == Zeros(SECTOR_SIZE)
  {
    zeros := Zeros(SECTOR_SIZE);
  }

  method DotsOf(parentFirstCluster: nat) returns (dirent: seq<byte>)
    requires parentFirstCluster < 0x1_0000_0000
    ensures dirent == DotEntry(1, NO_CLUSTER) + DotEntry(2, parentFirstCluster) && |dirent| <= SECTOR_SIZE
  {
    dirent := DotEntry(1, NO_CLUSTER) + DotEntry(2, parentFirstCluster);
  }

  lemma MountedIs(p: Partition)
    requires p.Mounted()
    ensures Mountable(p.g, p.hd.sectors.Length) && NO_CLUSTER < 0x1_0000_0000 && NowhereSector(p.g) < 0x1_0000_0000
    ensures |p.Disk()| <= 0x1000_0000 && p.g.sectorsPerCluster < 0x1_0000_0000
  {
  }

  /** A store before the data area, or at no address. */
  method StoreNowhere(p: Partition, at: nat, bytes: seq<byte>)
    requires p.Mounted() && |bytes| <= SECTOR_SIZE && Outside(p.g, p.hd.sectors.Length, at)
    modifies p.hd.sectors
    ensures p.Data() == old(p.Data()) && p.Disk() == StoredAt(old(p.Disk()), at, bytes)
  {
    p.hd.Write28(at, bytes, |bytes|);
    assert bytes[..|bytes|] == bytes;
  }

  /** No cluster is free (fat.c:622-634): the count falls below 0, an end mark is stored under the
      number that stands for no cluster, and the new entry gives that number. */
  method MakeNowhere(p: Partition, r: Room, lfns: seq<Entry>, ghost run: seq<Entry>, sfn: seq<byte>, parentCluster: nat)
    returns (ghost d1: seq<Sector>)
    requires p.Sound() && r.Room? && |r.dirent| == SLOTS && r.index + |lfns| < SLOTS && |sfn| == 11
    requires |run| == |lfns| && forall i :: 0 <= i < |lfns| ==> lfns[i] == run[|lfns| - 1 - i]
    requires r.cluster >= 2 && Base(p.g.sectorsPerCluster, r.cluster) + r.offset < |p.Data()|
    requires parentCluster < 0x1_0000_0000
    modifies p`freeClusterCount, p.hd.sectors
    ensures p.Mounted() && p.freeClusterCount == 0xFFFF_FFFF && StoresNoTree(p)
    ensures p.Data() == RunPut(p.g, Strayed(p.g, old(p.Disk()))[p.g.DataStart()..], r, run,
                               NewShort(r.dirent[r.index + |run|], sfn, 0x10, NO_CLUSTER))
    ensures |d1| == |old(p.Disk())| && InfoShows(d1[p.g.infoSector], p.infoImage, 0xFFFF_FFFF)
    ensures d1 == old(p.Disk())[p.g.infoSector := d1[p.g.infoSector]]
    ensures NowhereInit(p.g,
                        RunOnDisk(p.g, Strayed(p.g, d1), r, run,
                                  NewShort(r.dirent[r.index + |run|], sfn, 0x10, NO_CLUSTER)),
                        p.Disk(), parentCluster)
  {
    var none: nat := 0xFFFF_FFFF;
    hide *;
    NoClusterFits();
    DiskParts(p);
    ghost var disk := p.Disk();
    p.freeClusterCount := none;
    p.UpdateFSInfo();
    d1 := p.Disk();
    DiskParts(p);
    InfoNow(p);
    p.WriteAnyEntry(none, END_OF_CHAIN);
    StrayedData(p, disk, d1);
    WriteRunAt(p, r, lfns, run, sfn, none);
    InitNowhere(p, parentCluster);
    CountTooLarge(p);
  }

  lemma DiskParts(p: Partition)
    requires p.Mounted()
    ensures |p.Disk()| == p.hd.sectors.Length && p.g.infoSector < |p.Disk()| && p.Info() == p.Disk()[p.g.infoSector]
    ensures p.Data() == p.Disk()[p.g.DataStart()..] && |p.Data()| == |p.Disk()| - p.g.DataStart()
  {
  }

  lemma InfoNow(p: Partition)
    requires p.Mounted() && p.InfoSynced()
    ensures InfoShows(p.Info(), p.infoImage, p.freeClusterCount)
  {
  }

  /** The drive with the new entries stored in their sector. */
  function RunOnDisk(g: Geometry, d: seq<Sector>, r: Room, run: seq<Entry>, e: Entry): seq<Sector>
    requires r.Room? && |r.dirent| == SLOTS && r.index + |run| < SLOTS && r.cluster >= 2
    requires g.DataStart() + Base(g.sectorsPerCluster, r.cluster) + r.offset < |d|
  {
    d[g.DataStart() + Base(g.sectorsPerCluster, r.cluster) + r.offset := Pack(WithRun(r.dirent, r.index, run, e))]
  }

  lemma NoClusterFits()
    ensures END_OF_CHAIN <= NO_CLUSTER == 0xFFFF_FFFF < 0x1_0000_0000
  {
  }

  /** The stray stores do the same to the data area whatever the FSInfo sector says. */
  lemma StrayedData(p: Partition, d: seq<Sector>, d1: seq<Sector>)
    requires p.Mounted() && |d| == |d1| == p.hd.sectors.Length && d[p.g.DataStart()..] == d1[p.g.DataStart()..]
    requires END_OF_CHAIN < 0x1_0000_0000 && p.Disk() == WriteAnywhere(p.g, d1, NO_CLUSTER, END_OF_CHAIN)
    ensures p.Data() == Strayed(p.g, d)[p.g.DataStart()..] && p.Disk() == Strayed(p.g, d1)
  {
    hide SetSlot;
    var at, n := p.g.DataStart(), |d|;
    assert forall k :: at <= k < n ==> d[k] == d[at..][k - at] == d1[k];
    PutSlotData(d, d1, at, p.g.fatStart + p.g.Row(NO_CLUSTER));
    PutSlotData(PutSlot(d, p.g.fatStart + p.g.Row(NO_CLUSTER), NO_CLUSTER, END_OF_CHAIN),
                PutSlot(d1, p.g.fatStart + p.g.Row(NO_CLUSTER), NO_CLUSTER, END_OF_CHAIN),
                at, p.g.fatStart + p.g.fatSize + p.g.Row(NO_CLUSTER));
  }

  lemma PutSlotData(d: seq<Sector>, d1: seq<Sector>, from: nat, at: nat)
    requires |d| == |d1| && from <= |d| && d[from..] == d1[from..]
    ensures PutSlot(d, at, NO_CLUSTER, END_OF_CHAIN)[from..] == PutSlot(d1, at, NO_CLUSTER, END_OF_CHAIN)[from..]
  {
    hide SetSlot;
    if from <= at < |d| {
      assert d[from..][at - from] == d1[from..][at - from];
    }
  }

  /** Storing the new entries, whether or not the table is in order. */
  method WriteRunAt(p: Partition, r: Room, lfns: seq<Entry>, ghost run: seq<Entry>, sfn: seq<byte>, first: nat)
    requires p.Mounted() && r.Room? && |r.dirent| == SLOTS && r.index + |lfns| < SLOTS && |sfn| == 11
    requires first < 0x1_0000_0000
    requires |run| == |lfns| && forall i :: 0 <= i < |lfns| ==> lfns[i] == run[|lfns| - 1 - i]
    requires r.cluster >= 2 && Base(p.g.sectorsPerCluster, r.cluster) + r.offset < |p.Data()|
    modifies p.hd.sectors
    ensures p.Data() == RunPut(p.g, old(p.Data()), r, run, NewShort(r.dirent[r.index + |run|], sfn, 0x10, first))
    ensures |old(p.Data())| + p.g.DataStart() == |old(p.Disk())|
    ensures p.Disk() == RunOnDisk(p.g, old(p.Disk()), r, run, NewShort(r.dirent[r.index + |run|], sfn, 0x10, first))
  {
    var dirent := PlaceRun(r.dirent, r.index, lfns, run, sfn, 0x10, first);
    PaddedFull(Pack(dirent));
    hide Pack, NewShort, WithRun;
    assert Pack(dirent)[..SECTOR_SIZE] == Pack(dirent);
    p.hd.Write28(p.g.DataStart() + Base(p.g.sectorsPerCluster, r.cluster) + r.offset, Pack(dirent), SECTOR_SIZE);
  }

  lemma CountTooLarge(p: Partition)
    requires p.freeClusterCount >= END_OF_CHAIN
    ensures StoresNoTree(p)
  {
    forall u
      ensures !Holds(p, u)
    {
      if Holds(p, u) {
        HoldsParts(p, u);
      }
    }
  }

  /** fat.c:616-634, where there is room and a free cluster. */
  method MakeSomewhere(p: Partition, parentCluster: nat, dirName: Name, sfn: seq<byte>, checksum: byte,
                       stack: seq<word>, r: Room, lfns: seq<Entry>, firstCluster: nat, ghost t: Node,
                       ghost path: seq<Name>, ghost t0: Node, ghost es: seq<Entry>, ghost q: nat, ghost m: nat)
    returns (ghost t': Node, ghost j: nat)
    requires Holds(p, t) && At(t, path) == Some(t0) && FirstOf(t0) == parentCluster && HasEntries(p, t0, es)
    requires CanTry(p.g, es, t0.kids, dirName, stack, sfn) && r.Room?
    requires p.Mounted()
    requires RoomOk(p.g.sectorsPerCluster, p.Data(), t0.chain, r, q, m, PickSlot(es, PartCount(dirName), 0))
    requires |lfns| == |NameRun(dirName, stack, checksum)| == PartCount(dirName)
    requires forall i :: 0 <= i < |lfns| ==> lfns[i] == NameRun(dirName, stack, checksum)[|lfns| - 1 - i]
    requires FirstFree(p.Fat(), [firstCluster])
    modifies p`freeClusterCount, p.hd.sectors
    ensures p.Sound() && p.Mounted() && p.InfoSynced()
    ensures MadeIn(p, old(p.Fat()), old(p.freeClusterCount), t, path, t0, es, dirName, firstCluster, t', j)
    ensures FolderBytes(p, t0, es, dirName, stack, checksum, sfn, firstCluster)
  {
    hide *;
    HoldsParts(p, t);
    DirReadable(p, t, path);
    CanTryParts(p.g, es, t0.kids, dirName, stack, sfn);
    EntriesReadable(p, t0, es);
    ReadableTidy(p, t0.chain, es);
    ghost var f, d, free, run := p.Fat(), p.Data(), p.freeClusterCount, NameRun(dirName, stack, checksum);
    VolumeBasics(p.g, f, d, free, t, path, t0);
    ghost var c := firstCluster;
    t', j := t, 0;
    FirstFreeOne(f, c);
    FreeInRange(p, c);
    ClusterFits(p, c);
    FreeIsCluster(f, c);
    NewEntries(d, p.g.sectorsPerCluster, t0.chain, es, q, m, r, p.g, t0.kids, dirName, stack, sfn, checksum, 0x10, c);
    ghost var good, wrong := CreationOk(p.g, es, PartCount(dirName)), !FreeForRun(es, dirName);
    if good {
      CanCreateNow(p.g, es, t0.kids, dirName, stack, sfn);
      j := DirCreated(p.g, f, d, free, t, path, t0, es, q, m, r, dirName, stack, sfn, checksum, c);
      t' := WithFolder(t, path, t0, j, dirName, c);
    }
    if wrong {
      CreationWrong(p.g, d, t0.chain, es, q, m, r, t0.kids, dirName, stack, sfn, checksum, 0x10, c);
    }
    EntryMadeNow(p.g, d, t0.chain, es, q, m, r, t0.kids, dirName, stack, sfn, checksum, 0x10, c);
    p.freeClusterCount := p.freeClusterCount - 1;
    p.UpdateFSInfo();
    label Counted:
    p.WriteFatEntry(firstCluster, END_OF_CHAIN);
    WriteRun(p, r, lfns, run, sfn, 0x10, firstCluster);
    StillMade(p.g, f, p.Data(), t0.chain, es, dirName, stack, checksum, sfn, c, parentCluster);
    if wrong {
      StillWrong(p.g, f, p.Data(), t0.chain, es, dirName, c, parentCluster);
    }
    InitDir(p, firstCluster, parentCluster);
    SyncKept@Counted(p);
    FolderBytesNow(p, t0, es, dirName, stack, checksum, sfn, c);
    if good {
      WithFolderIs(t, path, t0, j, dirName, c);
      HoldsNow(p, t');
    }
    MadeInNow(p, f, free, t, path, t0, es, dirName, c, t', j);
  }

  /** The tree `t` with an empty directory in cluster `c` as kid `j` of the directory `t0` at `path`. */
  function WithFolder(t: Node, path: seq<Name>, t0: Node, j: nat, dirName: Name, c: nat): Node
    requires At(t, path).Some? && t0.Dir? && j <= |t0.kids|
  {
    Put(t, path, Dir(t0.chain, Insert(t0.kids, j, Kid(KidName(dirName), Dir([c], [])))))
  }

  lemma WithFolderIs(t: Node, path: seq<Name>, t0: Node, j: nat, dirName: Name, c: nat)
    requires At(t, path).Some? && t0.Dir? && j <= |t0.kids|
    ensures WithFolder(t, path, t0, j, dirName, c) ==
            Put(t, path, Dir(t0.chain, Insert(t0.kids, j, Kid(KidName(dirName), Dir([c], [])))))
  {
  }

  /** From the table `f` and the count `free` on, cluster `c` has been taken for a new directory. If
      the run was put where it should, the parent gets a kid more. If not all of its entries were
      free, readers do not see one item more. */
  ghost predicate MadeIn(p: Partition, f: seq<nat>, free: nat, t: Node, path: seq<Name>, t0: Node, es: seq<Entry>,
                         dirName: Name, c: nat, t': Node, j: nat)
    requires p.Mounted()
    reads p, p.hd.sectors
  {
    && FirstFree(f, [c]) && c in Free(f) && p.Fat() == f[c := 0x0FFF_FFF8] && p.freeClusterCount == free - 1
    && At(t, path).Some? && t0.Dir?
    && (CreationOk(p.g, es, PartCount(dirName)) ==>
          Holds(p, t') && j <= |t0.kids| && t' == WithFolder(t, path, t0, j, dirName, c))
    && (!FreeForRun(es, dirName) ==> WentWrong(p.g, p.Data(), t0.chain, es, dirName))
  }

  lemma MadeInParts(p: Partition, f: seq<nat>, free: nat, t: Node, path: seq<Name>, t0: Node, es: seq<Entry>,
                    dirName: Name, c: nat, t': Node, j: nat)
    requires p.Mounted() && MadeIn(p, f, free, t, path, t0, es, dirName, c, t', j)
    ensures At(t, path).Some? && t0.Dir? && c in Free(f) && p.Fat() == f[c := END_OF_CHAIN] && FirstFree(f, [c])
    ensures CreationOk(p.g, es, PartCount(dirName)) ==>
      && Holds(p, t') && j <= |t0.kids|
      && t' == Put(t, path, Dir(t0.chain, Insert(t0.kids, j, Kid(KidName(dirName), Dir([c], [])))))
    ensures !FreeForRun(es, dirName) ==> WentWrong(p.g, p.Data(), t0.chain, es, dirName)
  {
    hide Holds, CreationOk, FreeForRun, WentWrong, At, FirstFree, Insert, Put, KidName;
  }

  lemma MadeInNow(p: Partition, f: seq<nat>, free: nat, t: Node, path: seq<Name>, t0: Node, es: seq<Entry>,
                  dirName: Name, c: nat, t': Node, j: nat)
    requires p.Mounted() && At(t, path).Some? && t0.Dir?
    requires FirstFree(f, [c]) && c in Free(f) && p.Fat() == f[c := END_OF_CHAIN] && p.freeClusterCount == free - 1
    requires CreationOk(p.g, es, PartCount(dirName)) ==>
      Holds(p, t') && j <= |t0.kids| && t' == WithFolder(t, path, t0, j, dirName, c)
    requires !FreeForRun(es, dirName) ==> WentWrong(p.g, p.Data(), t0.chain, es, dirName)
    ensures MadeIn(p, f, free, t, path, t0, es, dirName, c, t', j)
  {
  }

  /** The bytes of a new directory: its entry in the parent `t0`, and its own cluster `c`. */
  ghost predicate FolderBytes(p: Partition, t0: Node, es: seq<Entry>, dirName: Name, stack: seq<word>, checksum: byte,
                              sfn: seq<byte>, c: nat)
    requires p.Mounted()
    reads p.hd.sectors
  {
    && EntryMade(p.g, p.Data(), t0.chain, es, dirName, stack, checksum, sfn, 0x10, c)
    && NewDirData(p.g, p.Data(), c, FirstOf(t0))
  }

  lemma FolderBytesNow(p: Partition, t0: Node, es: seq<Entry>, dirName: Name, stack: seq<word>, checksum: byte,
                       sfn: seq<byte>, c: nat)
    requires p.Mounted() && NewDirData(p.g, p.Data(), c, FirstOf(t0))
    requires EntryMade(p.g, p.Data(), t0.chain, es, dirName, stack, checksum, sfn, 0x10, c)
    ensures FolderBytes(p, t0, es, dirName, stack, checksum, sfn, c)
  {
  }

  /** Filling the new directory's cluster leaves its entry in the parent alone. */
  lemma StillMade(g: Geometry, f: seq<nat>, d: seq<Sector>, s: seq<nat>, es: seq<Entry>, dirName: Name,
                  stack: seq<word>, checksum: byte, sfn: seq<byte>, c: nat, up: nat)
    requires EntryMade(g, d, s, es, dirName, stack, checksum, sfn, 0x10, c) && Chain(f, s) && c in Free(f)
    requires up < 0x1_0000_0000 && 2 <= c < |f| && c < 0x1_0000_0000 && g.sectorsPerCluster > 0
    requires Base(g.sectorsPerCluster, c) + g.sectorsPerCluster <= |d|
    ensures EntryMade(g, DirInit(g, d, c, up), s, es, dirName, stack, checksum, sfn, 0x10, c)
  {
    ChainNotFree(f, s);
    hide DirInit, Chain, Free, SpellsBack, NewFields, PickedAt;
    InitSame(g, f, d, c, up, Elems(s));
    ChainSame(g.sectorsPerCluster, f, d, f[c := END_OF_CHAIN], DirInit(g, d, c, up), s);
  }

  lemma RoomInSector(d: seq<Sector>, spc: nat, s: seq<nat>, es: seq<Entry>, q: nat, m: nat, r: Room, g: Geometry,
                     kids: seq<Kid>, dirName: Name, stack: seq<word>, sfn: seq<byte>, checksum: byte)
    requires CanTry(g, es, kids, dirName, stack, sfn) && r.Room?
    requires RoomOk(spc, d, s, r, q, m, PickSlot(es, PartCount(dirName), 0))
    ensures |r.dirent| == SLOTS && |sfn| == 11 && r.index + PartCount(dirName) < SLOTS
    ensures r.cluster >= 2 && Base(spc, r.cluster) + r.offset < |d|
  {
    hide *;
    NewEntries(d, spc, s, es, q, m, r, g, kids, dirName, stack, sfn, checksum, 0x10, 0);
  }

  /** fat.c:616-634, where there is room. */
  method MakeAtRoom(p: Partition, parentCluster: nat, dirName: Name, sfn: seq<byte>, checksum: byte, stack: seq<word>,
                    r: Room, lfns: seq<Entry>, ghost t: Node, ghost path: seq<Name>, ghost t0: Node,
                    ghost es: seq<Entry>, ghost q: nat, ghost m: nat)
    returns (ghost t': Node, ghost j: nat, ghost c: nat)
    requires Holds(p, t) && At(t, path) == Some(t0) && FirstOf(t0) == parentCluster && HasEntries(p, t0, es)
    requires CanTry(p.g, es, t0.kids, dirName, stack, sfn) && r.Room?
    requires p.Mounted()
    requires RoomOk(p.g.sectorsPerCluster, p.Data(), t0.chain, r, q, m, PickSlot(es, PartCount(dirName), 0))
    requires |lfns| == |NameRun(dirName, stack, checksum)| == PartCount(dirName)
    requires forall i :: 0 <= i < |lfns| ==> lfns[i] == NameRun(dirName, stack, checksum)[|lfns| - 1 - i]
    modifies p`freeClusterCount, p.hd.sectors
    ensures p.Mounted()
    ensures old(p.freeClusterCount) == 0 ==> StoresNoTree(p) && p.freeClusterCount == 0xFFFF_FFFF
    ensures old(p.freeClusterCount) > 0 ==>
      && p.Sound() && p.InfoSynced()
      && MadeIn(p, old(p.Fat()), old(p.freeClusterCount), t, path, t0, es, dirName, c, t', j)
    ensures old(p.freeClusterCount) > 0 ==> FolderBytes(p, t0, es, dirName, stack, checksum, sfn, c)
  {
    hide *;
    ParentHere(p, t, path, t0);
    var firstCluster := FindEmptyCluster(p);
    c := firstCluster;
    MaybeFree(p.Fat(), firstCluster, p.freeClusterCount);
    if firstCluster == 0xFFFF_FFFF {
      t', j := t, 0;
      CanTryParts(p.g, es, t0.kids, dirName, stack, sfn);
      RoomInSector(p.Data(), p.g.sectorsPerCluster, t0.chain, es, q, m, r, p.g, t0.kids, dirName, stack, sfn, checksum);
      ghost var d1 := MakeNowhere(p, r, lfns, NameRun(dirName, stack, checksum), sfn, parentCluster);
    } else {
      t', j := MakeSomewhere(p, parentCluster, dirName, sfn, checksum, stack, r, lfns, firstCluster, t, path, t0, es, q,
                             m);
    }
  }

  lemma ParentHere(p: Partition, t: Node, path: seq<Name>, t0: Node)
    requires Holds(p, t) && At(t, path) == Some(t0)
    ensures p.Sound() && p.Mounted() && p.freeClusterCount == |Free(p.Fat())| && |p.Fat()| <= END_OF_CHAIN
    ensures FirstOf(t0) < 0x1_0000_0000
  {
    VolumeBasics(p.g, p.Fat(), p.Data(), p.freeClusterCount, t, path, t0);
    hide VolumeOk, Mountable, Mirrored, FatView, Stored, Listed, Chain;
  }

  /** fat.c:544-644. Either the parent has no room, and nothing changes, or a run is written and the
      first free cluster is taken. If no cluster is free, no file system is left. */
  method CreateDirByParentCluster(p: Partition, parentCluster: nat, dirName: Name, sfn: seq<byte>, checksum: byte,
                                  stack: seq<word>, ghost t: Node, ghost path: seq<Name>, ghost t0: Node,
                                  ghost es: seq<Entry>)
    returns (found: bool, ghost t': Node, ghost j: nat, ghost c: nat)
    requires Holds(p, t) && At(t, path) == Some(t0) && FirstOf(t0) == parentCluster && HasEntries(p, t0, es)
    requires CanTry(p.g, es, t0.kids, dirName, stack, sfn)
    modifies p`freeClusterCount, p.hd.sectors
    ensures p.Mounted() && (found <==> PickSlot(es, PartCount(dirName), 0).Some?)
    ensures !found ==>
      Holds(p, t) && t' == t && p.Disk() == old(p.Disk()) && p.freeClusterCount == old(p.freeClusterCount)
    ensures found && old(p.freeClusterCount) == 0 ==> StoresNoTree(p) && p.freeClusterCount == 0xFFFF_FFFF
    ensures found && old(p.freeClusterCount) > 0 ==>
      && p.Sound() && p.InfoSynced()
      && MadeIn(p, old(p.Fat()), old(p.freeClusterCount), t, path, t0, es, dirName, c, t', j)
      && FolderBytes(p, t0, es, dirName, stack, checksum, sfn, c)
  {
    hide *;
    HoldsParts(p, t);
    DirReadable(p, t, path);
    CanTryParts(p.g, es, t0.kids, dirName, stack, sfn);
    EntriesReadable(p, t0, es);
    ghost var f, d, free := p.Fat(), p.Data(), p.freeClusterCount;
    VolumeBasics(p.g, f, d, free, t, path, t0);
    var n := NameParts(dirName);
    var r;
    ghost var q, m;
    r, q, m := FindRoom(p, parentCluster, n, t0.chain, es, PickSlot(es, n, 0));
    t', j, c := t, 0, 0;
    if r.Full? {
      return false, t', j, c;
    }
    RoomPicked(p.g.sectorsPerCluster, d, t0.chain, r, q, m, PickSlot(es, n, 0));
    found := true;
    var lfns := EncodeLongName(dirName, stack, checksum);
    t', j, c := MakeAtRoom(p, parentCluster, dirName, sfn, checksum, stack, r, lfns, t, path, t0, es, q, m);
  }

  lemma MaybeFree(f: seq<nat>, c: nat, free: nat)
    requires free == |Free(f)| && |f| <= END_OF_CHAIN
    requires (c == 0xFFFF_FFFF ==> Free(f) == {}) && (c != 0xFFFF_FFFF ==> FirstFree(f, [c]))
    ensures c == 0xFFFF_FFFF <==> free == 0
    ensures c != 0xFFFF_FFFF ==> FirstFree(f, [c])
    ensures 0xFFFF_FFFF < 0x1_0000_0000
  {
    if c != 0xFFFF_FFFF {
      FirstFreeOne(f, c);
    }
  }

  lemma FreeInRange(p: Partition, c: nat)
    requires p.Mounted() && c in Free(p.Fat())
    ensures 2 <= c < p.g.Limit()
  {
  }
}
