/** Where runs begin: an empty file system on any drive that can be mounted. The code only mounts
    drives that were formatted elsewhere; this one is made with the code's own operations. */
module Formatting {
  import opened Bytes
  import opened Drives
  import opened FatTable
  import opened Chains
  import opened FileData
  import opened Partitions
  import opened Trees
  import opened Volumes
  import opened MakeDir
  import opened Leaks
  import opened Paths
  import opened Commands

  ghost predicate AllZero(d: seq<Sector>) {
    forall k :: 0 <= k < |d| ==> d[k] == Zeros(SECTOR_SIZE)
  }

  /** Every sector is filled with zeros. */
  method ZeroDrive(hd: Drive)
    requires hd.sectors.Length <= LAST_LBA28 + 1
    modifies hd.sectors
    ensures AllZero(hd.sectors[..])
  {
    var i := 0;
    while i < hd.sectors.Length
      invariant i <= hd.sectors.Length
      invariant forall k :: 0 <= k < i ==> hd.sectors[..][k] == Zeros(SECTOR_SIZE)
    {
      ghost var was := hd.sectors[..];
      PaddedFull(Zeros(SECTOR_SIZE));
      assert Zeros(SECTOR_SIZE)[..SECTOR_SIZE] == Zeros(SECTOR_SIZE);
      hd.Write28(i, Zeros(SECTOR_SIZE), SECTOR_SIZE);
      assert hd.sectors[..] == was[i := Padded(Zeros(SECTOR_SIZE))];
      i := i + 1;
    }
  }

  lemma ZeroTable(g: Geometry, d: seq<Sector>)
    requires Mountable(g, |d|) && AllZero(d)
    ensures Mirrored(g, d) && forall i :: 0 <= i < g.Limit() ==> FatView(g, d)[i] == 0
  {
  }

  lemma {:induction false} ZerosFree(f: seq<nat>)
    requires |f| >= 2 && forall i :: 2 <= i < |f| ==> f[i] == 0
    ensures |Free(f)| == |f| - 2
    decreases |f|
  {
    var n := |f| - 1;
    if n >= 2 {
      ZerosFree(f[..n]);
      assert Free(f) == Free(f[..n]) + {n};
    } else {
      assert Free(f) == {};
    }
  }

  /** With the marks for entry 0 and for the root directory, all other clusters are free. */
  lemma FreshTable(f: seq<nat>, root: nat)
    requires 2 <= root < |f| && forall i :: 0 <= i < |f| ==> f[i] == 0
    ensures var f' := f[0 := END_OF_CHAIN][root := END_OF_CHAIN];
      && f'[0] >= END_OF_CHAIN && f'[root] >= END_OF_CHAIN && |Free(f')| == |f| - 3
      && NoLeaks(f', Dir([root], []))
  {
    var f1 := f[0 := END_OF_CHAIN];
    ZerosFree(f1);
    assert root in Free(f1);
    OneTaken(f1, root);
    assert Clusters(Dir([root], [])) == {root};
  }

  /** The root's cluster holds no entries. */
  lemma ZeroCluster(g: Geometry, d: seq<Sector>)
    requires AllZero(d) && g.rootCluster >= 2 && Base(g.sectorsPerCluster, g.rootCluster) + g.sectorsPerCluster <= |d|
    ensures forall o :: 0 <= o < g.sectorsPerCluster ==>
      Cluster(d, g.sectorsPerCluster, g.rootCluster)[o] == Zeros(SECTOR_SIZE)
  {
  }

  lemma RootWay(root: nat)
    ensures At(Dir([root], []), []) == Some(Dir([root], [])) && FirstOf(Dir([root], [])) == root
    ensures Plain([]) && PathText([]) == [SLASH]
  {
  }

  lemma ReadyAtRoot(p: Partition)
    requires Holds(p, Dir([p.g.rootCluster], [])) && p.currentWorkingDir == p.g.rootCluster && p.cwdString == [SLASH]
    ensures Ready(p, Dir([p.g.rootCluster], []), [])
  {
    RootWay(p.g.rootCluster);
  }

  lemma ZeroData(p: Partition, d: seq<Sector>)
    requires p.Mounted() && |d| == p.hd.sectors.Length && AllZero(d) && p.Data() == d[p.g.DataStart()..]
    ensures AllZero(p.Data())
  {
  }

  /** The FSInfo sector of a drive with `free` free clusters. */
  function FreshInfo(free: nat): (s: Sector)
    requires free < 0x1_0000_0000
    ensures U32(s, FREE_COUNT_AT) == free
  {
    PatchU32(Zeros(SECTOR_SIZE), FREE_COUNT_AT, free, FREE_COUNT_AT);
    Patch(Zeros(SECTOR_SIZE), FREE_COUNT_AT, Le32(free))
  }

  lemma EnoughClusters(g: Geometry, n: nat)
    requires Mountable(g, n)
    ensures 3 <= g.Limit() < END_OF_CHAIN < FAT_MASK < 0x1_0000_0000 && 0 < g.Limit() && 2 <= g.rootCluster < g.Limit()
    ensures g.sectorsPerCluster > 0 && n <= LAST_LBA28 + 1
  {
  }

  lemma ZeroSound(p: Partition)
    requires p.Mounted() && AllZero(p.hd.sectors[..]) && p.Kept()
    ensures p.Sound() && |p.Fat()| == p.g.Limit() && forall i :: 0 <= i < |p.Fat()| ==> p.Fat()[i] == 0
    ensures p.Data() == p.hd.sectors[..][p.g.DataStart()..]
  {
    ZeroTable(p.g, p.Disk());
  }

  /** The marks of entry 0 and of the root directory, and the count. */
  method Mark(p: Partition)
    requires p.Mounted() && AllZero(p.hd.sectors[..]) && p.Kept() && p.freeClusterCount == p.g.Limit() - 3
    modifies p.hd.sectors
    ensures Holds(p, Dir([p.g.rootCluster], [])) && p.Mounted() && NoLeaks(p.Fat(), Dir([p.g.rootCluster], []))
  {
    hide *;
    MountedIs(p);
    EnoughClusters(p.g, p.hd.sectors.Length);
    ZeroSound(p);
    ghost var d, f := p.hd.sectors[..], p.Fat();
    p.WriteFatEntry(0, END_OF_CHAIN);
    p.WriteFatEntry(p.g.rootCluster, END_OF_CHAIN);
    p.UpdateFSInfo();
    FreshTable(f, p.g.rootCluster);
    ZeroData(p, d);
    ClusterFits(p, p.g.rootCluster);
    ZeroCluster(p.g, p.Data());
    EmptyVolume(p.g, p.Fat(), p.Data());
    HoldsNow(p, Dir([p.g.rootCluster], []));
  }

  /** Any drive and layout that can be mounted can be made to hold the empty tree, with the working
      directory at its root and no cluster lost. */
  method Format(sectors: array<Sector>, g: Geometry) returns (p: Partition)
    requires Mountable(g, sectors.Length)
    modifies sectors
    ensures fresh(p) && p.hd.sectors == sectors && p.g == g && p.Mounted()
    ensures Ready(p, Dir([g.rootCluster], []), []) && NoLeaks(p.Fat(), Dir([g.rootCluster], []))
    ensures p.freeClusterCount == g.Limit() - 3
  {
    EnoughClusters(g, sectors.Length);
    var hd := new Drive(sectors);
    ZeroDrive(hd);
    p := new Partition(hd, g, FreshInfo(g.Limit() - 3));
    assert p.Kept();
    hide Mountable, AllZero, FreshInfo, Holds, Ready, NoLeaks, Geometry.Limit;
    Mark(p);
    ReadyAtRoot(p);
  }
}
