/** What happens when no cluster is free: find_empty_Cluster answers 0xFFFFFFFF, and the code stores
    an end mark under that number all the same (fat.c:622-630, 828-832, 951-955). */
module FullVolume {
  import opened Bytes
  import opened FatTable
  import opened Chains
  import opened FileData
  import opened Partitions
  import opened Allocation
  import opened Trees
  import opened Volumes

  /** Where the two stores go. */
  function StrayAt(g: Geometry, copy: nat): nat {
    g.fatStart + copy * g.fatSize + g.Row(NO_CLUSTER)
  }

  /** The stores do nothing exactly when the drive ends before them or the mark is there already. */
  lemma StrayedNothingIff(g: Geometry, d: seq<Sector>)
    requires g.fatSize > 0
    ensures Strayed(g, d) == d <==>
            HoldsSlot(d, StrayAt(g, 0), NO_CLUSTER, END_OF_CHAIN)
            && HoldsSlot(d, StrayAt(g, 1), NO_CLUSTER, END_OF_CHAIN)
  {
    WriteNothingIff(g, d, NO_CLUSTER, END_OF_CHAIN);
  }

  /** A store there does nothing, or lies behind all clusters. */
  predicate Harmless(g: Geometry, d: seq<Sector>, at: nat) {
    HoldsSlot(d, at, NO_CLUSTER, END_OF_CHAIN) ||
    (g.Limit() >= 2 && at >= g.DataStart() + Base(g.sectorsPerCluster, g.Limit()))
  }

  /** The stores spare everything that a stored tree consists of: they are harmless, or the table is
      so large that the number is that of an entry behind those in use. */
  predicate Spared(g: Geometry, d: seq<Sector>) {
    (Harmless(g, d, StrayAt(g, 0)) && Harmless(g, d, StrayAt(g, 1))) || g.InTable(NO_CLUSTER)
  }

  lemma {:induction false} TimesAtMost(a: nat, b: nat, m: nat, n: nat)
    requires a <= m && b <= n
    ensures Times(a, b) <= m * n
    decreases b
  {
    TimesIsProduct(a, b);
    assert a * b <= m * n by {
      assert a * b <= m * b;
      assert m * b <= m * n;
    }
  }

  /** As compiled they always do. */
  lemma CompiledSpares(g: Geometry, d: seq<Sector>)
    requires Mountable(g, |d|) && g.written
    ensures Spared(g, d)
  {
    TimesAtMost(g.sectorsPerCluster, g.Limit() - 2, 0xFF, SLOTS_PER_SECTOR);
    assert g.Row(NO_CLUSTER) == 0x1F_FFFF;
    hide Times;
  }

  // ---- the volume afterwards ----

  lemma StrayRow(g: Geometry, n: nat, j: nat)
    requires Mountable(g, n) && j < g.Limit() && g.InTable(NO_CLUSTER)
    ensures !g.SameSlot(NO_CLUSTER, j) && g.InTable(j)
  {
  }

  /** All sectors below the last cluster's end are the same. */
  ghost predicate KeptBelow(g: Geometry, d: seq<Sector>, d': seq<Sector>)
    requires g.Limit() >= 2
  {
    |d'| == |d| && forall k :: 0 <= k < |d| && k < g.DataStart() + Base(g.sectorsPerCluster, g.Limit()) ==>
      d'[k] == d[k]
  }

  /** One harmless store. */
  lemma PutHarmless(g: Geometry, d: seq<Sector>, at: nat)
    requires Mountable(g, |d|) && Harmless(g, d, at)
    ensures KeptBelow(g, d, PutSlot(d, at, NO_CLUSTER, END_OF_CHAIN))
  {
    PutSlotSame(d, at, NO_CLUSTER, END_OF_CHAIN);
    hide SetSlot, Base, HoldsSlot;
  }

  /** What a volume needs from its drive. */
  ghost predicate SameVolume(g: Geometry, d: seq<Sector>, d': seq<Sector>)
    requires Mountable(g, |d|)
  {
    && |d'| == |d| && Mirrored(g, d') && FatView(g, d') == FatView(g, d) && d'[g.infoSector] == d[g.infoSector]
    && SameClusters(g, d[g.DataStart()..], d'[g.DataStart()..])
  }

  ghost predicate SameClusters(g: Geometry, d: seq<Sector>, d': seq<Sector>) {
    |d'| == |d| &&
    forall c :: 2 <= c < g.Limit() && Base(g.sectorsPerCluster, c) + g.sectorsPerCluster <= |d| ==>
      Cluster(d', g.sectorsPerCluster, c) == Cluster(d, g.sectorsPerCluster, c)
  }

  lemma KeptClusters(g: Geometry, d: seq<Sector>, d': seq<Sector>)
    requires Mountable(g, |d|) && KeptBelow(g, d, d')
    ensures SameClusters(g, d[g.DataStart()..], d'[g.DataStart()..])
  {
    hide Times;
    var e, e' := d[g.DataStart()..], d'[g.DataStart()..];
    forall c | 2 <= c < g.Limit() && Base(g.sectorsPerCluster, c) + g.sectorsPerCluster <= |e|
      ensures Cluster(e', g.sectorsPerCluster, c) == Cluster(e, g.sectorsPerCluster, c)
    {
      TimesGrows(g.sectorsPerCluster, c - 2, g.Limit() - 2);
      KeptCluster(g, d, d', c);
    }
  }

  lemma KeptCluster(g: Geometry, d: seq<Sector>, d': seq<Sector>, c: nat)
    requires g.Holds(|d|) && g.Limit() >= 2 && KeptBelow(g, d, d') && c >= 2
    requires Base(g.sectorsPerCluster, c) + g.sectorsPerCluster <= |d| - g.DataStart()
    requires Base(g.sectorsPerCluster, c) + g.sectorsPerCluster <= Base(g.sectorsPerCluster, g.Limit())
    ensures Cluster(d'[g.DataStart()..], g.sectorsPerCluster, c) == Cluster(d[g.DataStart()..], g.sectorsPerCluster, c)
  {
    hide Base;
    var lo := g.DataStart() + Base(g.sectorsPerCluster, c);
    var hi := lo + g.sectorsPerCluster;
    assert d'[lo..hi] == d[lo..hi];
    assert Cluster(d'[g.DataStart()..], g.sectorsPerCluster, c) == d'[lo..hi];
    assert Cluster(d[g.DataStart()..], g.sectorsPerCluster, c) == d[lo..hi];
  }

  lemma KeptIsSame(g: Geometry, d: seq<Sector>, d': seq<Sector>)
    requires Mountable(g, |d|) && Mirrored(g, d) && KeptBelow(g, d, d')
    ensures SameVolume(g, d, d')
  {
    KeptClusters(g, d, d');
    hide Base, Slot;
    assert FatView(g, d') == FatView(g, d);
  }

  lemma StrayInTable(g: Geometry, d: seq<Sector>)
    requires Mountable(g, |d|) && Mirrored(g, d) && g.InTable(NO_CLUSTER)
    ensures SameVolume(g, d, Strayed(g, d))
  {
    WriteInTable(g, d, NO_CLUSTER, END_OF_CHAIN);
    WriteKeepsMirror(g, d, NO_CLUSTER, END_OF_CHAIN);
    var d' := Strayed(g, d);
    forall j | 0 <= j < g.Limit()
      ensures FatView(g, d')[j] == FatView(g, d)[j]
    {
      StrayRow(g, |d|, j);
      ReadAfterWrite(g, d, NO_CLUSTER, END_OF_CHAIN, j);
    }
    assert d'[g.DataStart()..] == d[g.DataStart()..];
  }

  /** Where the stores spare the volume, it is the same volume. */
  lemma StrayedVolume(g: Geometry, d: seq<Sector>)
    requires Mountable(g, |d|) && Mirrored(g, d) && Spared(g, d)
    ensures SameVolume(g, d, Strayed(g, d))
  {
    if g.InTable(NO_CLUSTER) {
      StrayInTable(g, d);
    } else {
      StrayBelow(g, d);
      KeptIsSame(g, d, Strayed(g, d));
    }
  }

  lemma StrayBelow(g: Geometry, d: seq<Sector>)
    requires Mountable(g, |d|) && Mirrored(g, d) && Spared(g, d) && !g.InTable(NO_CLUSTER)
    ensures KeptBelow(g, d, Strayed(g, d))
  {
    var a, b := StrayAt(g, 0), StrayAt(g, 1);
    var d1 := PutSlot(d, a, NO_CLUSTER, END_OF_CHAIN);
    PutHarmless(g, d, a);
    assert b < |d| ==> d1[b] == d[b];
    hide KeptBelow, PutSlot, SetSlot, Base, Geometry.Row;
    PutHarmless(g, d1, b);
    KeptTwice(g, d, d1, PutSlot(d1, b, NO_CLUSTER, END_OF_CHAIN));
  }

  lemma KeptTwice(g: Geometry, d: seq<Sector>, d1: seq<Sector>, d2: seq<Sector>)
    requires g.Limit() >= 2 && KeptBelow(g, d, d1) && KeptBelow(g, d1, d2)
    ensures KeptBelow(g, d, d2)
  {
  }

  lemma VolumeKept(g: Geometry, f: seq<nat>, d: seq<Sector>, d': seq<Sector>, free: nat, t: Node)
    requires VolumeOk(g, f, d, free, t) && SameClusters(g, d, d') && |f| == g.Limit()
    ensures VolumeOk(g, f, d', free, t)
  {
    OwnedNotFree(g, f, d, t, 0);
    hide Proper, Clusters, Cluster, Base, Free;
    StoredFrame(g, f, d, f, d', t, 0);
  }

  /** The tree is still there. */
  twostate lemma StrayedSame(p: Partition)
    requires old(p.Sound()) && p.Mounted() && Spared(p.g, old(p.Disk())) && p.Disk() == Strayed(p.g, old(p.Disk()))
    ensures p.Sound() && p.Fat() == old(p.Fat()) && p.Info() == old(p.Info()) && |p.Fat()| == p.g.Limit()
    ensures SameClusters(p.g, old(p.Data()), p.Data())
  {
    StrayedVolume(p.g, old(p.Disk()));
  }
}
