/** Walking, extending and cutting cluster chains on a mounted partition (fat.c:135-295). */
module Allocation {
  import opened Bytes
  import opened Drives
  import opened FatTable
  import opened Chains
  import opened Partitions

  const NO_CLUSTER := 0xFFFF_FFFF

  /** What storing an end mark under the number that stands for no cluster does to a drive. */
  function Strayed(g: Geometry, d: seq<Sector>): (r: seq<Sector>)
    ensures |r| == |d|
  {
    WriteAnywhere(g, d, NO_CLUSTER, END_OF_CHAIN)
  }

  /** fat.c:139-146 */
  method FindEmptyCluster(p: Partition) returns (c: nat)
    requires p.Mounted()
    ensures c == 0xFFFF_FFFF ==> Free(p.Fat()) == {}
    ensures c != 0xFFFF_FFFF ==> FirstFree(p.Fat(), [c])
  {
    var i := 2;
    while i < p.g.fatSize / 4
      invariant 2 <= i <= p.g.Limit()
      invariant forall k :: k in Free(p.Fat()) ==> k >= i
    {
      var v := p.ReadFatEntry(i);
      if v == 0 {
        assert i in Free(p.Fat());
        return i;
      }
      i := i + 1;
    }
    c := NO_CLUSTER;
  }

  /** fat.c:153-163 */
  method ClusterChainLen(p: Partition, firstCluster: nat, ghost s: seq<nat>) returns (clusterCount: nat)
    requires p.Mounted()
    requires firstCluster >= END_OF_CHAIN || (Walk(p.Fat(), s) && s[0] == firstCluster)
    ensures clusterCount == if firstCluster >= END_OF_CHAIN then 0 else |s|
  {
    clusterCount := 0;
    var next := firstCluster;
    while next < END_OF_CHAIN
      invariant firstCluster >= END_OF_CHAIN ==> next == firstCluster && clusterCount == 0
      invariant firstCluster < END_OF_CHAIN ==>
        clusterCount <= |s| && next == if clusterCount < |s| then s[clusterCount] else p.Fat()[s[|s| - 1]]
      decreases |s| - clusterCount
    {
      next := p.ReadFatEntry(next);
      clusterCount := clusterCount + 1;
    }
  }

  /** fat.c:190-206; the array is as long as the chain. */
  method FindClusterChain(p: Partition, firstCluster: nat, ghost s: seq<nat>) returns (r: Option<seq<nat>>)
    requires p.Mounted()
    requires firstCluster == 0 || (Walk(p.Fat(), s) && s[0] == firstCluster)
    ensures r == if firstCluster == 0 then None else Some(s)
  {
    if firstCluster == 0 {
      return None;
    }
    var idxs := [];
    var next := firstCluster;
    while next < END_OF_CHAIN
      invariant |idxs| <= |s| && idxs == s[..|idxs|]
      invariant next == if |idxs| < |s| then s[|idxs|] else p.Fat()[s[|s| - 1]]
      decreases |s| - |idxs|
    {
      idxs := idxs + [next];
      next := p.ReadFatEntry(next);
    }
    assert idxs == s[..|s|] == s;
    r := Some(idxs);
  }

  /** fat.c:213-224 */
  method GetLastClusterInChain(p: Partition, firstCluster: nat, ghost s: seq<nat>) returns (last: nat)
    requires p.Mounted() && Walk(p.Fat(), s) && s[0] == firstCluster
    ensures last == s[|s| - 1]
  {
    last := firstCluster;
    var next := p.ReadFatEntry(last);
    ghost var i := 0;
    while next < END_OF_CHAIN
      invariant i < |s| && last == s[i] && next == p.Fat()[last]
      decreases |s| - i
    {
      last := next;
      next := p.ReadFatEntry(next);
      i := i + 1;
    }
  }

  lemma FreeCovered(f: seq<nat>, s: seq<nat>)
    requires FirstFree(f, s) && forall c :: c in Free(f) ==> c in s
    ensures |s| == |Free(f)|
  {
    assert Distinct(s);
    ElemsSize(s);
    assert Elems(s) == Free(f);
  }

  /** fat.c:169-182. None stands for NULL; `heapOk` says whether malloc found room. */
  method FindFreeClusters(p: Partition, clusterAmount: nat, heapOk: bool) returns (r: Option<seq<nat>>)
    requires p.Mounted()
    ensures r == None <==> clusterAmount > p.freeClusterCount || !heapOk
    ensures r.Some? ==> FirstFree(p.Fat(), r.value) && |r.value| <= clusterAmount
    ensures r.Some? && clusterAmount <= |Free(p.Fat())| ==> |r.value| == clusterAmount
  {
    if clusterAmount > p.freeClusterCount {
      return None;
    }
    if !heapOk {
      return None;
    }
    var idxs := [];
    var i := 2;
    while i < p.g.fatSize / 4 && |idxs| < clusterAmount
      invariant 2 <= i <= p.g.Limit() && |idxs| <= clusterAmount
      invariant forall k :: 0 <= k < |idxs| ==> idxs[k] in Free(p.Fat()) && idxs[k] < i
      invariant forall k, l :: 0 <= k < l < |idxs| ==> idxs[k] < idxs[l]
      invariant forall c :: c in Free(p.Fat()) && c < i ==> c in idxs
    {
      var v := p.ReadFatEntry(i);
      if v == 0 {
        idxs := idxs + [i];
      }
      i := i + 1;
    }
    if |idxs| < clusterAmount {
      FreeCovered(p.Fat(), idxs);
    }
    r := Some(idxs);
  }

  /** The loop and the last store of fat.c:252-257. */
  method LinkClusters(p: Partition, idx: seq<nat>)
    requires p.Sound() && idx != [] && forall i :: 0 <= i < |idx| ==> idx[i] < p.g.Limit()
    modifies p.hd.sectors
    ensures p.Sound() && p.Data() == old(p.Data()) && p.Info() == old(p.Info())
    ensures p.Fat() == LinkAll(old(p.Fat()), idx)
  {
    var i := 0;
    while i < |idx| - 1
      invariant 0 <= i < |idx|
      invariant p.Sound() && p.Data() == old(p.Data()) && p.Info() == old(p.Info())
      invariant LinkAll(p.Fat(), idx[i..]) == LinkAll(old(p.Fat()), idx)
    {
      assert idx[i..][1..] == idx[i + 1..];
      p.WriteFatEntry(idx[i], idx[i + 1]);
      i := i + 1;
    }
    assert idx[i..] == [idx[i]];
    p.WriteFatEntry(idx[|idx| - 1], END_OF_CHAIN);
  }

  /** The loop of fat.c:283-286. */
  method ZeroClusters(p: Partition, idx: seq<nat>, from: nat)
    requires p.Sound() && from <= |idx| && forall i :: 0 <= i < |idx| ==> idx[i] < p.g.Limit()
    modifies p.hd.sectors
    ensures p.Sound() && p.Data() == old(p.Data()) && p.Info() == old(p.Info())
    ensures p.Fat() == ZeroAll(old(p.Fat()), idx[from..])
  {
    var i := from;
    while i < |idx|
      invariant from <= i <= |idx|
      invariant p.Sound() && p.Data() == old(p.Data()) && p.Info() == old(p.Info())
      invariant ZeroAll(p.Fat(), idx[i..]) == ZeroAll(old(p.Fat()), idx[from..])
    {
      assert idx[i..][1..] == idx[i + 1..];
      p.WriteFatEntry(idx[i], 0);
      i := i + 1;
    }
    assert idx[i..] == [];
  }

  /** fat.c:232-266. Either `add`, the first free clusters, continue the chain, or nothing changes. */
  method AllocateNewClusters(p: Partition, startCluster: nat, clustersNeeded: nat, heapOk: bool, ghost s: seq<nat>)
    returns (ok: bool, ghost add: seq<nat>)
    requires p.Sound() && p.freeClusterCount < 0x1_0000_0000
    requires clustersNeeded > 0 ==> Chain(p.Fat(), s) && s[0] == startCluster
    requires clustersNeeded <= p.freeClusterCount ==> clustersNeeded <= |Free(p.Fat())|
    modifies p`freeClusterCount, p.hd.sectors
    ensures p.Sound() && p.Data() == old(p.Data()) && (old(p.InfoSynced()) ==> p.InfoSynced())
    ensures ok <==> clustersNeeded == 0 || (clustersNeeded <= old(p.freeClusterCount) && heapOk)
    ensures !ok || clustersNeeded == 0 ==> p.Disk() == old(p.Disk()) && p.freeClusterCount == old(p.freeClusterCount)
    ensures ok ==> FirstFree(old(p.Fat()), add) && |add| == clustersNeeded
    ensures ok ==> p.freeClusterCount == old(p.freeClusterCount) - clustersNeeded
    ensures ok && clustersNeeded > 0 ==> p.Fat() == Extend(old(p.Fat()), s[|s| - 1], add)
    ensures ok && clustersNeeded > 0 ==>
              add[clustersNeeded - 1] < |p.Fat()| && p.Fat()[add[clustersNeeded - 1]] == 0x0FFF_FFF8
  {
    hide *;
    SoundParts(p);
    NothingTaken(p.Fat());
    add := [];
    if clustersNeeded == 0 {
      return true, add;
    }
    ChainWalks(p.Fat(), s);
    var lastCluster := GetLastClusterInChain(p, startCluster, s);
    if p.freeClusterCount < clustersNeeded {
      return false, add;
    }
    var found := FindFreeClusters(p, clustersNeeded, heapOk);
    if found.None? {
      return false, add;
    }
    var idx := found.value;
    ToLink(p, s, idx);
    ghost var linked := p.Fat()[s[|s| - 1] := idx[0]];
    LinkAllLast(linked, idx);
    SomeFound(idx, clustersNeeded);
    p.WriteFatEntry(lastCluster, idx[0]);
    LinkClusters(p, idx);
    p.freeClusterCount := p.freeClusterCount - clustersNeeded;
    p.UpdateFSInfo();
    return true, idx;
  }

  lemma ChainWalks(f: seq<nat>, s: seq<nat>)
    requires Chain(f, s)
    ensures Walk(f, s)
  {
  }

  lemma SomeFound(idx: seq<nat>, n: nat)
    requires |idx| == n > 0
    ensures idx[|idx| - 1] == idx[n - 1]
  {
  }

  lemma NothingTaken(f: seq<nat>)
    ensures FirstFree(f, [])
  {
  }

  lemma SoundParts(p: Partition)
    requires p.Sound()
    ensures p.Mounted()
  {
  }

  /** The chain's end and the clusters found can be linked, one after the other. */
  lemma ToLink(p: Partition, s: seq<nat>, idx: seq<nat>)
    requires p.Mounted() && Chain(p.Fat(), s) && FirstFree(p.Fat(), idx) && idx != []
    ensures s[|s| - 1] < p.g.Limit() && idx[0] < FAT_MASK && s[|s| - 1] < |p.Fat()|
    ensures forall i :: 0 <= i < |idx| ==> idx[i] < p.g.Limit() && idx[i] < |p.Fat()|
    ensures Extend(p.Fat(), s[|s| - 1], idx) == LinkAll(p.Fat()[s[|s| - 1] := idx[0]], idx)
  {
    assert forall k :: 0 <= k < |idx| ==> idx[k] in Free(p.Fat());
    assert ([s[|s| - 1]] + idx)[1..] == idx;
    hide FatView, Mirrored, Mountable;
  }

  /** fat.c:274-295; `clustersToRemove` is negative or 0. The chain of an empty file starts at 0
      and is left alone. */
  method RemoveClustersFromChain(p: Partition, startCluster: nat, chainSize: nat, clustersToRemove: int,
                                 ghost s: seq<nat>)
    requires p.Sound()
    requires startCluster == 0 || (Chain(p.Fat(), s) && s[0] == startCluster && |s| == chainSize)
    requires -(chainSize as int) <= clustersToRemove <= 0
    requires p.freeClusterCount - clustersToRemove < 0x1_0000_0000
    modifies p`freeClusterCount, p.hd.sectors
    ensures p.Sound() && p.Data() == old(p.Data()) && (old(p.InfoSynced()) ==> p.InfoSynced())
    ensures startCluster == 0 ==> p.Disk() == old(p.Disk()) && p.freeClusterCount == old(p.freeClusterCount)
    ensures startCluster != 0 ==> p.Fat() == Truncate(old(p.Fat()), s, chainSize + clustersToRemove)
    ensures startCluster != 0 && chainSize + clustersToRemove > 0 ==>
      p.Fat()[s[chainSize + clustersToRemove - 1]] == 0x0FFF_FFF8
    ensures startCluster != 0 ==> p.freeClusterCount == old(p.freeClusterCount) - clustersToRemove
  {
    var found := FindClusterChain(p, startCluster, s);
    if found.None? {
      return;
    }
    var idx := found.value;
    ZeroClusters(p, idx, chainSize + clustersToRemove);
    if chainSize > -clustersToRemove {
      p.WriteFatEntry(idx[chainSize + clustersToRemove - 1], END_OF_CHAIN);
    }
    p.freeClusterCount := p.freeClusterCount - clustersToRemove;
    p.UpdateFSInfo();
  }
}
