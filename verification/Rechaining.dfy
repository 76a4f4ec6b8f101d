/** Giving a file as many clusters as its new size needs (fat.c:818-843, 939-964). */
module Rechaining {
  import opened Bytes
  import opened FatTable
  import opened Chains
  import opened Partitions
  import opened Allocation
  import opened Volumes
  import opened MakeDir
  import opened Removal

  /** From table `f`, where a file owns the chain `s`, to table `f'`, where it owns `n` clusters
      `s'`: the first ones of `s`, or all of `s` and then the first free ones. Only these
      clusters change, and what the file gives up is free. */
  ghost predicate Rechained(f: seq<nat>, s: seq<nat>, f': seq<nat>, s': seq<nat>, n: nat) {
    && |f'| == |f| && |s'| == n
    && (s' != [] ==> Chain(f', s'))
    && (if n <= |s| then s' == s[..n] else s'[..|s|] == s && FirstFree(f, s'[|s|..]))
    && (forall c :: 0 <= c < |f| && c !in Elems(s) + Elems(s') ==> f'[c] == f[c])
    && Free(f') == Free(f) + Elems(s) - Elems(s')
    && |Free(f')| + n == |Free(f)| + |s|
  }

  lemma RechainedNow(f: seq<nat>, s: seq<nat>, f': seq<nat>, s': seq<nat>, n: nat)
    requires |f'| == |f| && |s'| == n && (s' != [] ==> Chain(f', s'))
    requires n <= |s| ==> s' == s[..n]
    requires n > |s| ==> s'[..|s|] == s && FirstFree(f, s'[|s|..])
    requires forall c :: 0 <= c < |f| && c !in Elems(s) + Elems(s') ==> f'[c] == f[c]
    requires Free(f') == Free(f) + Elems(s) - Elems(s') && |Free(f')| + n == |Free(f)| + |s|
    ensures Rechained(f, s, f', s', n)
  {
  }

  lemma ElemsJoin(s: seq<nat>, t: seq<nat>)
    ensures Elems(s + t) == Elems(s) + Elems(t)
  {
  }

  lemma ElemsSplit(s: seq<nat>, n: nat)
    requires n <= |s| && Distinct(s)
    ensures Elems(s) == Elems(s[..n]) + Elems(s[n..]) && Elems(s[..n]) !! Elems(s[n..])
  {
    assert s == s[..n] + s[n..];
    ElemsJoin(s[..n], s[n..]);
  }

  lemma Unchanged(f: seq<nat>, s: seq<nat>)
    requires s != [] ==> Chain(f, s)
    ensures Rechained(f, s, f, s, |s|)
  {
    assert s[..|s|] == s;
    if s != [] {
      ChainNotFree(f, s);
    } else {
      assert Elems(s) == {};
    }
  }

  lemma AppendedAt<T>(s: seq<T>, t: seq<T>)
    requires t != []
    ensures (s + t)[..|s|] == s && (s + t)[|s|..] == t && |s + t| > |s|
  {
  }

  lemma FirstFreeSet(f: seq<nat>, add: seq<nat>)
    requires FirstFree(f, add)
    ensures Elems(add) <= Free(f) && forall i :: 0 <= i < |add| ==> add[i] < |f|
  {
  }

  lemma InElems(s: seq<nat>)
    ensures forall c :: c in s <==> c in Elems(s)
    ensures s != [] ==> s[|s| - 1] in Elems(s)
  {
  }

  lemma Grown(f: seq<nat>, s: seq<nat>, add: seq<nat>)
    requires Chain(f, s) && FirstFree(f, add) && add != []
    ensures Rechained(f, s, Extend(f, s[|s| - 1], add), s + add, |s| + |add|)
  {
    hide *;
    WalkOfChain(f, s);
    FirstFreeSet(f, add);
    var f' := Extend(f, s[|s| - 1], add);
    ExtendedChain(f, s, add);
    ExtendFree(f, s, add);
    ExtendedElsewhere(f, s, add);
    ChainNotFree(f, s);
    AppendedAt(s, add);
    RechainedNow(f, s, f', s + add, |s| + |add|);
  }

  lemma ExtendedElsewhere(f: seq<nat>, s: seq<nat>, add: seq<nat>)
    requires Chain(f, s) && FirstFree(f, add)
    ensures Elems(s + add) == Elems(s) + Elems(add)
    ensures forall c :: 0 <= c < |f| && c !in Elems(s) + Elems(s + add) ==> Extend(f, s[|s| - 1], add)[c] == f[c]
  {
    ExtendAt(f, s, add);
    InElems(s);
    InElems(add);
    hide FirstFree, Chain, Extend, Elems;
    ElemsJoin(s, add);
  }

  lemma Shrunk(f: seq<nat>, s: seq<nat>, n: nat)
    requires Chain(f, s) && n < |s|
    ensures Rechained(f, s, Truncate(f, s, n), s[..n], n)
  {
    hide *;
    if n > 0 {
      TruncatedChain(f, s, n);
    }
    TruncateFree(f, s, n);
    WalkOfChain(f, s);
    WalkDistinct(f, s);
    TruncatedElsewhere(f, s, n);
    ChainNotFree(f, s);
    ElemsSplit(s, n);
    RechainedNow(f, s, Truncate(f, s, n), s[..n], n);
  }

  lemma TruncatedElsewhere(f: seq<nat>, s: seq<nat>, n: nat)
    requires Chain(f, s) && n < |s| && Distinct(s)
    ensures forall c :: 0 <= c < |f| && c !in Elems(s) + Elems(s[..n]) ==> Truncate(f, s, n)[c] == f[c]
  {
    TruncateAt(f, s, n);
    hide Chain, Truncate;
    assert forall c :: c in s[n..] ==> c in Elems(s);
    assert n > 0 ==> s[n - 1] in Elems(s);
  }

  lemma WalkOfChain(f: seq<nat>, s: seq<nat>)
    requires Chain(f, s)
    ensures Walk(f, s) && s != [] && forall i :: 0 <= i < |s| ==> 2 <= s[i] < |f|
  {
  }

  /** The first free cluster, taken by itself. */
  lemma TakenAlone(f: seq<nat>, c: nat)
    requires c in Free(f) && |f| <= END_OF_CHAIN
    ensures Chain(f[c := END_OF_CHAIN], [c]) && |f[c := END_OF_CHAIN]| == |f|
    ensures |Free(f[c := END_OF_CHAIN])| + 1 == |Free(f)|
  {
    OneTaken(f, c);
  }

  lemma FreshFree(f: seq<nat>, c: nat, add: seq<nat>)
    requires FirstFree(f, [c]) && c in Free(f) && FirstFree(f[c := END_OF_CHAIN], add)
    ensures FirstFree(f, [c] + add)
  {
    FirstFreeOne(f, c);
    OneTaken(f, c);
    var s := [c] + add;
    forall i | 0 <= i < |s|
      ensures s[i] in Free(f) && (i > 0 ==> c < s[i])
    {
      if i > 0 {
        assert add[i - 1] in Free(f[c := END_OF_CHAIN]);
      }
    }
  }

  lemma RechainedParts(f: seq<nat>, s: seq<nat>, f': seq<nat>, s': seq<nat>, n: nat)
    requires Rechained(f, s, f', s', n)
    ensures |f'| == |f| && |s'| == n && (s' != [] ==> Chain(f', s'))
    ensures n <= |s| ==> s' == s[..n]
    ensures n > |s| ==> s'[..|s|] == s && FirstFree(f, s'[|s|..])
    ensures forall c :: 0 <= c < |f| && c !in Elems(s) + Elems(s') ==> f'[c] == f[c]
    ensures Free(f') == Free(f) + Elems(s) - Elems(s') && |Free(f')| + n == |Free(f)| + |s|
  {
  }

  lemma OneElem(c: nat, add: seq<nat>)
    ensures Elems([]) == {} && Elems([c]) == {c} && Elems([c] + add) == {c} + Elems(add)
    ensures |[c] + add| == 1 + |add| && ([c] + add)[0..] == [c] + add && ([c] + add)[..0] == [] && |[c]| == 1
  {
  }

  /** The fresh first cluster, and what `Grown` says of those behind it. */
  lemma FreshGrown(f: seq<nat>, c: nat, f': seq<nat>, add: seq<nat>)
    requires FirstFree(f, [c]) && c in Free(f) && FirstFree(f[c := END_OF_CHAIN], add) && |f| <= END_OF_CHAIN
    requires Rechained(f[c := END_OF_CHAIN], [c], f', [c] + add, 1 + |add|)
    ensures Rechained(f, [], f', [c] + add, 1 + |add|)
  {
    hide *;
    FreeIsCluster(f, c);
    FreshFree(f, c, add);
    OneTaken(f, c);
    OneElem(c, add);
    FreshSeen(f, c, f[c := END_OF_CHAIN], f', [c] + add, 1 + |add|);
  }

  lemma FreshSeen(f: seq<nat>, c: nat, f1: seq<nat>, f': seq<nat>, s: seq<nat>, n: nat)
    requires c < |f| == |f1| && (forall x :: 0 <= x < |f| && x != c ==> f1[x] == f[x])
    requires Free(f1) == Free(f) - {c} && |Free(f1)| == |Free(f)| - 1 && c in Elems(s) && c in Free(f)
    requires Elems([c]) == {c}
    requires n == |s| > 0 && s[..0] == [] && s[0..] == s && FirstFree(f, s) && Rechained(f1, [c], f', s, n)
    ensures Rechained(f, [], f', s, n)
  {
    hide *;
    RechainedParts(f1, [c], f', s, n);
    NoElems();
    RechainedNow(f, [], f', s, n);
  }

  lemma NoElems()
    ensures Elems([]) == {}
  {
  }

  datatype Growth =
    | Fitted    // the file owns as many clusters as it needs
    | Refused   // there is no room, and the file and the count are as they were
    | Leaked    // there is no room, but one cluster was taken and is lost

  /** Taking the first cluster of an empty file (fat.c:828-832): the count is lowered later. Without
      a free cluster, the mark is stored under the number that stands for none. */
  method TakeFirst(p: Partition) returns (c: nat)
    requires p.Sound() && p.InfoSynced() && p.freeClusterCount == |Free(p.Fat())|
    modifies p.hd.sectors
    ensures c < END_OF_CHAIN <==> p.freeClusterCount > 0
    ensures p.freeClusterCount == 0 ==> p.Disk() == Strayed(p.g, old(p.Disk()))
    ensures c < END_OF_CHAIN ==> p.Sound() && p.InfoSynced() && p.Data() == old(p.Data())
    ensures c < END_OF_CHAIN ==> FirstFree(old(p.Fat()), [c]) && c in Free(old(p.Fat())) && 2 <= c < |p.Fat()|
    ensures c < END_OF_CHAIN ==> p.Fat() == old(p.Fat())[c := END_OF_CHAIN] && Chain(p.Fat(), [c])
    ensures c < END_OF_CHAIN ==> |Free(p.Fat())| + 1 == p.freeClusterCount
  {
    hide *;
    MarkFits();
    SoundDisk(p);
    ghost var f, d := p.Fat(), p.Disk();
    c := FindEmptyCluster(p);
    NoneFree(f, c, p.freeClusterCount);
    p.WriteAnyEntry(c, END_OF_CHAIN);
    if p.freeClusterCount > 0 {
      FirstTaken(p.g, f, d, c);
      StillKept(p, d, p.Disk());
      TakenNow(p, f, d, c);
    } else {
      StrayedIs(p.g, d);
    }
  }

  /** But for the FSInfo sector, the sectors of `d` before the table are the partition's. */
  ghost predicate KeptBefore(p: Partition, d: seq<Sector>) {
    |p.reserved| == p.g.fatStart <= |d| &&
    forall k :: 0 <= k < p.g.fatStart && k != p.g.infoSector ==> d[k] == p.reserved[k]
  }

  lemma StillKept(p: Partition, d: seq<Sector>, d': seq<Sector>)
    requires KeptBefore(p, d) && |d'| == |d| && d'[..p.g.fatStart] == d[..p.g.fatStart]
    ensures KeptBefore(p, d')
  {
    assert forall k :: 0 <= k < p.g.fatStart ==> d'[k] == d'[..p.g.fatStart][k] && d[k] == d[..p.g.fatStart][k];
  }

  lemma MarkFits()
    ensures END_OF_CHAIN < 0x1_0000_0000
  {
  }

  lemma SoundDisk(p: Partition)
    requires p.Sound() && p.InfoSynced()
    ensures p.Mounted() && Mountable(p.g, |p.Disk()|) && p.Fat() == FatView(p.g, p.Disk()) && Mirrored(p.g, p.Disk())
    ensures p.Data() == p.Disk()[p.g.DataStart()..]
    ensures InfoShows(p.Disk()[p.g.infoSector], p.infoImage, p.freeClusterCount) && KeptBefore(p, p.Disk())
    ensures |p.Fat()| <= END_OF_CHAIN
  {
  }

  lemma TakenNow(p: Partition, f: seq<nat>, d: seq<Sector>, c: nat)
    requires p.Mounted() && Mountable(p.g, |d|) && Mirrored(p.g, d)
    requires InfoShows(d[p.g.infoSector], p.infoImage, p.freeClusterCount) && KeptBefore(p, p.Disk())
    requires Mirrored(p.g, p.Disk()) && p.Disk()[p.g.infoSector] == d[p.g.infoSector]
    ensures p.Sound() && p.InfoSynced() && p.Fat() == FatView(p.g, p.Disk()) && p.Data() == p.Disk()[p.g.DataStart()..]
  {
  }

  lemma StrayedIs(g: Geometry, d: seq<Sector>)
    ensures END_OF_CHAIN < 0x1_0000_0000 && WriteAnywhere(g, d, 0xFFFF_FFFF, END_OF_CHAIN) == Strayed(g, d)
  {
  }

  /** What find_empty_Cluster's answer says about the count. */
  lemma NoneFree(f: seq<nat>, c: nat, free: nat)
    requires free == |Free(f)| && |f| <= END_OF_CHAIN
    requires (c == 0xFFFF_FFFF ==> Free(f) == {}) && (c != 0xFFFF_FFFF ==> FirstFree(f, [c]))
    ensures free == 0 <==> c == 0xFFFF_FFFF
    ensures c < END_OF_CHAIN <==> free > 0
  {
    if c != 0xFFFF_FFFF {
      FirstFreeOne(f, c);
    }
  }

  lemma FirstTaken(g: Geometry, f: seq<nat>, d: seq<Sector>, c: nat)
    requires Mountable(g, |d|) && f == FatView(g, d) && Mirrored(g, d) && FirstFree(f, [c])
    ensures c in Free(f) && 2 <= c < |f| && END_OF_CHAIN < 0x1_0000_0000
    ensures var d' := WriteAnywhere(g, d, c, END_OF_CHAIN);
      && Mirrored(g, d') && FatView(g, d') == f[c := END_OF_CHAIN]
      && d'[g.DataStart()..] == d[g.DataStart()..] && d'[g.infoSector] == d[g.infoSector]
      && |d'| == |d| && d'[..g.fatStart] == d[..g.fatStart]
    ensures Chain(f[c := END_OF_CHAIN], [c]) && |Free(f[c := END_OF_CHAIN])| + 1 == |Free(f)|
  {
    FirstFreeOne(f, c);
    FreeIsCluster(f, c);
    TakenAlone(f, c);
    hide Chain, Free, FirstFree, Mirrored, Slot, SetSlot;
    WriteInTable(g, d, c, END_OF_CHAIN);
    WriteSlotView(g, d, c, END_OF_CHAIN);
  }

  /** What one of the two ways of continuing a chain leaves behind. */
  lemma AllocatedMore(f: seq<nat>, s: seq<nat>, add: seq<nat>, f': seq<nat>)
    requires s != [] ==> Chain(f, s)
    requires add == [] ==> f' == f
    requires add != [] ==> s != [] && FirstFree(f, add) && f' == Extend(f, s[|s| - 1], add)
    ensures Rechained(f, s, f', s + add, |s| + |add|)
  {
    if add == [] {
      Unchanged(f, s);
      assert s + add == s;
    } else {
      Grown(f, s, add);
    }
  }

  lemma RechainedFree(f: seq<nat>, s: seq<nat>, f': seq<nat>, s': seq<nat>, n: nat)
    requires Rechained(f, s, f', s', n)
    ensures |Free(f')| + n == |Free(f)| + |s| && |s'| == n
  {
  }

  /** The state of a volume whose count and FSInfo sector tell the truth. */
  ghost predicate Counted(p: Partition)
    reads p, p.hd.sectors
  {
    p.Sound() && p.InfoSynced() && p.freeClusterCount == |Free(p.Fat())|
  }

  lemma CountedParts(p: Partition)
    requires Counted(p)
    ensures p.Sound() && p.Mounted() && p.InfoSynced() && p.freeClusterCount == |Free(p.Fat())| < END_OF_CHAIN
    ensures |p.Fat()| <= END_OF_CHAIN
  {
    FreeBound(p.Fat());
  }

  lemma CountedNow(p: Partition)
    requires p.Sound() && p.InfoSynced() && p.freeClusterCount == |Free(p.Fat())|
    ensures Counted(p)
  {
  }

  lemma EndIsSmall()
    ensures END_OF_CHAIN < 0x1000_0000
  {
  }

  twostate lemma DiskSame(p: Partition)
    requires old(p.Sound()) && p.Disk() == old(p.Disk())
    ensures p.Sound() && p.Fat() == old(p.Fat()) && p.Data() == old(p.Data()) && p.Info() == old(p.Info())
  {
  }

  /** An empty file gets its first clusters. With room for all of them it has them; without, the
      first one is lost and the count does not know it (fat.c:827-839). On a full volume the answer
      0xFFFFFFFF is refused, after an end mark was stored under it. */
  method GrowEmpty(p: Partition, needed: nat, heapOk: bool) returns (r: Growth, first: nat, ghost s': seq<nat>)
    requires Counted(p) && needed > 0 && (p.freeClusterCount > 0 ==> needed != p.freeClusterCount + 1)
    modifies p`freeClusterCount, p.hd.sectors
    ensures !r.Refused? ==> p.Sound() && p.InfoSynced() && p.Data() == old(p.Data())
    ensures r == if old(p.freeClusterCount) == 0 then Refused
                 else if needed == 1 || (needed <= old(p.freeClusterCount) && heapOk) then Fitted else Leaked
    ensures r.Fitted? ==> Counted(p) && Rechained(old(p.Fat()), [], p.Fat(), s', needed) && s' != [] && s'[0] == first
    ensures r.Refused? ==> p.Disk() == Strayed(p.g, old(p.Disk())) && p.freeClusterCount == old(p.freeClusterCount)
    ensures r.Leaked? ==> FirstFree(old(p.Fat()), [first]) && p.Fat() == old(p.Fat())[first := END_OF_CHAIN]
    ensures r.Leaked? ==> p.freeClusterCount == old(p.freeClusterCount) == |Free(p.Fat())| + 1
  {
    hide *;
    CountedParts(p);
    ghost var f := p.Fat();
    first := TakeFirst(p);
    s' := [];
    if first >= END_OF_CHAIN {
      r := Refused;
      return;
    }
    ghost var f1 := p.Fat();
    EndIsSmall();
    var ok;
    ghost var add;
    label Taken:
    ok, add := AllocateNewClusters(p, first, needed - 1, heapOk, [first]);
    if !ok || needed == 1 {
      DiskSame@Taken(p);
    }
    if !ok {
      r := Leaked;
      return;
    }
    p.freeClusterCount := p.freeClusterCount - 1;
    p.UpdateFSInfo();
    AllocatedMore(f1, [first], add, p.Fat());
    FreshGrown(f, first, p.Fat(), add);
    s' := [first] + add;
    RechainedFree(f, [], p.Fat(), s', needed);
    CountedNow(p);
    r := Fitted;
  }

  /** When a file of `cur` clusters can get `needed` ones, with `free` clusters free. */
  predicate Affordable(cur: nat, needed: nat, free: nat, heapOk: bool) {
    needed <= cur || (cur == 0 && needed == 1 && free > 0) || (needed - cur <= free && heapOk)
  }

  /** What the code does not guard against when an empty file grows: that exactly one cluster less
      is free than are needed. It then works with cluster numbers that nobody has set. */
  predicate Guarded(cur: nat, needed: nat, free: nat) {
    cur == 0 && free > 0 ==> needed != free + 1
  }

  /** A file with clusters, or one that needs none, keeps what it has and gets `more` (fat.c:834-840). */
  method GrowChain(p: Partition, first: nat, more: nat, heapOk: bool, ghost s: seq<nat>)
    returns (ok: bool, ghost s': seq<nat>)
    requires Counted(p) && OwnsChain(p.Fat(), first, s) && (more > 0 ==> s != [])
    modifies p`freeClusterCount, p.hd.sectors
    ensures p.Sound() && p.InfoSynced() && p.Data() == old(p.Data())
    ensures ok <==> more == 0 || (more <= old(p.freeClusterCount) && heapOk)
    ensures ok ==> Counted(p) && Rechained(old(p.Fat()), s, p.Fat(), s', |s| + more)
    ensures ok ==> |s'| == |s| + more && first == if s' == [] then 0 else s'[0]
    ensures !ok ==> p.Disk() == old(p.Disk()) && p.freeClusterCount == old(p.freeClusterCount)
  {
    hide *;
    CountedParts(p);
    EndIsSmall();
    OwnedFirst(p.Fat(), first, s);
    ghost var f := p.Fat();
    s' := [];
    ghost var add;
    label Before:
    ok, add := AllocateNewClusters(p, first, more, heapOk, s);
    if !ok || more == 0 {
      DiskSame@Before(p);
    }
    if ok {
      p.UpdateFSInfo();
      s' := s + add;
      MoreChained(f, s, add, p.Fat(), |s| + more);
      CountedNow(p);
    }
  }

  lemma MoreChained(f: seq<nat>, s: seq<nat>, add: seq<nat>, f': seq<nat>, n: nat)
    requires (s != [] ==> Chain(f, s)) && (add == [] ==> f' == f) && n == |s| + |add|
    requires add != [] ==> s != [] && FirstFree(f, add) && f' == Extend(f, s[|s| - 1], add)
    ensures Rechained(f, s, f', s + add, n) && |Free(f')| + n == |Free(f)| + |s| && |s + add| == n
    ensures s != [] ==> (s + add)[0] == s[0]
    ensures s == [] ==> add == [] && s + add == []
  {
    AllocatedMore(f, s, add, f');
    RechainedFree(f, s, f', s + add, n);
  }

  /** A file gives up all but `needed` clusters (fat.c:841-843). */
  method ShrinkChain(p: Partition, first: nat, cur: nat, needed: nat, ghost s: seq<nat>)
    requires Counted(p) && OwnsChain(p.Fat(), first, s) && needed < cur == |s|
    modifies p`freeClusterCount, p.hd.sectors
    ensures Counted(p) && p.Sound() && p.InfoSynced() && p.Data() == old(p.Data())
    ensures Rechained(old(p.Fat()), s, p.Fat(), s[..needed], needed)
  {
    hide *;
    CountedParts(p);
    EndIsSmall();
    OwnedFirst(p.Fat(), first, s);
    ghost var f := p.Fat();
    RemoveClustersFromChain(p, first, cur, needed - cur, s);
    Shrunk(f, s, needed);
    RechainedFree(f, s, p.Fat(), s[..needed], needed);
    CountedNow(p);
  }

  /** fat.c:826-843, 947-964 */
  method Rechain(p: Partition, first0: nat, cur: nat, needed: nat, heapOk: bool, ghost s: seq<nat>)
    returns (r: Growth, first: nat, ghost s': seq<nat>)
    requires Counted(p) && OwnsChain(p.Fat(), first0, s) && cur == |s| && Guarded(cur, needed, p.freeClusterCount)
    modifies p`freeClusterCount, p.hd.sectors
    ensures !r.Refused? ==> p.Sound() && p.InfoSynced() && p.Data() == old(p.Data())
    ensures r.Fitted? <==> Affordable(cur, needed, old(p.freeClusterCount), heapOk)
    ensures r.Fitted? ==> Counted(p) && Rechained(old(p.Fat()), s, p.Fat(), s', needed)
    ensures r.Fitted? ==> |s'| == needed && first == if s' == [] then first0 else s'[0]
    ensures r.Refused? ==> (cur == 0 ==> old(p.freeClusterCount) == 0) && p.freeClusterCount == old(p.freeClusterCount)
    ensures r.Refused? ==> p.Disk() == if cur == 0 then Strayed(p.g, old(p.Disk())) else old(p.Disk())
    ensures r.Leaked? ==> cur == 0 && old(p.freeClusterCount) > 0
    ensures r.Leaked? ==> FirstFree(old(p.Fat()), [first]) && p.Fat() == old(p.Fat())[first := END_OF_CHAIN]
    ensures r.Leaked? ==> p.freeClusterCount == old(p.freeClusterCount) == |Free(p.Fat())| + 1
  {
    hide *;
    CountedParts(p);
    OwnedFirst(p.Fat(), first0, s);
    NoElements(s);
    AffordableCases(cur, needed, p.freeClusterCount, heapOk);
    first := first0;
    var clustersNeeded: int := needed - cur;
    var noClusters := clustersNeeded > 0 && first0 == 0;
    if noClusters {
      ghost var f := p.Fat();
      r, first, s' := GrowEmpty(p, needed, heapOk);
      if r.Fitted? {
        RechainedFree(f, [], p.Fat(), s', needed);
      }
    } else if clustersNeeded >= 0 {
      var ok;
      ok, s' := GrowChain(p, first, clustersNeeded, heapOk, s);
      r := if ok then Fitted else Refused;
    } else {
      ShrinkChain(p, first, cur, needed, s);
      r, s' := Fitted, s[..needed];
    }
  }

  lemma NoElements(s: seq<nat>)
    ensures |s| == 0 <==> s == []
  {
  }

  lemma AffordableCases(cur: nat, needed: nat, free: nat, heapOk: bool)
    ensures Affordable(cur, needed, free, heapOk) <==>
      needed <= cur || (cur == 0 && needed == 1 && free > 0) || (needed - cur <= free && heapOk)
    ensures Guarded(cur, needed, free) <==> (cur == 0 && free > 0 ==> needed != free + 1)
  {
  }

  lemma OwnedFirst(f: seq<nat>, first: nat, s: seq<nat>)
    requires OwnsChain(f, first, s)
    ensures first == 0 <==> s == []
    ensures s != [] ==> Chain(f, s) && s[0] == first && |s| <= |f|
  {
    if s != [] {
      WalkDistinct(f, s);
      ChainShort(f, s);
    }
  }
}
