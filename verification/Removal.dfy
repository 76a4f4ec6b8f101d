/** Deleting files and directories (fat.c:435-497, 650-761). */
module Removal {
  import opened Bytes
  import opened FatTable
  import opened Chains
  import opened FileData
  import opened Partitions
  import opened Allocation
  import opened LongNames
  import opened Directories
  import opened Trees
  import opened Lookup
  import opened ReadingOn
  import opened Volumes
  import opened Creation

  /** The table with the clusters `cs` released. */
  ghost function Released(f: seq<nat>, cs: set<nat>): (r: seq<nat>)
    ensures |r| == |f|
  {
    seq(|f|, c requires 0 <= c < |f| => if c in cs then 0 else f[c])
  }

  lemma ReleasedFree(f: seq<nat>, cs: set<nat>)
    requires cs !! Free(f) && forall c :: c in cs ==> 2 <= c < |f|
    ensures Free(Released(f, cs)) == Free(f) + cs
    ensures |Free(Released(f, cs))| == |Free(f)| + |cs|
  {
    assert Free(Released(f, cs)) == Free(f) + cs;
  }

  lemma ReleasedMore(f: seq<nat>, cs: set<nat>, more: set<nat>)
    ensures Released(Released(f, cs), more) == Released(f, cs + more)
  {
  }

  lemma ReleasedChain(f: seq<nat>, s: seq<nat>)
    requires Chain(f, s)
    ensures Truncate(f, s, 0) == Released(f, Elems(s))
  {
    WalkDistinct(f, s);
    TruncateAt(f, s, 0);
    assert s[0..] == s;
  }

  lemma ReleasedSame(spc: nat, f: seq<nat>, d: seq<Sector>, rs: set<nat>, cs: set<nat>)
    requires rs !! cs
    ensures SameAt(spc, f, d, Released(f, rs), d, cs)
  {
  }

  // ---- marking entries ----

  /** The entries of one sector with the short one at `i` and the `run` before it marked. */
  function MarkDeleted(dirent: seq<Entry>, i: nat, run: nat): (r: seq<Entry>)
    requires |dirent| == SLOTS && run <= i < SLOTS
    ensures |r| == SLOTS
  {
    seq(SLOTS, k requires 0 <= k < SLOTS => if i - run <= k <= i then Delete(dirent[k]) else dirent[k])
  }

  /** fat.c:487-488 */
  method MarkEntries(dirent0: seq<Entry>, i: nat, run: nat) returns (dirent: seq<Entry>)
    requires |dirent0| == SLOTS && run <= i < SLOTS
    ensures dirent == MarkDeleted(dirent0, i, run)
  {
    dirent := dirent0;
    var k := i - run;
    while k <= i
      invariant i - run <= k <= i + 1 && |dirent| == SLOTS
      invariant forall l :: 0 <= l < SLOTS ==> dirent[l] == if i - run <= l < k then Delete(dirent0[l]) else dirent0[l]
    {
      dirent := dirent[k := Delete(dirent[k])];
      k := k + 1;
    }
  }

  /** The data area with an item's entries marked deleted. */
  function Marked(g: Geometry, d: seq<Sector>, at: Place): seq<Sector>
    requires at.Place? && |at.dirent| == SLOTS && at.run <= at.index < SLOTS
    requires at.cluster >= 2 && Base(g.sectorsPerCluster, at.cluster) + at.offset < |d|
  {
    d[Base(g.sectorsPerCluster, at.cluster) + at.offset := Pack(MarkDeleted(at.dirent, at.index, at.run))]
  }

  /** A lookup's answer leads to item `j`, whose entries stand in the answer's sector. */
  lemma PlaceParts(g: Geometry, d: seq<Sector>, s: seq<nat>, es: seq<Entry>, at: Place, q: nat, m: nat, j: nat,
                   name: Name, dirsOnly: bool)
    requires InArea(|d|, g.sectorsPerCluster, s) && es == DirSlots(d, g.sectorsPerCluster, s) && Tidy(es, 0, 0)
    requires PlaceOk(g.sectorsPerCluster, d, s, es, at, q, m, j, name, dirsOnly)
    ensures at.Place? && |at.dirent| == SLOTS && at.run <= at.index < SLOTS && FirstWanted(es, j, name, dirsOnly)
    ensures q < |s| && at.cluster == s[q] && at.cluster >= 2 && at.offset < g.sectorsPerCluster
    ensures Base(g.sectorsPerCluster, at.cluster) + at.offset < |d|
    ensures m == Times(g.sectorsPerCluster, q) + at.offset && SLOTS * m + SLOTS <= |es|
    ensures j < |Items(es, 0, 0)| && Items(es, 0, 0)[j].at == SLOTS * m + at.index && Items(es, 0, 0)[j].run == at.run
    ensures forall k :: 0 <= k < SLOTS ==> at.dirent[k] == es[SLOTS * m + k]
  {
    hide Items, Tidy, DirSlots, Slots;
    ItemPlaced(es, j);
    SectorSlots(d, g.sectorsPerCluster, s, q, at.offset, SLOTS * m);
    EntriesOfSector(es, SLOTS * m, at.dirent);
  }

  lemma EntriesOfSector(es: seq<Entry>, from: nat, dirent: seq<Entry>)
    requires |dirent| == SLOTS && from + SLOTS <= |es| && es[from..from + SLOTS] == dirent
    ensures forall k :: 0 <= k < SLOTS ==> dirent[k] == es[from + k]
  {
    forall k | 0 <= k < SLOTS
      ensures dirent[k] == es[from + k]
    {
      assert es[from..from + SLOTS][k] == es[from + k];
    }
  }

  lemma MarkedErases(g: Geometry, d: seq<Sector>, s: seq<nat>, es: seq<Entry>, at: Place, q: nat, m: nat)
    requires InArea(|d|, g.sectorsPerCluster, s) && Distinct(s) && es == DirSlots(d, g.sectorsPerCluster, s)
    requires at.Place? && |at.dirent| == SLOTS && at.run <= at.index < SLOTS
    requires q < |s| && at.cluster == s[q] && at.cluster >= 2 && at.offset < g.sectorsPerCluster
    requires Base(g.sectorsPerCluster, at.cluster) + at.offset < |d| && SLOTS * m + SLOTS <= |es|
    requires m == Times(g.sectorsPerCluster, q) + at.offset
    requires forall k :: 0 <= k < SLOTS ==> at.dirent[k] == es[SLOTS * m + k]
    ensures Erased(es, DirSlots(Marked(g, d, at), g.sectorsPerCluster, s), SLOTS * m + at.index, at.run)
  {
    hide Pack, DirSlots, Delete, MarkDeleted, Erased, Times, Base;
    DirSlotsUpdate(d, g.sectorsPerCluster, s, q, at.offset, m, MarkDeleted(at.dirent, at.index, at.run));
    ErasedSlots(es, DirSlots(Marked(g, d, at), g.sectorsPerCluster, s), SLOTS * m, at.dirent, at.index, at.run);
  }

  /** A directory's entries `es` after item `j` was deleted: its entries begin with 0xE5, and no other
      byte of the directory has changed. */
  ghost predicate EntryErased(g: Geometry, d: seq<Sector>, chain: seq<nat>, es: seq<Entry>, j: nat) {
    && InArea(|d|, g.sectorsPerCluster, chain) && j < |Items(es, 0, 0)|
    && Erased(es, DirSlots(d, g.sectorsPerCluster, chain), Items(es, 0, 0)[j].at, Items(es, 0, 0)[j].run)
  }

  lemma EntryErasedNow(g: Geometry, d: seq<Sector>, chain: seq<nat>, es: seq<Entry>, j: nat, a: nat, run: nat)
    requires InArea(|d|, g.sectorsPerCluster, chain) && j < |Items(es, 0, 0)|
    requires Items(es, 0, 0)[j].at == a && Items(es, 0, 0)[j].run == run
    requires Erased(es, DirSlots(d, g.sectorsPerCluster, chain), a, run)
    ensures EntryErased(g, d, chain, es, j)
  {
  }

  lemma ErasedSlots(es: seq<Entry>, es': seq<Entry>, from: nat, dirent: seq<Entry>, i: nat, run: nat)
    requires |dirent| == SLOTS && run <= i < SLOTS && from + SLOTS <= |es| == |es'|
    requires forall k :: 0 <= k < SLOTS ==> dirent[k] == es[from + k]
    requires forall k :: 0 <= k < |es| ==>
      es'[k] == if from <= k < from + SLOTS then MarkDeleted(dirent, i, run)[k - from] else es[k]
    ensures Erased(es, es', from + i, run)
  {
    forall k | 0 <= k < |es|
      ensures es'[k] == if from + i - run <= k <= from + i then Delete(es[k]) else es[k]
    {
      if from <= k < from + SLOTS {
        assert dirent[k - from] == es[from + (k - from)];
      }
    }
  }

  lemma RemovalSame(g: Geometry, f: seq<nat>, d: seq<Sector>, at: Place, rs: set<nat>, cs: set<nat>)
    requires at.Place? && |at.dirent| == SLOTS && at.run <= at.index < SLOTS
    requires at.cluster >= 2 && Base(g.sectorsPerCluster, at.cluster) + g.sectorsPerCluster <= |d|
    requires at.offset < g.sectorsPerCluster
    requires at.cluster !in cs && rs !! cs
    ensures SameAt(g.sectorsPerCluster, f, d, Released(f, rs), Marked(g, d, at), cs)
  {
    var spc := g.sectorsPerCluster;
    SectorSame(spc, f, d, at.cluster, at.offset, Pack(MarkDeleted(at.dirent, at.index, at.run)), cs);
    ReleasedSame(spc, f, Marked(g, d, at), rs, cs);
  }

  lemma KidOwns(g: Geometry, f: seq<nat>, d: seq<Sector>, free: nat, t: Node, path: seq<Name>, t0: Node, j: nat)
    requires VolumeOk(g, f, d, free, t) && At(t, path) == Some(t0) && t0.Dir? && j < |t0.kids|
    ensures var cs := Clusters(t0.kids[j].node);
      && cs !! Free(f) && (forall c :: c in cs ==> 2 <= c < |f|) && cs !! Elems(t0.chain) && cs <= Clusters(t)
  {
    OwnedNotFree(g, f, d, t, 0);
    AtStored(g, f, d, t, 0, path);
    KidClustersIn(t0, j);
    hide Stored, Clusters;
  }

  lemma ReleasedKeeps(f: seq<nat>, s: seq<nat>, rs: set<nat>)
    requires Chain(f, s) && rs !! Elems(s)
    ensures Chain(Released(f, rs), s)
  {
    forall c | c in s
      ensures Released(f, rs)[c] == f[c]
    {
      assert c in Elems(s);
    }
    ChainFrame(f, Released(f, rs), s);
  }

  /** Releasing clusters below kid `j` and marking its entries leaves the rest of the volume alone. */
  lemma RemovalAround(g: Geometry, f: seq<nat>, d: seq<Sector>, free: nat, t: Node, path: seq<Name>, t0: Node,
                      at: Place, j: nat, rs: set<nat>)
    requires VolumeOk(g, f, d, free, t) && At(t, path) == Some(t0) && t0.Dir? && j < |t0.kids|
    requires at.Place? && |at.dirent| == SLOTS && at.run <= at.index < SLOTS && at.cluster in t0.chain
    requires at.cluster >= 2 && Base(g.sectorsPerCluster, at.cluster) + g.sectorsPerCluster <= |d|
    requires at.offset < g.sectorsPerCluster
    requires rs <= Clusters(t0.kids[j].node)
    ensures AroundKid(g, f, d, Released(f, rs), Marked(g, d, at), free + |rs|, t, t0, j)
  {
    VolumeBasics(g, f, d, free, t, path, t0);
    KidOwns(g, f, d, free, t, path, t0, j);
    hide VolumeOk, Stored, Listed, Proper, Clusters, KidClusters, Chain, Free, Marked, SameAt, At;
    ReleasedFree(f, rs);
    ReleasedKeeps(f, t0.chain, rs);
    assert at.cluster in Elems(t0.chain);
    RemovalSame(g, f, d, at, rs, Clusters(t) - Elems(t0.chain) - Clusters(t0.kids[j].node));
    MarkedSize(g, d, at);
  }

  lemma MarkedSize(g: Geometry, d: seq<Sector>, at: Place)
    requires at.Place? && |at.dirent| == SLOTS && at.run <= at.index < SLOTS
    requires at.cluster >= 2 && Base(g.sectorsPerCluster, at.cluster) + at.offset < |d|
    ensures |Marked(g, d, at)| == |d|
  {
  }

  /** A directory loses kid `j`; `rs` are the clusters released with it. */
  lemma KidDeleted(g: Geometry, f: seq<nat>, d: seq<Sector>, free: nat, t: Node, path: seq<Name>, t0: Node,
                   es: seq<Entry>, at: Place, q: nat, m: nat, j: nat, name: Name, rs: set<nat>)
    requires VolumeOk(g, f, d, free, t) && At(t, path) == Some(t0) && t0.Dir? && j < |t0.kids|
    requires InArea(|d|, g.sectorsPerCluster, t0.chain) && es == DirSlots(d, g.sectorsPerCluster, t0.chain)
    requires PlaceOk(g.sectorsPerCluster, d, t0.chain, es, at, q, m, j, name, false)
    requires rs <= Clusters(t0.kids[j].node)
    ensures at.Place? && |at.dirent| == SLOTS && at.run <= at.index < SLOTS
    ensures at.cluster >= 2 && Base(g.sectorsPerCluster, at.cluster) + at.offset < |d|
    ensures VolumeOk(g, Released(f, rs), Marked(g, d, at), free + |rs|, Put(t, path, Dir(t0.chain, Remove(t0.kids, j))))
  {
    hide *;
    VolumeBasics(g, f, d, free, t, path, t0);
    ListedTidy(g, es, t0.chain[0], t0.kids, UpAt(t, path, 0));
    PlaceParts(g, d, t0.chain, es, at, q, m, j, name, false);
    MarkedSize(g, d, at);
    MarkedErases(g, d, t0.chain, es, at, q, m);
    InAreaAt(|d|, g.sectorsPerCluster, t0.chain, q);
    RemovalAround(g, f, d, free, t, path, t0, at, j, rs);
    KidRemoved(g, f, d, free, t, path, t0, Released(f, rs), Marked(g, d, at), free + |rs|, j, es,
               DirSlots(Marked(g, d, at), g.sectorsPerCluster, t0.chain));
  }

  lemma ListedTidy(g: Geometry, es: seq<Entry>, first: nat, kids: seq<Kid>, up: nat)
    requires Listed(g, es, first, kids, up)
    ensures Tidy(es, 0, 0) && |Items(es, 0, 0)| == |kids|
  {
  }

  lemma InAreaAt(n: nat, spc: nat, s: seq<nat>, q: nat)
    requires InArea(n, spc, s) && q < |s|
    ensures s[q] >= 2 && Base(spc, s[q]) + spc <= n && s[q] in s
  {
  }

  // ---- releasing a chain ----

  /** `s` is the chain that an entry with first cluster `first` owns. */
  ghost predicate OwnsChain(f: seq<nat>, first: nat, s: seq<nat>) {
    && |f| > 0 && |f| <= END_OF_CHAIN && f[0] >= END_OF_CHAIN
    && if s == [] then first == 0 else Chain(f, s) && s[0] == first
  }

  lemma EmptyChainWalk(f: seq<nat>)
    requires OwnsChain(f, 0, [])
    ensures Walk(f, [0])
  {
  }

  lemma EmptyElems(f: seq<nat>)
    ensures Elems([]) == {} && Released(f, {}) == f
  {
  }

  /** fat.c:483-484, 681-682, 759-760: measure the chain and remove all of it. */
  method FreeChain(p: Partition, first: nat, ghost s: seq<nat>)
    requires p.Sound() && OwnsChain(p.Fat(), first, s) && p.freeClusterCount + |s| < 0xFFFF_FFFF
    modifies p`freeClusterCount, p.hd.sectors
    ensures p.Sound() && p.Data() == old(p.Data()) && (old(p.InfoSynced()) ==> p.InfoSynced())
    ensures p.Fat() == Released(old(p.Fat()), Elems(s))
    ensures p.freeClusterCount == old(p.freeClusterCount) + |s|
  {
    if s == [] {
      EmptyChainWalk(p.Fat());
      EmptyElems(p.Fat());
    } else {
      ReleasedChain(p.Fat(), s);
    }
    ChainStartsAt(p.Fat(), first, s);
    hide Partition.Fat, Partition.Data, Released, Mountable, Walk;
    var chainSize := ClusterChainLen(p, first, if s == [] then [0] else s);
    RemoveClustersFromChain(p, first, chainSize, -(chainSize as int), s);
  }

  lemma ChainStartsAt(f: seq<nat>, first: nat, s: seq<nat>)
    requires OwnsChain(f, first, s)
    ensures first < END_OF_CHAIN && (first == 0 <==> s == [])
  {
  }

  lemma StoredOwns(g: Geometry, f: seq<nat>, d: seq<Sector>, x: Node, up: nat)
    requires Stored(g, f, d, x, up) && 0 < |f| <= END_OF_CHAIN && f[0] >= END_OF_CHAIN
    ensures OwnsChain(f, FirstOf(x), x.chain) && FirstOf(x) < |f| && (x.Dir? ==> x.chain != [])
    ensures Distinct(x.chain) && forall i :: 0 <= i < |x.chain| ==> x.chain[i] < |f|
  {
    hide Listed, Contents;
    if x.chain != [] {
      WalkDistinct(f, x.chain);
    }
  }

  /** The kid's entry gives the first cluster of its chain. */
  lemma KidChain(g: Geometry, f: seq<nat>, d: seq<Sector>, free: nat, t: Node, path: seq<Name>, t0: Node, j: nat)
    requires VolumeOk(g, f, d, free, t) && At(t, path) == Some(t0) && t0.Dir? && j < |t0.kids| && |f| <= END_OF_CHAIN
    ensures OwnsChain(f, FirstOf(t0.kids[j].node), t0.kids[j].node.chain) && Distinct(t0.kids[j].node.chain)
    ensures FirstOf(t0.kids[j].node) < |f|
    ensures Elems(t0.kids[j].node.chain) <= Clusters(t0.kids[j].node)
    ensures |Elems(t0.kids[j].node.chain)| == |t0.kids[j].node.chain|
    ensures |t0.kids[j].node.chain| <= |f|
  {
    hide Listed, Contents;
    AtStored(g, f, d, t, 0, path);
    var kid := t0.kids[j].node;
    assert Stored(g, f, d, kid, t0.chain[0]);
    StoredOwns(g, f, d, kid, t0.chain[0]);
    ElemsSize(kid.chain);
    ChainShort(f, kid.chain);
  }

  lemma ChainShort(f: seq<nat>, s: seq<nat>)
    requires Distinct(s) && forall i :: 0 <= i < |s| ==> s[i] < |f|
    ensures |s| <= |f|
  {
    ElemsSize(s);
    ElemsBelow(s, |f|);
  }

  lemma {:induction false} ElemsBelow(s: seq<nat>, n: nat)
    requires forall c :: c in Elems(s) ==> c < n
    ensures |Elems(s)| <= n
    decreases n
  {
    if n == 0 {
      assert Elems(s) == {};
    } else {
      SetBelow(Elems(s), n);
    }
  }

  lemma {:induction false} SetBelow(cs: set<nat>, n: nat)
    requires forall c :: c in cs ==> c < n
    ensures |cs| <= n
    decreases n
  {
    if n == 0 {
      assert cs == {};
    } else {
      SetBelow(cs - {n - 1}, n - 1);
      assert n - 1 in cs ==> |cs - {n - 1}| == |cs| - 1;
    }
  }

  lemma FirstIs(g: Geometry, e: Entry)
    requires g.Faithful() && First(e) < g.Limit()
    ensures FirstShifted(e, g.written) == First(e)
  {
    FirstShiftedIff(e);
  }

  /** What a lookup that found something leads to: a kid and the entry that describes it. */
  lemma FoundKid(g: Geometry, f: seq<nat>, d: seq<Sector>, free: nat, t: Node, path: seq<Name>, t0: Node,
                 es: seq<Entry>, at: Place, q: nat, m: nat, j: nat, name: Name)
    requires VolumeOk(g, f, d, free, t) && At(t, path) == Some(t0) && t0.Dir? && |f| == g.Limit() && g.Faithful()
    requires InArea(|d|, g.sectorsPerCluster, t0.chain) && es == DirSlots(d, g.sectorsPerCluster, t0.chain)
    requires PlaceOk(g.sectorsPerCluster, d, t0.chain, es, at, q, m, j, name, false)
    ensures at.Place? && |at.dirent| == SLOTS && at.run <= at.index < SLOTS
    ensures at.cluster >= 2 && Base(g.sectorsPerCluster, at.cluster) + at.offset < |d|
    ensures j < |t0.kids| && t0.kids[j].name == Some(name)
    ensures First(at.dirent[at.index]) == FirstShifted(at.dirent[at.index], g.written) == FirstOf(t0.kids[j].node)
    ensures Size(at.dirent[at.index]) == if t0.kids[j].node.File? then |t0.kids[j].node.bytes| else 0
    ensures IsDir(at.dirent[at.index]) <==> t0.kids[j].node.Dir?
  {
    hide Items, Listed, VolumeOk, PlaceOk, DirSlots, Geometry.Faithful, Geometry.Limit, First, FirstShifted, FirstOf;
    VolumeBasics(g, f, d, free, t, path, t0);
    ListedTidy(g, es, t0.chain[0], t0.kids, UpAt(t, path, 0));
    PlaceParts(g, d, t0.chain, es, at, q, m, j, name, false);
    FoundMeans(g, es, t0.chain[0], t0.kids, UpAt(t, path, 0), name, false, j);
    FirstBelow(g, f, d, free, t, path, t0, j);
    FirstIs(g, at.dirent[at.index]);
  }

  lemma FirstBelow(g: Geometry, f: seq<nat>, d: seq<Sector>, free: nat, t: Node, path: seq<Name>, t0: Node, j: nat)
    requires VolumeOk(g, f, d, free, t) && At(t, path) == Some(t0) && t0.Dir? && j < |t0.kids|
    ensures FirstOf(t0.kids[j].node) < |f|
  {
    hide Listed, Contents;
    AtStored(g, f, d, t, 0, path);
    assert Stored(g, f, d, t0.kids[j].node, t0.chain[0]);
  }

  /** Marking an entry run deleted on the disk (fat.c:487-490, 747-750). */
  method StoreMarks(p: Partition, at: Place)
    requires p.Sound() && at.Place? && |at.dirent| == SLOTS && at.run <= at.index < SLOTS
    requires at.cluster >= 2 && Base(p.g.sectorsPerCluster, at.cluster) + at.offset < |p.Data()|
    modifies p.hd.sectors
    ensures p.Sound() && p.Fat() == old(p.Fat()) && p.Info() == old(p.Info())
    ensures p.Data() == Marked(p.g, old(p.Data()), at)
  {
    var dirent := MarkEntries(at.dirent, at.index, at.run);
    PaddedFull(Pack(dirent));
    p.WriteData(Base(p.g.sectorsPerCluster, at.cluster) + at.offset, Pack(dirent));
  }

  /** Wherever the name is found, the first name behind its cluster fits behind it in the buffers. */
  ghost predicate NamesFit(g: Geometry, es: seq<Entry>, name: Name) {
    g.sectorsPerCluster > 0 &&
    forall j: nat :: FirstWanted(es, j, name, false) ==>
      FitsBehind(es, Behind(g.sectorsPerCluster, Items(es, 0, 0)[j].at), Items(es, 0, 0)[j].run)
  }

  /** Behind the cluster in which the name is found, another entry is taken for it. */
  ghost predicate DeletesMore(g: Geometry, es: seq<Entry>, name: Name) {
    g.sectorsPerCluster > 0 &&
    exists j: nat :: FirstWanted(es, j, name, false) && Mistaken(es, Behind(g.sectorsPerCluster, Items(es, 0, 0)[j].at))
  }

  /** A directory in which that happens: a file with a long name, and an entry without one at the
      beginning of the next cluster. */
  lemma DeletesMoreExample(g: Geometry, long: Entry, short: Entry, name: Name)
    requires g.sectorsPerCluster == 1 && Live(long) && IsLong(long) && LongName([long]) == name
    requires Live(short) && !IsLong(short) && !IsDot(short)
    ensures DeletesMore(g, [long, short] + seq(14, i => Delete(short)) + [short] + seq(15, i => Delete(short)), name)
  {
    hide IsLong, IsDot, LongName;
    var es := [long, short] + seq(14, i => Delete(short)) + [short] + seq(15, i => Delete(short));
    assert es[0] == long && es[1] == short && es[16] == short && es[0..1] == [long];
    ItemsStep(es, 0, 0);
    ItemsStep(es, 1, 1);
    hide Items;
    assert Items(es, 0, 0)[0] == Item(Some(name), 1, 1);
    assert FirstWanted(es, 0, name, false);
    assert Behind(1, 1) == 16;
    assert FirstUsed(es, 16) == 16;
  }

  /** fat.c:435-497. The entry goes, and its own chain is released; nothing else changes, unless the
      loop, which does not stop there, takes an entry of a later cluster for the file `again`. What it
      does then is not part of this model. */
  method DeleteFileByDirCluster(p: Partition, dirCluster: nat, fileName: Name,
                                ghost t: Node, ghost path: seq<Name>, ghost t0: Node, ghost es: seq<Entry>)
    returns (found: bool, again: bool, ghost t': Node, ghost j: nat)
    requires Holds(p, t) && At(t, path) == Some(t0) && FirstOf(t0) == dirCluster && HasEntries(p, t0, es)
    requires 0 !in fileName
    requires NamesFit(p.g, es, fileName)
    modifies p`freeClusterCount, p.hd.sectors
    ensures found <==> HasName(t0.kids, fileName)
    ensures again <==> DeletesMore(p.g, es, fileName)
    ensures !found ==> !again && t' == t && p.Disk() == old(p.Disk()) && p.freeClusterCount == old(p.freeClusterCount)
    ensures p.Mounted() && (!again ==> Holds(p, t'))
    ensures found ==> j < |t0.kids| && t0.kids[j].name == Some(fileName)
    ensures found ==> EntryErased(p.g, p.Data(), t0.chain, es, j)
    ensures found && !again ==>
      && t' == Put(t, path, Dir(t0.chain, Remove(t0.kids, j)))
      && p.Fat() == Released(old(p.Fat()), Elems(t0.kids[j].node.chain))
      && p.freeClusterCount == old(p.freeClusterCount) + |t0.kids[j].node.chain|
  {
    hide *;
    HoldsParts(p, t);
    DirReadable(p, t, path);
    EntriesReadable(p, t0, es);
    ghost var f, d, free, up := p.Fat(), p.Data(), p.freeClusterCount, UpAt(t, path, 0);
    VolumeBasics(p.g, f, d, free, t, path, t0);
    AbsentMeans(p.g, es, t0.chain[0], t0.kids, up, fileName, false);
    var at;
    ghost var q, m;
    at, q, m, j := Locate(p, dirCluster, fileName, false, t0.chain, es);
    if at.Nowhere? {
      AbsentDeletesNone(p.g, es, fileName);
      return false, false, t, 0;
    }
    MountedParts(p);
    FoundKid(p.g, f, d, free, t, path, t0, es, at, q, m, j, fileName);
    NameFound(t0.kids, j, fileName);
    KidChain(p.g, f, d, free, t, path, t0, j);
    KidDeleted(p.g, f, d, free, t, path, t0, es, at, q, m, j, fileName, Elems(t0.kids[j].node.chain));
    ListedTidy(p.g, es, t0.chain[0], t0.kids, up);
    PlaceParts(p.g, d, t0.chain, es, at, q, m, j, fileName, false);
    MarkedErases(p.g, d, t0.chain, es, at, q, m);
    var first := FirstShifted(at.dirent[at.index], p.g.written);
    FreeChain(p, first, t0.kids[j].node.chain);
    label Freed:
    StoreMarks(p, at);
    SyncKept@Freed(p);
    found := true;
    t' := Put(t, path, Dir(t0.chain, Remove(t0.kids, j)));
    HoldsNow(p, t');
    HeldName(es, at, m, j, fileName);
    MarkedSize(p.g, d, at);
    EntryErasedNow(p.g, p.Data(), t0.chain, es, j, SLOTS * m + at.index, at.run);
    again := GoOn(p, at, fileName, t, t', path, t0, es, q, m, j);
  }

  /** The rest of the loop over the clusters, when the file was found in cluster `q` of the chain. */
  method GoOn(p: Partition, at: Place, fileName: Name, ghost t: Node, ghost t': Node, ghost path: seq<Name>,
              ghost t0: Node, ghost es: seq<Entry>, ghost q: nat, ghost m: nat, ghost j: nat)
    returns (again: bool)
    requires Holds(p, t') && p.Mounted() && At(t, path) == Some(t0) && t0.Dir? && j < |t0.kids| && Proper(t0)
    requires t' == Put(t, path, Dir(t0.chain, Remove(t0.kids, j))) && t0.kids[j].name == Some(fileName)
    requires 0 !in fileName
    requires at.Place? && |at.dirent| == SLOTS && at.run <= at.index < SLOTS && FirstWanted(es, j, fileName, false)
    requires q < |t0.chain| && at.cluster == t0.chain[q] && at.offset < p.g.sectorsPerCluster
    requires m == Times(p.g.sectorsPerCluster, q) + at.offset && NamesFit(p.g, es, fileName)
    requires Items(es, 0, 0)[j].at == SLOTS * m + at.index && Items(es, 0, 0)[j].run == at.run
    requires InArea(|p.Data()|, p.g.sectorsPerCluster, t0.chain)
    requires Erased(es, DirSlots(p.Data(), p.g.sectorsPerCluster, t0.chain), SLOTS * m + at.index, at.run)
    requires at.run > 0 && LongName(at.dirent[at.index - at.run..at.index]) == fileName
    ensures again <==> DeletesMore(p.g, es, fileName)
  {
    hide *;
    ghost var s, t1, es1 :=
      t0.chain, Dir(t0.chain, Remove(t0.kids, j)), DirSlots(p.Data(), p.g.sectorsPerCluster, t0.chain);
    PutHere(t, path, t1);
    HoldsParts(p, t');
    DirReadable(p, t', path);
    EntriesNow(p, t1, es1);
    VolumeBasics(p.g, p.Fat(), p.Data(), p.freeClusterCount, t', path, t1);
    AbsentMeans(p.g, es1, s[0], t1.kids, UpAt(t', path, 0), fileName, false);
    RemovedName(t0, j, fileName);
    NextInChain(p.Fat(), s, q);
    FitAndMore(p.g, es, es1, fileName, q, at.offset, m, at.index, at.run, j);
    MountedParts(p);
    var held := at.dirent[at.index - at.run..at.index];
    var next := p.ReadFatEntry(at.cluster);
    SomeHeld(at);
    again := ReadOn(p, next, fileName, held, s, es1, q + 1);
  }

  lemma SomeHeld(at: Place)
    requires at.Place? && |at.dirent| == SLOTS && 0 < at.run <= at.index < SLOTS
    ensures |at.dirent[at.index - at.run..at.index]| == at.run && at.dirent[at.index - at.run..at.index] != []
  {
  }

  lemma EntriesNow(p: Partition, n: Node, es: seq<Entry>)
    requires p.Mounted() && n.Dir? && InArea(|p.Data()|, p.g.sectorsPerCluster, n.chain)
    requires es == DirSlots(p.Data(), p.g.sectorsPerCluster, n.chain)
    ensures EntriesOf(p, n) == es
  {
  }

  lemma RemovedName(t0: Node, j: nat, name: Name)
    requires t0.Dir? && Proper(t0) && j < |t0.kids| && t0.kids[j].name == Some(name)
    ensures !HasName(Remove(t0.kids, j), name)
  {
    ProperUnique(t0);
    hide Proper;
    var ks := Remove(t0.kids, j);
    forall k | 0 <= k < |ks|
      ensures ks[k].name != Some(name)
    {
      assert ks[k] == if k < j then t0.kids[k] else t0.kids[k + 1];
    }
  }

  lemma ProperUnique(n: Node)
    requires n.Dir? && Proper(n)
    ensures UniqueNames(n.kids)
  {
  }

  lemma NextInChain(f: seq<nat>, s: seq<nat>, q: nat)
    requires Chain(f, s) && q < |s|
    ensures s[q] < |f| && Following(f, s, q + 1, f[s[q]])
  {
  }

  lemma FitAndMore(g: Geometry, es: seq<Entry>, es': seq<Entry>, name: Name, q: nat, offset: nat, m: nat, i: nat,
                   run: nat, j: nat)
    requires NamesFit(g, es, name) && FirstWanted(es, j, name, false) && offset < g.sectorsPerCluster && i < SLOTS
    requires m == Times(g.sectorsPerCluster, q) + offset && Erased(es, es', SLOTS * m + i, run)
    requires Items(es, 0, 0)[j].at == SLOTS * m + i && Items(es, 0, 0)[j].run == run
    ensures FitsBehind(es', SLOTS * Times(g.sectorsPerCluster, q + 1), run)
    ensures DeletesMore(g, es, name) <==> Mistaken(es', SLOTS * Times(g.sectorsPerCluster, q + 1))
  {
    hide Items, Erased, Mistaken, FitsBehind, Behind, Times, Wanted;
    BehindIs(g.sectorsPerCluster, q, offset, m, i);
    MarkedBehind(es, es', SLOTS * m + i, run, SLOTS * Times(g.sectorsPerCluster, q + 1), run);
    if DeletesMore(g, es, name) {
      var k: nat :| FirstWanted(es, k, name, false) && Mistaken(es, Behind(g.sectorsPerCluster, Items(es, 0, 0)[k].at));
      FirstIsOne(es, name, j, k);
    }
  }

  lemma FirstIsOne(es: seq<Entry>, name: Name, j: nat, k: nat)
    requires FirstWanted(es, j, name, false) && FirstWanted(es, k, name, false)
    ensures j == k
  {
    hide Items, Wanted;
  }

  lemma AbsentDeletesNone(g: Geometry, es: seq<Entry>, name: Name)
    requires Absent(es, name, false)
    ensures !DeletesMore(g, es, name)
  {
    hide Items, Wanted, Mistaken;
  }

  /** The entries that spelled the name are those of the item that was found. */
  lemma HeldName(es: seq<Entry>, at: Place, m: nat, j: nat, name: Name)
    requires at.Place? && |at.dirent| == SLOTS && at.run <= at.index < SLOTS && SLOTS * m + SLOTS <= |es|
    requires forall k :: 0 <= k < SLOTS ==> at.dirent[k] == es[SLOTS * m + k]
    requires FirstWanted(es, j, name, false) && Tidy(es, 0, 0)
    requires Items(es, 0, 0)[j].at == SLOTS * m + at.index && Items(es, 0, 0)[j].run == at.run
    ensures at.run > 0 && LongName(at.dirent[at.index - at.run..at.index]) == name
  {
    hide Items, LongName, Tidy, FirstWanted;
    WantedName(es, j, name);
    HeldAt(es, at.dirent, SLOTS * m, at.index, at.run, j, name);
  }

  lemma HeldAt(es: seq<Entry>, dirent: seq<Entry>, from: nat, i: nat, run: nat, j: nat, name: Name)
    requires |dirent| == SLOTS && run <= i < SLOTS && from + SLOTS <= |es| && FirstWanted(es, j, name, false)
    requires forall k :: 0 <= k < SLOTS ==> dirent[k] == es[from + k]
    requires j < |Items(es, 0, 0)| && Items(es, 0, 0)[j].at == from + i && Items(es, 0, 0)[j].run == run
    ensures run > 0 && LongName(dirent[i - run..i]) == name
  {
    hide *;
    ItemNamed(es, j, name);
    SliceOfSector(es, dirent, from, i, run);
  }

  lemma WantedName(es: seq<Entry>, j: nat, name: Name)
    requires FirstWanted(es, j, name, false)
    ensures j < |Items(es, 0, 0)| && Items(es, 0, 0)[j].name == Some(name)
  {
    hide Items;
  }

  lemma SliceOfSector(es: seq<Entry>, dirent: seq<Entry>, from: nat, i: nat, run: nat)
    requires |dirent| == SLOTS && run <= i < SLOTS && from + SLOTS <= |es|
    requires forall k :: 0 <= k < SLOTS ==> dirent[k] == es[from + k]
    ensures dirent[i - run..i] == es[from + i - run..from + i]
  {
    var a, b := dirent[i - run..i], es[from + i - run..from + i];
    assert forall k :: 0 <= k < run ==> a[k] == dirent[i - run + k] && b[k] == es[from + (i - run + k)];
    assert a == b;
  }

  /** An item's name is spelled by the long-name entries before its short one. */
  ghost predicate Named(es: seq<Entry>, x: Item) {
    x.run <= x.at < |es| && x.name == NameOf(es[x.at - x.run..x.at])
  }

  lemma {:induction false} NamedItem(es: seq<Entry>, i: nat, run: nat, j: nat)
    requires run <= i <= |es| && j < |Items(es, i, run)|
    ensures Named(es, Items(es, i, run)[j])
    decreases |es| - i
  {
    hide NameOf, Items, Named, IsLong, IsDot;
    NotAtEnd(es, i, run, j);
    ItemsStep(es, i, run);
    if Live(es[i]) && IsLong(es[i]) {
      NamedItem(es, i + 1, run + 1, j);
    } else if es[i][0] == DELETED || IsDot(es[i]) {
      NamedItem(es, i + 1, 0, j);
    } else if j > 0 {
      NamedItem(es, i + 1, 0, j - 1);
    } else {
      NamedNow(es, i, run);
    }
  }

  lemma NamedNow(es: seq<Entry>, i: nat, run: nat)
    requires run <= i < |es|
    ensures Named(es, Item(NameOf(es[i - run..i]), i, run))
  {
  }

  lemma ItemNamed(es: seq<Entry>, j: nat, name: Name)
    requires FirstWanted(es, j, name, false)
    ensures var x := Items(es, 0, 0)[j]; 0 < x.run <= x.at < |es| && LongName(es[x.at - x.run..x.at]) == name
  {
    hide *;
    WantedName(es, j, name);
    NamedItem(es, 0, 0, j);
    NamedParts(es, Items(es, 0, 0)[j], name);
  }

  lemma NamedParts(es: seq<Entry>, x: Item, name: Name)
    requires Named(es, x) && x.name == Some(name)
    ensures 0 < x.run <= x.at < |es| && LongName(es[x.at - x.run..x.at]) == name
  {
    hide LongName;
  }

  lemma NameFound(kids: seq<Kid>, j: nat, name: Name)
    requires j < |kids| && kids[j].name == Some(name)
    ensures HasName(kids, name)
  {
  }

  lemma MountedParts(p: Partition)
    requires p.Mounted()
    ensures p.g.Faithful() && |p.Fat()| == p.g.Limit() <= END_OF_CHAIN < 0x1000_0000 && p.g.sectorsPerCluster > 0
  {
  }

  // ---- clearing a directory ----

  /** The clusters of the first `j` kids and of everything below them. */
  ghost function KidsBefore(n: Node, j: nat): set<nat>
    requires n.Dir? && j <= |n.kids|
  {
    set k, c | 0 <= k < j && c in Clusters(n.kids[k].node) :: c
  }

  lemma NextKid(n: Node, j: nat)
    requires n.Dir? && j < |n.kids| && Proper(n)
    ensures KidsBefore(n, j + 1) == KidsBefore(n, j) + Clusters(n.kids[j].node)
    ensures KidsBefore(n, j) !! Clusters(n.kids[j].node)
    ensures Proper(n.kids[j].node)
  {
    hide Clusters;
  }

  lemma AllKids(n: Node)
    requires n.Dir?
    ensures KidsBefore(n, 0) == {} && KidsBefore(n, |n.kids|) == KidClusters(n)
  {
    hide Clusters;
  }

  lemma KidsBeforeApart(n: Node, j: nat)
    requires n.Dir? && j <= |n.kids| && Proper(n)
    ensures KidsBefore(n, j) !! Elems(n.chain)
  {
    hide Clusters;
  }

  /** The directory `n` lay in the table `f0`; its first `j` kids are gone from the table, and
      nothing else has changed. */
  ghost predicate Clearing(p: Partition, n: Node, f0: seq<nat>, d: seq<Sector>, up: nat, j: nat)
    reads p, p.hd.sectors
  {
    && p.Sound() && p.InfoSynced() && p.freeClusterCount == |Free(p.Fat())| && p.Data() == d
    && n.Dir? && j <= |n.kids| && Stored(p.g, f0, d, n, up) && Proper(n) && f0[0] >= END_OF_CHAIN
    && p.Fat() == Released(f0, KidsBefore(n, j))
  }

  ghost predicate HasSlots(p: Partition, n: Node, d: seq<Sector>, es: seq<Entry>) {
    InArea(|d|, p.g.sectorsPerCluster, n.chain) && es == DirSlots(d, p.g.sectorsPerCluster, n.chain)
  }

  lemma ClearingListed(p: Partition, n: Node, f0: seq<nat>, d: seq<Sector>, up: nat, j: nat, es: seq<Entry>)
    requires Clearing(p, n, f0, d, up, j) && HasSlots(p, n, d, es)
    ensures p.Mounted() && n.Dir? && n.chain != [] && Listed(p.g, es, n.chain[0], n.kids, up) && Chain(f0, n.chain)
    ensures Readable(p, n.chain, es)
  {
    hide Items, Tidy;
    KidsBeforeApart(n, j);
    ReleasedKeeps(f0, n.chain, KidsBefore(n, j));
  }

  lemma ClearingStep(p: Partition, n: Node, f0: seq<nat>, d: seq<Sector>, up: nat, j: nat, k: nat)
    requires Clearing(p, n, f0, d, up, j) && n.Dir? && k < |n.chain|
    ensures p.Mounted() && n.chain[k] < |p.Fat()| == |f0|
    ensures p.Fat()[n.chain[k]] == f0[n.chain[k]]
  {
    KidsBeforeApart(n, j);
    assert n.chain[k] in Elems(n.chain);
  }

  /** The kid whose turn it is. */
  lemma ClearingKid(p: Partition, n: Node, f0: seq<nat>, d: seq<Sector>, up: nat, j: nat)
    requires Clearing(p, n, f0, d, up, j) && n.Dir? && j < |n.kids|
    ensures p.Mounted() && |f0| == |p.Fat()| && 0 < |p.Fat()| <= END_OF_CHAIN && p.Fat()[0] >= END_OF_CHAIN
    ensures n.chain != [] && Stored(p.g, p.Fat(), d, n.kids[j].node, n.chain[0]) && Proper(n.kids[j].node)
    ensures p.freeClusterCount == |Free(p.Fat())|
  {
    ClearingParts(p, n, f0, d, up, j);
    NextKid(n, j);
    NoZeroKid(p.g, f0, d, n, up, j);
    hide Listed, Contents, Clearing, Proper, Free, Clusters, KidsBefore, Partition.Fat, Partition.Data, Partition.Sound;
    ReleasedSame(p.g.sectorsPerCluster, f0, d, KidsBefore(n, j), Clusters(n.kids[j].node));
    StoredFrame(p.g, f0, d, p.Fat(), d, n.kids[j].node, n.chain[0]);
  }

  lemma NoZeroKid(g: Geometry, f: seq<nat>, d: seq<Sector>, n: Node, up: nat, j: nat)
    requires Stored(g, f, d, n, up) && n.Dir? && j <= |n.kids|
    ensures 0 !in KidsBefore(n, j) && |f| > 0
  {
    OwnedNotFree(g, f, d, n, up);
    hide Listed, Contents;
    assert KidsBefore(n, j) <= KidClusters(n) <= Clusters(n);
  }

  lemma OwnedSize(f: seq<nat>, s: seq<nat>)
    requires Distinct(s) && Elems(s) !! Free(f) && forall c :: c in Elems(s) ==> 2 <= c < |f|
    ensures |Free(f)| + |s| <= |f| && |Free(Released(f, Elems(s)))| == |Free(f)| + |s|
  {
    ElemsSize(s);
    ReleasedFree(f, Elems(s));
    FreeBound(Released(f, Elems(s)));
  }

  /** What is released when the kid's own chain follows what lay below it. */
  lemma KidCleared(g: Geometry, f: seq<nat>, d: seq<Sector>, x: Node, up: nat)
    requires Stored(g, f, d, x, up) && Proper(x) && 0 < |f| <= END_OF_CHAIN && f[0] >= END_OF_CHAIN
    ensures var below := Released(f, KidClusters(x));
      && OwnsChain(below, FirstOf(x), x.chain) && Released(below, Elems(x.chain)) == Released(f, Clusters(x))
      && |Free(below)| + |x.chain| <= |f| && |Free(Released(below, Elems(x.chain)))| == |Free(below)| + |x.chain|
  {
    OwnedNotFree(g, f, d, x, up);
    StoredOwns(g, f, d, x, up);
    OwnApart(x);
    hide Stored, Proper, KidClusters, Clusters, Free;
    ReleasedOwned(f, KidClusters(x), FirstOf(x), x.chain);
    ReleasedMore(f, KidClusters(x), Elems(x.chain));
  }

  lemma ReleasedOwned(f: seq<nat>, cs: set<nat>, first: nat, s: seq<nat>)
    requires OwnsChain(f, first, s) && Distinct(s) && cs !! Elems(s) && cs + Elems(s) !! Free(f)
    requires forall c :: c in cs + Elems(s) ==> 2 <= c < |f|
    ensures OwnsChain(Released(f, cs), first, s)
    ensures |Free(Released(f, cs))| + |s| <= |f|
    ensures |Free(Released(Released(f, cs), Elems(s)))| == |Free(Released(f, cs))| + |s|
  {
    if s != [] {
      ReleasedKeeps(f, s, cs);
    }
    assert 0 !in cs;
    ReleasedFree(f, cs);
    hide Free, Chain;
    OwnedSize(Released(f, cs), s);
  }

  lemma OwnApart(x: Node)
    requires Proper(x)
    ensures KidClusters(x) !! Elems(x.chain) && Clusters(x) == KidClusters(x) + Elems(x.chain)
  {
  }

  lemma ReleasedNothing(f: seq<nat>, x: Node)
    requires x.File?
    ensures Released(f, KidClusters(x)) == f
  {
  }

  lemma ClearingGoesOn(p: Partition, n: Node, f0: seq<nat>, d: seq<Sector>, up: nat, j: nat, f: seq<nat>)
    requires n.Dir? && j < |n.kids| && Stored(p.g, f0, d, n, up) && Proper(n) && f0[0] >= END_OF_CHAIN
    requires p.Sound() && p.InfoSynced() && p.freeClusterCount == |Free(p.Fat())| && p.Data() == d
    requires f == Released(f0, KidsBefore(n, j)) && p.Fat() == Released(f, Clusters(n.kids[j].node))
    ensures Clearing(p, n, f0, d, up, j + 1)
  {
    NextKid(n, j);
    hide Clusters, Stored, Proper;
    ReleasedMore(f0, KidsBefore(n, j), Clusters(n.kids[j].node));
  }

  /** fat.c:672-684: one entry and what it stands for. */
  method ClearEntry(p: Partition, e: Entry, ghost n: Node, ghost f0: seq<nat>, ghost d: seq<Sector>, ghost up: nat,
                    ghost j: nat)
    requires Clearing(p, n, f0, d, up, j) && n.Dir? && j < |n.kids|
    requires First(e) == FirstOf(n.kids[j].node) && (IsDir(e) <==> n.kids[j].node.Dir?)
    modifies p`freeClusterCount, p.hd.sectors
    ensures Clearing(p, n, f0, d, up, j + 1)
    decreases n, 0
  {
    ghost var x := n.kids[j].node;
    ClearingParts(p, n, f0, d, up, j);
    ClearingKid(p, n, f0, d, up, j);
    ghost var f := p.Fat();
    KidCleared(p.g, f, d, x, n.chain[0]);
    hide *;
    var firstEntCluster := First(e);
    if IsDir(e) {
      ClearDirByCluster(p, firstEntCluster, x, n.chain[0]);
    } else {
      ReleasedNothing(f, x);
    }
    MountedParts(p);
    FreeChain(p, firstEntCluster, x.chain);
    ClearingGoesOn(p, n, f0, d, up, j, f);
  }

  lemma ClearingParts(p: Partition, n: Node, f0: seq<nat>, d: seq<Sector>, up: nat, j: nat)
    requires Clearing(p, n, f0, d, up, j)
    ensures n.Dir? && Stored(p.g, f0, d, n, up) && Proper(n) && |f0| > 0 && f0[0] >= END_OF_CHAIN
    ensures p.Sound() && p.Mounted() && p.InfoSynced() && p.freeClusterCount == |Free(p.Fat())| && p.Data() == d
    ensures j <= |n.kids| && p.Fat() == Released(f0, KidsBefore(n, j))
  {
  }

  /** What the entry at hand describes. */
  lemma EntryOfKid(g: Geometry, es: seq<Entry>, n: Node, up: nat, k: nat, run: nat, j: nat)
    requires n.Dir? && n.chain != [] && Listed(g, es, n.chain[0], n.kids, up)
    requires Reading(es, k, run, j) && k < |es| && Live(es[k]) && !IsLong(es[k]) && !IsDot(es[k])
    ensures j < |n.kids| && First(es[k]) == FirstOf(n.kids[j].node) && (IsDir(es[k]) <==> n.kids[j].node.Dir?)
    ensures Reading(es, k + 1, 0, j + 1)
  {
    hide Items, Tidy, Reading, NameOf, First, IsDir;
    ReadShort(es, k, run, j);
  }

  lemma KidsDone(g: Geometry, es: seq<Entry>, n: Node, up: nat, k: nat, run: nat, j: nat)
    requires n.Dir? && n.chain != [] && Listed(g, es, n.chain[0], n.kids, up)
    requires Reading(es, k, run, j) && (k == |es| || es[k][0] == 0)
    ensures j == |n.kids|
  {
    hide Items, Tidy, Reading;
    ReadEnd(es, k, run, j);
  }

  /** Clearing has come to entry `k`, with `run` long-name entries passed before it. */
  ghost predicate ClearedTo(p: Partition, n: Node, f0: seq<nat>, d: seq<Sector>, up: nat, es: seq<Entry>, k: nat,
                            run: nat, j: nat)
    reads p, p.hd.sectors
  {
    Clearing(p, n, f0, d, up, j) && HasSlots(p, n, d, es) && Reading(es, k, run, j)
  }

  /** The same while there are more entries; otherwise everything in the directory is gone. */
  ghost predicate Went(more: bool, p: Partition, n: Node, f0: seq<nat>, d: seq<Sector>, up: nat, es: seq<Entry>, k: nat,
                       run: nat, j: nat)
    reads p, p.hd.sectors
  {
    if more then ClearedTo(p, n, f0, d, up, es, k, run, j) else Clearing(p, n, f0, d, up, j) && n.Dir? && j == |n.kids|
  }

  lemma WentOn(p: Partition, n: Node, f0: seq<nat>, d: seq<Sector>, up: nat, es: seq<Entry>, k: nat, run: nat, j: nat)
    ensures Went(true, p, n, f0, d, up, es, k, run, j) <==> ClearedTo(p, n, f0, d, up, es, k, run, j)
  {
  }

  lemma WentClears(more: bool, p: Partition, n: Node, f0: seq<nat>, d: seq<Sector>, up: nat, es: seq<Entry>, k: nat,
                   run: nat, j: nat)
    requires Went(more, p, n, f0, d, up, es, k, run, j)
    ensures Clearing(p, n, f0, d, up, j) && (!more ==> n.Dir? && j == |n.kids|)
  {
  }

  /** One entry (fat.c:661-684). */
  method ClearNext(p: Partition, e: Entry, ghost n: Node, ghost f0: seq<nat>, ghost d: seq<Sector>, ghost up: nat,
                   ghost es: seq<Entry>, ghost k: nat, ghost run0: nat, ghost j0: nat)
    returns (moreEnt: bool, ghost run: nat, ghost j: nat)
    requires ClearedTo(p, n, f0, d, up, es, k, run0, j0) && k < |es| && es[k] == e
    modifies p`freeClusterCount, p.hd.sectors
    ensures Went(moreEnt, p, n, f0, d, up, es, k + 1, run, j)
    decreases n, 1
  {
    ClearingListed(p, n, f0, d, up, j0, es);
    hide Items, Tidy, Reading, Clearing, Listed, First, HasSlots, Readable, Chain, Partition.Sound, Partition.Fat;
    hide Partition.Data;
    moreEnt, run, j := true, 0, j0;
    if e[0] == 0 {
      KidsDone(p.g, es, n, up, k, run0, j);
      moreEnt := false;
    } else if e[0] == DELETED {
      ReadFree(es, k, run0, j);
    } else if IsLong(e) {
      ReadLong(es, k, run0, j);
      run := run0 + 1;
    } else if IsDot(e) {
      ReadDot(es, k, run0, j);
    } else {
      EntryOfKid(p.g, es, n, up, k, run0, j);
      ClearEntry(p, e, n, f0, d, up, j);
      j := j + 1;
    }
  }

  /** The loop over one sector's entries (fat.c:660-686). */
  method ClearSector(p: Partition, dirent: seq<Entry>, ghost n: Node, ghost f0: seq<nat>, ghost d: seq<Sector>,
                     ghost up: nat, ghost es: seq<Entry>, ghost from: nat, ghost j0: nat)
    returns (moreEnt: bool, ghost j: nat)
    requires ClearedTo(p, n, f0, d, up, es, from, 0, j0) && from % SLOTS == 0
    requires |dirent| == SLOTS && from + SLOTS <= |es| && es[from..from + SLOTS] == dirent
    modifies p`freeClusterCount, p.hd.sectors
    ensures Went(moreEnt, p, n, f0, d, up, es, from + SLOTS, 0, j)
    decreases n, 2
  {
    hide *;
    EntriesOfSector(es, from, dirent);
    ghost var run: nat := 0;
    var i: nat := 0;
    moreEnt, j := true, j0;
    WentOn(p, n, f0, d, up, es, from, run, j);
    while i < SLOTS && moreEnt
      invariant i <= SLOTS && Went(moreEnt, p, n, f0, d, up, es, from + i, run, j)
    {
      WentOn(p, n, f0, d, up, es, from + i, run, j);
      moreEnt, run, j := ClearNext(p, dirent[i], n, f0, d, up, es, from + i, run, j);
      i := i + 1;
    }
    SectorCleared(moreEnt, p, n, f0, d, up, es, from, i, run, j);
  }

  lemma SectorCleared(more: bool, p: Partition, n: Node, f0: seq<nat>, d: seq<Sector>, up: nat, es: seq<Entry>,
                      from: nat, i: nat, run: nat, j: nat)
    requires Went(more, p, n, f0, d, up, es, from + i, run, j) && from % SLOTS == 0 && (more ==> i == SLOTS)
    ensures Went(more, p, n, f0, d, up, es, from + SLOTS, 0, j)
  {
    hide Clearing, HasSlots, Reading;
    if more {
      ReadBoundary(es, from + i, run, j);
    }
  }

  lemma ReadingBeforeEnd(es: seq<Entry>, spc: nat, k: nat, j: nat)
    requires Reading(es, k, 0, j) && EndsEarly(es, spc)
    ensures k < SLOTS * spc
  {
  }

  /** Clearing has come to sector `m` of the directory. */
  ghost predicate Came(more: bool, p: Partition, n: Node, f0: seq<nat>, d: seq<Sector>, up: nat, es: seq<Entry>, m: nat,
                       j: nat)
    reads p, p.hd.sectors
  {
    Went(more, p, n, f0, d, up, es, SLOTS * m, 0, j)
  }

  lemma CameTo(more: bool, p: Partition, n: Node, f0: seq<nat>, d: seq<Sector>, up: nat, es: seq<Entry>, m: nat, j: nat)
    ensures Came(more, p, n, f0, d, up, es, m, j) <==> Went(more, p, n, f0, d, up, es, SLOTS * m, 0, j)
    ensures Came(true, p, n, f0, d, up, es, m, j) <==> ClearedTo(p, n, f0, d, up, es, SLOTS * m, 0, j)
  {
  }

  lemma CameAnywhere(p: Partition, n: Node, f0: seq<nat>, d: seq<Sector>, up: nat, es: seq<Entry>, m: nat, m': nat,
                     j: nat)
    requires Came(false, p, n, f0, d, up, es, m, j)
    ensures Came(false, p, n, f0, d, up, es, m', j)
  {
  }

  /** One round of the sector loop (fat.c:658-686). */
  method ClearSectorAt(p: Partition, cluster: nat, offset: nat, ghost n: Node, ghost f0: seq<nat>, ghost d: seq<Sector>,
                       ghost up: nat, ghost es: seq<Entry>, ghost q: nat, ghost m: nat, ghost j0: nat)
    returns (moreEnt: bool, ghost j: nat)
    requires Came(true, p, n, f0, d, up, es, m, j0) && q < |n.chain| && cluster == n.chain[q]
    requires offset < p.g.sectorsPerCluster && m == Times(p.g.sectorsPerCluster, q) + offset
    modifies p`freeClusterCount, p.hd.sectors
    ensures Came(moreEnt, p, n, f0, d, up, es, m + 1, j)
    ensures moreEnt && p.g.written ==> m + 1 < p.g.sectorsPerCluster
    decreases n, 3
  {
    hide *;
    SectorSpan(m);
    CameTo(true, p, n, f0, d, up, es, m, j0);
    ClearedSlots(p, n, f0, d, up, es, SLOTS * m, 0, j0);
    ClearingListed(p, n, f0, d, up, j0, es);
    ClearingParts(p, n, f0, d, up, j0);
    ReadableSector(p, n.chain, es, q, offset, m);
    var sector := p.ReadData(Base(p.g.sectorsPerCluster, cluster) + offset);
    SlotsOf(sector);
    moreEnt, j := ClearSector(p, Slots(sector), n, f0, d, up, es, SLOTS * m, j0);
    CameTo(moreEnt, p, n, f0, d, up, es, m + 1, j);
    if moreEnt && p.g.written {
      WentBeforeEnd(p, n, f0, d, up, es, m, j);
    }
  }

  lemma ClearedSlots(p: Partition, n: Node, f0: seq<nat>, d: seq<Sector>, up: nat, es: seq<Entry>, k: nat, run: nat,
                     j: nat)
    requires ClearedTo(p, n, f0, d, up, es, k, run, j)
    ensures Clearing(p, n, f0, d, up, j) && HasSlots(p, n, d, es)
  {
  }

  lemma SlotsOf(s: Sector)
    ensures |Slots(s)| == SLOTS
  {
  }

  lemma SectorSpan(m: nat)
    ensures SLOTS * m >= 0 && SLOTS * m + SLOTS == SLOTS * (m + 1) && SLOTS * m % SLOTS == 0
  {
  }

  lemma WentBeforeEnd(p: Partition, n: Node, f0: seq<nat>, d: seq<Sector>, up: nat, es: seq<Entry>, m: nat, j: nat)
    requires Went(true, p, n, f0, d, up, es, SLOTS * (m + 1), 0, j) && EndsEarly(es, p.g.sectorsPerCluster)
    ensures m + 1 < p.g.sectorsPerCluster
  {
    hide Clearing, HasSlots, Reading, EndsEarly;
    ReadingBeforeEnd(es, p.g.sectorsPerCluster, SLOTS * (m + 1), j);
  }

  /** The loop over one cluster's sectors (fat.c:656-687). */
  method ClearCluster(p: Partition, cluster: nat, ghost n: Node, ghost f0: seq<nat>, ghost d: seq<Sector>,
                      ghost up: nat, ghost es: seq<Entry>, ghost q: nat, ghost j0: nat)
    returns (moreEnt: bool, ghost j: nat)
    requires q < |n.chain| && cluster == n.chain[q] && p.g.sectorsPerCluster > 0
    requires p.g.written ==> q == 0
    requires Came(true, p, n, f0, d, up, es, Times(p.g.sectorsPerCluster, q), j0)
    modifies p`freeClusterCount, p.hd.sectors
    ensures Came(moreEnt, p, n, f0, d, up, es, Times(p.g.sectorsPerCluster, q + 1), j)
    ensures moreEnt ==> !p.g.written
    decreases n, 4
  {
    hide *;
    ghost var m := Times(p.g.sectorsPerCluster, q);
    TimesNext(p.g.sectorsPerCluster, q);
    var lap := p.g.Lap();
    LapIs(p.g);
    var offset := 0;
    moreEnt, j := true, j0;
    while offset < lap && moreEnt
      invariant m == Times(p.g.sectorsPerCluster, q) + offset && Came(moreEnt, p, n, f0, d, up, es, m, j)
      invariant moreEnt && p.g.written ==> offset < p.g.sectorsPerCluster
      invariant moreEnt && !p.g.written ==> offset <= p.g.sectorsPerCluster
    {
      moreEnt, j := ClearSectorAt(p, cluster, offset, n, f0, d, up, es, q, m, j);
      offset := offset + 1;
      m := m + 1;
    }
    if !moreEnt {
      CameAnywhere(p, n, f0, d, up, es, m, Times(p.g.sectorsPerCluster, q + 1), j);
    }
  }

  lemma TimesNext(n: nat, k: nat)
    ensures Times(n, k + 1) == Times(n, k) + n && Times(n, 0) == 0
  {
  }

  lemma LapIs(g: Geometry)
    ensures g.Lap() == if g.written then g.sectorsPerCluster + 1 else g.sectorsPerCluster
  {
  }

  /** fat.c:650-688. It ends on every directory, releases exactly the clusters of everything in it
      and below it, and changes nothing else. */
  method ClearDirByCluster(p: Partition, dirCluster: nat, ghost n: Node, ghost up: nat)
    requires p.Sound() && p.InfoSynced() && p.freeClusterCount == |Free(p.Fat())|
    requires n.Dir? && FirstOf(n) == dirCluster && p.Fat()[0] >= END_OF_CHAIN
    requires Stored(p.g, p.Fat(), p.Data(), n, up) && Proper(n)
    modifies p`freeClusterCount, p.hd.sectors
    ensures p.Sound() && p.InfoSynced() && p.Data() == old(p.Data())
    ensures p.Fat() == Released(old(p.Fat()), KidClusters(n))
    ensures p.freeClusterCount == |Free(p.Fat())|
    decreases n, 6
  {
    ghost var f0, d := p.Fat(), p.Data();
    ghost var es := ClearingBegins(p, n, up);
    hide *;
    var next: nat := dirCluster;
    var moreEnt := true;
    ghost var k, j := 0, 0;
    while moreEnt && next < END_OF_CHAIN
      invariant moreEnt ==> ClearsCluster(p, n, f0, d, up, es, k, next, j)
      invariant !moreEnt ==> Clearing(p, n, f0, d, up, j) && j == |n.kids|
      decreases |n.chain| - k + if moreEnt then 1 else 0
    {
      moreEnt, next, j := ClearOne(p, next, n, f0, d, up, es, k, j);
      k := k + 1;
    }
    if moreEnt {
      AllCleared(p, n, f0, d, up, es, k, next, j);
    }
    AllKids(n);
    ClearingParts(p, n, f0, d, up, j);
  }

  /** The walk through the directory's chain has come to its cluster `k`. */
  ghost predicate ClearsCluster(p: Partition, n: Node, f0: seq<nat>, d: seq<Sector>, up: nat, es: seq<Entry>, k: nat,
                                next: nat, j: nat)
    reads p, p.hd.sectors
  {
    && Following(f0, n.chain, k, next) && (p.g.written ==> k == 0) && p.g.sectorsPerCluster > 0
    && Came(true, p, n, f0, d, up, es, Times(p.g.sectorsPerCluster, k), j)
  }

  /** One round of the outer loop (fat.c:654-687). */
  method ClearOne(p: Partition, cluster: nat, ghost n: Node, ghost f0: seq<nat>, ghost d: seq<Sector>, ghost up: nat,
                  ghost es: seq<Entry>, ghost k: nat, ghost j0: nat)
    returns (moreEnt: bool, next: nat, ghost j: nat)
    requires ClearsCluster(p, n, f0, d, up, es, k, cluster, j0) && cluster < END_OF_CHAIN
    modifies p`freeClusterCount, p.hd.sectors
    ensures k < |n.chain|
    ensures moreEnt ==> ClearsCluster(p, n, f0, d, up, es, k + 1, next, j)
    ensures !moreEnt ==> Clearing(p, n, f0, d, up, j) && n.Dir? && j == |n.kids|
    decreases n, 5
  {
    hide Clearing, ClearedTo, Came, Went, Following, Mountable, Partition.Fat, Partition.Sound, Times;
    FollowOn(f0, n.chain, k, cluster);
    moreEnt, j := ClearCluster(p, cluster, n, f0, d, up, es, k, j0);
    CameTo(moreEnt, p, n, f0, d, up, es, Times(p.g.sectorsPerCluster, k + 1), j);
    WentClears(moreEnt, p, n, f0, d, up, es, SLOTS * Times(p.g.sectorsPerCluster, k + 1), 0, j);
    ClearingParts(p, n, f0, d, up, j);
    ClearingStep(p, n, f0, d, up, j, k);
    next := p.ReadFatEntry(cluster);
  }

  lemma AllCleared(p: Partition, n: Node, f0: seq<nat>, d: seq<Sector>, up: nat, es: seq<Entry>, k: nat, next: nat,
                   j: nat)
    requires ClearsCluster(p, n, f0, d, up, es, k, next, j) && next >= END_OF_CHAIN
    ensures Clearing(p, n, f0, d, up, j) && n.Dir? && j == |n.kids|
  {
    ClearingListed(p, n, f0, d, up, j, es);
    hide Clearing, Reading, Listed;
    FollowOn(f0, n.chain, k, next);
    KidsDone(p.g, es, n, up, SLOTS * Times(p.g.sectorsPerCluster, k), 0, j);
  }

  lemma ClearingBegins(p: Partition, n: Node, up: nat) returns (es: seq<Entry>)
    requires p.Sound() && p.InfoSynced() && p.freeClusterCount == |Free(p.Fat())|
    requires n.Dir? && p.Fat()[0] >= END_OF_CHAIN
    requires Stored(p.g, p.Fat(), p.Data(), n, up) && Proper(n)
    ensures n.chain != [] && ClearsCluster(p, n, p.Fat(), p.Data(), up, es, 0, FirstOf(n), 0)
  {
    es := DirSlots(p.Data(), p.g.sectorsPerCluster, n.chain);
    AllKids(n);
    EmptyElems(p.Fat());
    assert Items(es, 0, 0)[0..] == Items(es, 0, 0);
  }

  // ---- deleting a directory ----

  /** Names are unique: the first kid of a name that some subdirectory has is that subdirectory. */
  lemma OneOfTheName(n: Node, j: nat, name: Name)
    requires n.Dir? && Proper(n) && j < |n.kids| && n.kids[j].name == Some(name) && SubIndex(n.kids, name) < |n.kids|
    ensures j == SubIndex(n.kids, name) && n.kids[j].node.Dir?
  {
  }

  lemma SubHasName(kids: seq<Kid>, name: Name)
    requires SubIndex(kids, name) < |kids|
    ensures HasName(kids, name)
  {
    assert IsSub(kids, name, SubIndex(kids, name));
  }

  /** After its entries were marked, the directory itself is still there as it was. */
  lemma MarkedKid(g: Geometry, f: seq<nat>, d: seq<Sector>, free: nat, t: Node, path: seq<Name>, t0: Node,
                  s: seq<nat>, at: Place, q: nat, j: nat)
    requires VolumeOk(g, f, d, free, t) && At(t, path) == Some(t0) && t0.Dir? && j < |t0.kids| && |f| <= END_OF_CHAIN
    requires s == t0.chain && InArea(|d|, g.sectorsPerCluster, s) && q < |s| && at.Place? && at.cluster == s[q]
    requires |at.dirent| == SLOTS && at.run <= at.index < SLOTS && at.offset < g.sectorsPerCluster
    requires at.cluster >= 2 && Base(g.sectorsPerCluster, at.cluster) + at.offset < |d|
    ensures s != [] && Stored(g, f, Marked(g, d, at), t0.kids[j].node, s[0]) && Proper(t0.kids[j].node)
    ensures f[0] >= END_OF_CHAIN && FirstOf(t0.kids[j].node) < |f|
  {
    hide *;
    VolumeBasics(g, f, d, free, t, path, t0);
    KidOwns(g, f, d, free, t, path, t0, j);
    InElemsOf(s, q);
    KidStoredProper(g, f, d, free, t, path, t0, j);
    StoredOwns(g, f, d, t0.kids[j].node, s[0]);
    InAreaAt(|d|, g.sectorsPerCluster, s, q);
    SectorSame(g.sectorsPerCluster, f, d, at.cluster, at.offset, Pack(MarkDeleted(at.dirent, at.index, at.run)),
               Clusters(t0.kids[j].node));
    MarkedIs(g, d, at);
    StoredFrame(g, f, d, f, Marked(g, d, at), t0.kids[j].node, s[0]);
  }

  lemma InElemsOf(s: seq<nat>, q: nat)
    requires q < |s|
    ensures s[q] in Elems(s)
  {
  }

  lemma KidStoredProper(g: Geometry, f: seq<nat>, d: seq<Sector>, free: nat, t: Node, path: seq<Name>, t0: Node, j: nat)
    requires VolumeOk(g, f, d, free, t) && At(t, path) == Some(t0) && t0.Dir? && j < |t0.kids|
    ensures t0.chain != [] && Stored(g, f, d, t0.kids[j].node, t0.chain[0]) && Proper(t0.kids[j].node)
  {
    hide Listed;
    AtStored(g, f, d, t, 0, path);
  }

  lemma MarkedIs(g: Geometry, d: seq<Sector>, at: Place)
    requires at.Place? && |at.dirent| == SLOTS && at.run <= at.index < SLOTS
    requires at.cluster >= 2 && Base(g.sectorsPerCluster, at.cluster) + at.offset < |d|
    ensures Marked(g, d, at) ==
            d[Base(g.sectorsPerCluster, at.cluster) + at.offset := Pack(MarkDeleted(at.dirent, at.index, at.run))]
  {
  }

  lemma KidCount(g: Geometry, f: seq<nat>, d: seq<Sector>, free: nat, t: Node, path: seq<Name>, t0: Node, j: nat)
    requires VolumeOk(g, f, d, free, t) && At(t, path) == Some(t0) && t0.Dir? && j < |t0.kids|
    ensures |Free(Released(f, Clusters(t0.kids[j].node)))| == free + |Clusters(t0.kids[j].node)|
  {
    KidOwns(g, f, d, free, t, path, t0, j);
    hide Stored, Clusters, Proper, Released, Free;
    ReleasedFree(f, Clusters(t0.kids[j].node));
  }

  /** fat.c:695-761 for a directory that is there. Its entry goes; exactly the clusters that it
      and everything below it owned are released, and the free count rises by their number. */
  method DeleteDirByParentCluster(p: Partition, parentCluster: nat, dirName: Name,
                                  ghost t: Node, ghost path: seq<Name>, ghost t0: Node, ghost es: seq<Entry>)
    returns (ghost t': Node)
    requires Holds(p, t) && At(t, path) == Some(t0) && FirstOf(t0) == parentCluster && HasEntries(p, t0, es)
    requires 0 !in dirName
    requires t0.Dir? && SubIndex(t0.kids, dirName) < |t0.kids|
    modifies p`freeClusterCount, p.hd.sectors
    ensures Holds(p, t')
    ensures EntryErased(p.g, p.Data(), t0.chain, es, SubIndex(t0.kids, dirName))
    ensures var j := SubIndex(t0.kids, dirName);
      && t' == Put(t, path, Dir(t0.chain, Remove(t0.kids, j)))
      && p.Fat() == Released(old(p.Fat()), Clusters(t0.kids[j].node))
      && p.freeClusterCount == old(p.freeClusterCount) + |Clusters(t0.kids[j].node)|
  {
    hide *;
    HoldsParts(p, t);
    DirReadable(p, t, path);
    EntriesReadable(p, t0, es);
    ghost var f, d, free, up, s := p.Fat(), p.Data(), p.freeClusterCount, UpAt(t, path, 0), t0.chain;
    VolumeBasics(p.g, f, d, free, t, path, t0);
    AbsentMeans(p.g, es, s[0], t0.kids, up, dirName, false);
    SubHasName(t0.kids, dirName);
    var at;
    ghost var q, m, j;
    at, q, m, j := Locate(p, parentCluster, dirName, false, s, es);
    MountedParts(p);
    ListedTidy(p.g, es, s[0], t0.kids, up);
    PlaceParts(p.g, d, s, es, at, q, m, j, dirName, false);
    FoundKid(p.g, f, d, free, t, path, t0, es, at, q, m, j, dirName);
    OneOfTheName(t0, j, dirName);
    ghost var x := t0.kids[j].node;
    KidCount(p.g, f, d, free, t, path, t0, j);
    MarkedKid(p.g, f, d, free, t, path, t0, s, at, q, j);
    KidCleared(p.g, f, Marked(p.g, d, at), x, s[0]);
    KidDeleted(p.g, f, d, free, t, path, t0, es, at, q, m, j, dirName, Clusters(x));
    MarkedErases(p.g, d, s, es, at, q, m);
    MarkedSize(p.g, d, at);
    EntryErasedNow(p.g, Marked(p.g, d, at), s, es, j, SLOTS * m + at.index, at.run);
    var firstDirCluster := FirstShifted(at.dirent[at.index], p.g.written);
    label Before:
    StoreMarks(p, at);
    SyncKept@Before(p);
    ClearDirByCluster(p, firstDirCluster, x, s[0]);
    FreeChain(p, firstDirCluster, x.chain);
    t' := Put(t, path, Dir(s, Remove(t0.kids, j)));
    HoldsNow(p, t');
  }
}
