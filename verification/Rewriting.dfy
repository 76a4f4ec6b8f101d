/** Writing and reading files by name (fat.c:771-1017, 1090-1221). */
module Rewriting {
  import opened Bytes
  import opened FatTable
  import opened Chains
  import opened FileData
  import opened WriteLoops
  import opened Partitions
  import opened Allocation
  import opened Files
  import opened LongNames
  import opened Directories
  import opened Trees
  import opened Lookup
  import opened Volumes
  import opened FullVolume
  import opened Uniqueness
  import opened Creation
  import opened MakeDir
  import opened Removal
  import opened Rechaining

  /** All clusters that the table describes lie in a data area of `n` sectors, with a lap each. */
  ghost predicate AllFit(g: Geometry, n: nat, limit: nat) {
    g.sectorsPerCluster > 0 && forall c :: 2 <= c < limit ==>
      Base(g.sectorsPerCluster, c) + g.sectorsPerCluster + 1 <= n
  }

  lemma MountedFits(p: Partition)
    requires p.Mounted()
    ensures AllFit(p.g, |p.Data()|, |p.Fat()|)
  {
    forall c | 2 <= c < |p.Fat()|
      ensures Base(p.g.sectorsPerCluster, c) + p.g.sectorsPerCluster + 1 <= |p.Data()|
    {
      ClustersInArea(p.g, p.hd.sectors.Length, [c]);
      assert [c][0] == c;
    }
  }

  lemma FittingChain(g: Geometry, n: nat, limit: nat, s: seq<nat>)
    requires AllFit(g, n, limit) && forall c :: c in Elems(s) ==> 2 <= c < limit
    ensures LapsFit(n, g.sectorsPerCluster, g.Lap(), s) && InArea(n, g.sectorsPerCluster, s)
    ensures 0 < g.sectorsPerCluster <= g.Lap()
  {
    assert forall i :: 0 <= i < |s| ==> s[i] in Elems(s);
  }

  // ---- sizes ----

  lemma CeilRounds(size: nat, spc: nat)
    requires spc > 0
    ensures RoundsUp(size, spc, Ceil(size, SECTOR_SIZE * spc))
  {
    var unit, k := SECTOR_SIZE * spc, Ceil(size, SECTOR_SIZE * spc);
    TimesIsProduct(spc, k);
    assert SECTOR_SIZE * Times(spc, k) == unit * k;
    if k > 0 {
      TimesIsProduct(spc, k - 1);
      assert SECTOR_SIZE * Times(spc, k - 1) == unit * (k - 1);
    }
  }

  lemma RoundsUnique(size: nat, spc: nat, k: nat, l: nat)
    requires spc > 0 && RoundsUp(size, spc, k) && RoundsUp(size, spc, l)
    ensures k == l
  {
    if k < l {
      if k < l - 1 {
        TimesGrows(spc, k, l - 1);
      }
    } else if l < k {
      if l < k - 1 {
        TimesGrows(spc, l, k - 1);
      }
    }
  }

  // ---- what the write loop leaves ----

  /** `d'` is `d` with the bytes in the clusters of `s`, and no other cluster has changed. */
  ghost predicate Filled(g: Geometry, d: seq<Sector>, s: seq<nat>, bytes: seq<byte>, d': seq<Sector>) {
    && InArea(|d|, g.sectorsPerCluster, s) && |d'| == |d| && |bytes| <= SECTOR_SIZE * Times(g.sectorsPerCluster, |s|)
    && Contents(d', g.sectorsPerCluster, s, |bytes|) == bytes
    && OthersSame(d, g.sectorsPerCluster, s, d')
  }

  /** The write loop puts bytes `w` to `n` of the file in their places. As meant it always does; as
      compiled, it depends on where the clusters lie. */
  ghost predicate Aligned(g: Geometry, s: seq<nat>, w: nat, n: nat) {
    g.sectorsPerCluster > 0 && InPlace(g.sectorsPerCluster, g.Lap(), s, w, n)
  }

  lemma AlignedAsMeant(g: Geometry, s: seq<nat>, w: nat, n: nat)
    requires !g.written && g.sectorsPerCluster > 0 && n <= SECTOR_SIZE * Times(g.sectorsPerCluster, |s|)
    requires forall i :: 0 <= i < |s| ==> s[i] >= 2
    ensures Aligned(g, s, w, n)
  {
    AlwaysInPlace(g.sectorsPerCluster, s, w, n);
  }

  /** Within one cluster the compiled loop does what it is meant to do. */
  lemma AlignedInOne(g: Geometry, s: seq<nat>, w: nat, n: nat)
    requires g.sectorsPerCluster > 0 && n <= g.ClusterBytes() && n <= SECTOR_SIZE * Times(g.sectorsPerCluster, |s|)
    requires Distinct(s) && forall i :: 0 <= i < |s| ==> s[i] >= 2
    ensures Aligned(g, s, w, n)
  {
    if !g.written {
      AlignedAsMeant(g, s, w, n);
    } else if s == [] {
      SectorCount(n, 0);
    } else {
      OneLapIff(g.sectorsPerCluster, s, n);
      hide LapOf, InLap, Base, Times, PlaceAt;
      forall m: nat | w / SECTOR_SIZE <= m < SectorsOf(n)
        ensures LapOf(g.Lap(), m) < |s| && LapOf(g.sectorsPerCluster, m) < |s|
        ensures PlaceAt(g.sectorsPerCluster, g.Lap(), s, m) == PlaceAt(g.sectorsPerCluster, g.sectorsPerCluster, s, m)
      {
        InPlaceAt(g.sectorsPerCluster, g.Lap(), s, 0, n, m);
      }
    }
  }

  lemma FilledSame(g: Geometry, f: seq<nat>, d: seq<Sector>, s: seq<nat>, bytes: seq<byte>, d': seq<Sector>,
                   cs: set<nat>)
    requires Filled(g, d, s, bytes, d') && cs !! Elems(s)
    ensures SameAt(g.sectorsPerCluster, f, d, f, d', cs) && |d'| == |d|
  {
    hide Cluster, Base, Contents;
    assert forall c :: c in cs ==> c !in s by {
      InElems(s);
    }
  }

  lemma FilledNothing(g: Geometry, d: seq<Sector>)
    ensures Filled(g, d, [], [], d)
  {
  }

  /** What the loops leave is that, if everything is in place. */
  lemma FilledNow(g: Geometry, d: seq<Sector>, s: seq<nat>, was: seq<byte>, data: seq<byte>)
    requires LapsFit(|d|, g.sectorsPerCluster, g.Lap(), s) && InArea(|d|, g.sectorsPerCluster, s) && Distinct(s)
    requires 0 < g.sectorsPerCluster <= g.Lap() && |was| + |data| <= SECTOR_SIZE * Times(g.sectorsPerCluster, |s|)
    requires Contents(d, g.sectorsPerCluster, s, |was|) == was && Aligned(g, s, |was|, |was| + |data|)
    ensures Filled(g, d, s, was + data, AfterLoop(d, g.sectorsPerCluster, g.Lap(), s, |was|, data))
  {
    hide *;
    AlignedParts(g, s, |was|, |was| + |data|);
    AppendedReadsBack(d, g.sectorsPerCluster, g.Lap(), s, |was|, data);
    FilledIs(g, d, s, was + data, AfterLoop(d, g.sectorsPerCluster, g.Lap(), s, |was|, data));
  }

  lemma AlignedParts(g: Geometry, s: seq<nat>, w: nat, n: nat)
    requires Aligned(g, s, w, n)
    ensures g.sectorsPerCluster > 0 && g.Lap() > 0 && InPlace(g.sectorsPerCluster, g.Lap(), s, w, n)
  {
  }

  lemma FilledIs(g: Geometry, d: seq<Sector>, s: seq<nat>, bytes: seq<byte>, d': seq<Sector>)
    requires InArea(|d|, g.sectorsPerCluster, s) && |d'| == |d|
    requires |bytes| <= SECTOR_SIZE * Times(g.sectorsPerCluster, |s|)
    requires Contents(d', g.sectorsPerCluster, s, |bytes|) == bytes
    requires OthersSame(d, g.sectorsPerCluster, s, d')
    ensures Filled(g, d, s, bytes, d')
  {
  }

  /** Afterwards the chain holds a file with exactly these bytes. */
  lemma FileStoredNow(g: Geometry, f: seq<nat>, d: seq<Sector>, s: seq<nat>, bytes: seq<byte>, d': seq<Sector>)
    requires Filled(g, d, s, bytes, d') && g.sectorsPerCluster > 0
    requires (s != [] ==> Chain(f, s)) && |s| == Ceil(|bytes|, SECTOR_SIZE * g.sectorsPerCluster)
    requires |bytes| < 0x8000_0000
    ensures FileStored(g, f, d', s, bytes) && Distinct(s)
  {
    CeilRounds(|bytes|, g.sectorsPerCluster);
    if s != [] {
      WalkDistinct(f, s);
    }
    hide Chain, Contents, Ceil, Cluster;
  }

  // ---- the entry ----

  /** The data area with the entry at `at` replaced by `e`. */
  function EntryPut(g: Geometry, d: seq<Sector>, at: Place, e: Entry): (r: seq<Sector>)
    requires at.Place? && |at.dirent| == SLOTS && at.index < SLOTS
    requires at.cluster >= 2 && Base(g.sectorsPerCluster, at.cluster) + at.offset < |d|
    ensures |r| == |d|
  {
    d[Base(g.sectorsPerCluster, at.cluster) + at.offset := Pack(at.dirent[at.index := e])]
  }

  lemma EntryStored(g: Geometry, d: seq<Sector>, s: seq<nat>, es: seq<Entry>, at: Place, q: nat, m: nat, e: Entry)
    requires InArea(|d|, g.sectorsPerCluster, s) && Distinct(s) && es == DirSlots(d, g.sectorsPerCluster, s)
    requires at.Place? && |at.dirent| == SLOTS && at.index < SLOTS
    requires q < |s| && at.cluster == s[q] && at.cluster >= 2 && at.offset < g.sectorsPerCluster
    requires Base(g.sectorsPerCluster, at.cluster) + at.offset < |d| && SLOTS * m + SLOTS <= |es|
    requires m == Times(g.sectorsPerCluster, q) + at.offset
    requires forall k :: 0 <= k < SLOTS ==> at.dirent[k] == es[SLOTS * m + k]
    ensures DirSlots(EntryPut(g, d, at, e), g.sectorsPerCluster, s) == es[SLOTS * m + at.index := e]
  {
    hide Pack, DirSlots, Times, Base, InArea, Distinct;
    DirSlotsUpdate(d, g.sectorsPerCluster, s, q, at.offset, m, at.dirent[at.index := e]);
    EntryPutIs(g, d, at, e);
    hide EntryPut;
    SlotsSize(d, EntryPut(g, d, at, e), g.sectorsPerCluster, s);
    SlotReplaced(es, DirSlots(EntryPut(g, d, at, e), g.sectorsPerCluster, s), SLOTS * m, at.dirent, at.index, e);
  }

  lemma EntryPutIs(g: Geometry, d: seq<Sector>, at: Place, e: Entry)
    requires at.Place? && |at.dirent| == SLOTS && at.index < SLOTS
    requires at.cluster >= 2 && Base(g.sectorsPerCluster, at.cluster) + at.offset < |d|
    ensures EntryPut(g, d, at, e) ==
            d[Base(g.sectorsPerCluster, at.cluster) + at.offset := Pack(at.dirent[at.index := e])]
  {
  }

  lemma SlotsSize(d: seq<Sector>, d': seq<Sector>, spc: nat, s: seq<nat>)
    requires InArea(|d|, spc, s) && |d'| == |d|
    ensures |DirSlots(d, spc, s)| == |DirSlots(d', spc, s)| == SLOTS * Times(spc, |s|)
  {
  }

  lemma SlotReplaced(es: seq<Entry>, es': seq<Entry>, from: nat, dirent: seq<Entry>, i: nat, e: Entry)
    requires |dirent| == SLOTS && i < SLOTS && from + SLOTS <= |es| == |es'|
    requires forall k :: 0 <= k < SLOTS ==> dirent[k] == es[from + k]
    requires forall k :: 0 <= k < |es| ==>
      es'[k] == if from <= k < from + SLOTS then dirent[i := e][k - from] else es[k]
    ensures es' == es[from + i := e]
  {
    forall k | 0 <= k < |es|
      ensures es'[k] == es[from + i := e][k]
    {
      if from <= k < from + SLOTS {
        assert dirent[k - from] == es[from + (k - from)];
      }
    }
  }

  lemma EntryPutSame(g: Geometry, f: seq<nat>, d: seq<Sector>, at: Place, e: Entry, cs: set<nat>)
    requires at.Place? && |at.dirent| == SLOTS && at.index < SLOTS && at.offset < g.sectorsPerCluster
    requires at.cluster >= 2 && Base(g.sectorsPerCluster, at.cluster) + g.sectorsPerCluster <= |d| && at.cluster !in cs
    ensures SameAt(g.sectorsPerCluster, f, d, f, EntryPut(g, d, at, e), cs)
  {
    SectorSame(g.sectorsPerCluster, f, d, at.cluster, at.offset, Pack(at.dirent[at.index := e]), cs);
  }

  // ---- a file with new bytes ----

  lemma NewClusters(f: seq<nat>, s: seq<nat>, f': seq<nat>, s': seq<nat>, n: nat)
    requires Rechained(f, s, f', s', n)
    ensures Elems(s') <= Elems(s) + Free(f)
  {
    forall c | c in s'
      ensures c in Elems(s) + Free(f)
    {
      var i :| 0 <= i < |s'| && s'[i] == c;
      if i < |s| {
        assert n > |s| ==> s'[..|s|][i] == c;
      } else {
        assert s'[|s|..][i - |s|] == c;
      }
    }
  }

  /** What the change of one file's chain and data leaves alone. */
  lemma FilePutSame(g: Geometry, f: seq<nat>, d: seq<Sector>, at: Place, e: Entry, s: seq<nat>, f': seq<nat>,
                    s': seq<nat>, n: nat, bytes: seq<byte>, d': seq<Sector>, cs: set<nat>)
    requires at.Place? && |at.dirent| == SLOTS && at.index < SLOTS && at.offset < g.sectorsPerCluster
    requires at.cluster >= 2 && Base(g.sectorsPerCluster, at.cluster) + g.sectorsPerCluster <= |d|
    requires Filled(g, EntryPut(g, d, at, e), s', bytes, d')
    requires Rechained(f, s, f', s', n) && cs !! Elems(s) && cs !! Free(f) && at.cluster !in cs
    ensures SameAt(g.sectorsPerCluster, f, d, f', d', cs) && |d'| == |d|
  {
    hide *;
    NewClusters(f, s, f', s', n);
    RechainedParts(f, s, f', s', n);
    EntryPutSame(g, f, d, at, e, cs);
    EntryPutSize(g, d, at, e);
    FilledSame(g, f, EntryPut(g, d, at, e), s', bytes, d', cs);
    SameTrans(g.sectorsPerCluster, f, d, f, EntryPut(g, d, at, e), f, d', cs);
    TableSame(g.sectorsPerCluster, f, f', d', cs);
    SameTrans(g.sectorsPerCluster, f, d, f, d', f', d', cs);
  }

  lemma EntryPutSize(g: Geometry, d: seq<Sector>, at: Place, e: Entry)
    requires at.Place? && |at.dirent| == SLOTS && at.index < SLOTS
    requires at.cluster >= 2 && Base(g.sectorsPerCluster, at.cluster) + at.offset < |d|
    ensures |EntryPut(g, d, at, e)| == |d|
  {
  }

  lemma TableSame(spc: nat, f: seq<nat>, f': seq<nat>, d: seq<Sector>, cs: set<nat>)
    requires |f'| == |f| && forall c :: c in cs && c < |f| ==> f'[c] == f[c]
    ensures SameAt(spc, f, d, f', d, cs)
  {
  }

  /** The directory's entries after the bytes were stored elsewhere. */
  lemma EntriesAfter(g: Geometry, f: seq<nat>, d: seq<Sector>, s0: seq<nat>, s': seq<nat>, bytes: seq<byte>,
                     d': seq<Sector>)
    requires Filled(g, d, s', bytes, d') && Elems(s0) !! Elems(s') && InArea(|d|, g.sectorsPerCluster, s0)
    ensures |d'| == |d| && DirSlots(d', g.sectorsPerCluster, s0) == DirSlots(d, g.sectorsPerCluster, s0)
  {
    hide Filled;
    FilledSame(g, f, d, s', bytes, d', Elems(s0));
    ChainSame(g.sectorsPerCluster, f, d, f, d', s0);
  }

  /** The kid's own chain, and who else has what. */
  lemma FileKid(g: Geometry, f: seq<nat>, d: seq<Sector>, free: nat, t: Node, path: seq<Name>, t0: Node, j: nat)
    requires VolumeOk(g, f, d, free, t) && At(t, path) == Some(t0) && t0.Dir? && j < |t0.kids| && t0.kids[j].node.File?
    ensures var x := t0.kids[j].node;
      && FileStored(g, f, d, x.chain, x.bytes) && Clusters(x) == Elems(x.chain) && Distinct(x.chain)
      && RoundsUp(|x.bytes|, g.sectorsPerCluster, |x.chain|) && |x.bytes| < 0x8000_0000
      && (x.chain == [] ==> x.bytes == [])
    ensures Clusters(t) !! Free(f) && forall c :: c in Clusters(t) ==> 2 <= c < |f|
    ensures Elems(t0.kids[j].node.chain) <= Clusters(t) && Elems(t0.kids[j].node.chain) !! Elems(t0.chain)
    ensures Elems(t0.chain) <= Clusters(t)
  {
    KidOwns(g, f, d, free, t, path, t0, j);
    OwnedNotFree(g, f, d, t, 0);
    AtStored(g, f, d, t, 0, path);
    hide Listed, Contents;
    assert Stored(g, f, d, t0.kids[j].node, t0.chain[0]);
    assert Proper(t0.kids[j].node);
  }

  /** The file's new clusters are its old ones or were free. */
  lemma NewChain(g: Geometry, f: seq<nat>, d: seq<Sector>, free: nat, t: Node, path: seq<Name>, t0: Node, j: nat,
                 f': seq<nat>, s': seq<nat>, n: nat)
    requires VolumeOk(g, f, d, free, t) && At(t, path) == Some(t0) && t0.Dir? && j < |t0.kids| && t0.kids[j].node.File?
    requires AllFit(g, |d|, |f|) && Rechained(f, t0.kids[j].node.chain, f', s', n)
    ensures LapsFit(|d|, g.sectorsPerCluster, g.Lap(), s') && InArea(|d|, g.sectorsPerCluster, s')
    ensures 0 < g.sectorsPerCluster <= g.Lap()
    ensures Elems(t0.chain) !! Elems(s') && Elems(s') - Elems(t0.kids[j].node.chain) !! Clusters(t)
    ensures forall c :: c in Elems(s') ==> 2 <= c < |f|
  {
    hide *;
    VolumeBasics(g, f, d, free, t, path, t0);
    FileKid(g, f, d, free, t, path, t0, j);
    NewClusters(f, t0.kids[j].node.chain, f', s', n);
    FreeRange(f);
    FittingChain(g, |d|, |f|, s');
  }

  /** The volume around a rewritten file. */
  lemma FilePutAround(g: Geometry, f: seq<nat>, d: seq<Sector>, free: nat, t: Node, path: seq<Name>, t0: Node, j: nat,
                      at: Place, e: Entry, f': seq<nat>, s': seq<nat>, n: nat, bytes: seq<byte>, d': seq<Sector>)
    requires VolumeOk(g, f, d, free, t) && At(t, path) == Some(t0) && t0.Dir? && j < |t0.kids| && t0.kids[j].node.File?
    requires at.Place? && |at.dirent| == SLOTS && at.index < SLOTS && at.offset < g.sectorsPerCluster
    requires at.cluster in Elems(t0.chain)
    requires at.cluster >= 2 && Base(g.sectorsPerCluster, at.cluster) + g.sectorsPerCluster <= |d|
    requires AllFit(g, |d|, |f|) && Rechained(f, t0.kids[j].node.chain, f', s', n)
    requires Filled(g, EntryPut(g, d, at, e), s', bytes, d')
    ensures AroundKid(g, f, d, f', d', |Free(f')|, t, t0, j)
  {
    hide *;
    VolumeBasics(g, f, d, free, t, path, t0);
    FileKid(g, f, d, free, t, path, t0, j);
    var s := t0.kids[j].node.chain;
    NewChain(g, f, d, free, t, path, t0, j, f', s', n);
    RechainedParts(f, s, f', s', n);
    InElems(t0.chain);
    ChainFrame(f, f', t0.chain);
    assert 0 !in Elems(s) + Elems(s');
    assert f'[0] == f[0];
    FilePutSame(g, f, d, at, e, s, f', s', n, bytes, d', Clusters(t) - Elems(t0.chain) - Clusters(t0.kids[j].node));
    AroundKidNow(g, f, d, f', d', |Free(f')|, t, t0, j);
  }

  lemma FreeRange(f: seq<nat>)
    ensures forall c :: c in Free(f) ==> 2 <= c < |f|
  {
  }

  lemma AroundKidNow(g: Geometry, f: seq<nat>, d: seq<Sector>, f': seq<nat>, d': seq<Sector>, free': nat, t: Node,
                     t0: Node, j: nat)
    requires t0.Dir? && j < |t0.kids| && t0.chain != []
    requires |f'| == |f| > 0 && |d'| == |d| && f'[0] >= END_OF_CHAIN && free' == |Free(f')|
    requires InArea(|d|, g.sectorsPerCluster, t0.chain) && Chain(f', t0.chain)
    requires SameAt(g.sectorsPerCluster, f, d, f', d', Clusters(t) - Elems(t0.chain) - Clusters(t0.kids[j].node))
    ensures AroundKid(g, f, d, f', d', free', t, t0, j)
  {
  }

  /** The entry that the code makes of `was` for a file with first cluster `first`: that in bytes 20, 21,
      26 and 27 and the size in bytes 28 to 31, and nothing else changed. */
  ghost predicate EntryFor(was: Entry, e: Entry, first: nat, size: nat) {
    && (forall k :: 0 <= k < 20 || 22 <= k < 26 ==> e[k] == was[k])
    && U16(e, 26) + 65536 * U16(e, 20) == first && U32(e, 28) == size
  }

  /** A directory's entries `es` after the entry of item `j` became that of a file of `size` bytes in the
      clusters `s'`: no other entry has changed, and of that one only first cluster and size. */
  ghost predicate EntryWritten(g: Geometry, d: seq<Sector>, chain: seq<nat>, es: seq<Entry>, j: nat, s': seq<nat>,
                               size: nat) {
    && InArea(|d|, g.sectorsPerCluster, chain) && j < |Items(es, 0, 0)|
    && var at, es' := Items(es, 0, 0)[j].at, DirSlots(d, g.sectorsPerCluster, chain);
    && at < |es| == |es'| && (forall k :: 0 <= k < |es| && k != at ==> es'[k] == es[k])
    && EntryFor(es[at], es'[at], if s' == [] then First(es[at]) else s'[0], size)
  }

  lemma EntryWrittenNow(g: Geometry, f: seq<nat>, d: seq<Sector>, free: nat, t: Node, path: seq<Name>, t0: Node,
                        es: seq<Entry>, at: Place, q: nat, m: nat, j: nat, name: Name, e: Entry, f': seq<nat>,
                        s': seq<nat>, bytes: seq<byte>, d': seq<Sector>, first: nat)
    requires Found(g, f, d, free, t, path, t0, es, at, q, m, j, name) && AllFit(g, |d|, |f|)
    requires Rechained(f, t0.kids[j].node.chain, f', s', |s'|) && Filled(g, EntryPut(g, d, at, e), s', bytes, d')
    requires EntryFor(at.dirent[at.index], e, first, |bytes|)
    requires first == if s' == [] then First(at.dirent[at.index]) else s'[0]
    ensures EntryWritten(g, d', t0.chain, es, j, s', |bytes|)
  {
    hide *;
    FoundAgain(g, f, d, free, t, path, t0, es, at, q, m, j, name);
    VolumeBasics(g, f, d, free, t, path, t0);
    ListedTidy(g, es, t0.chain[0], t0.kids, UpAt(t, path, 0));
    PlaceParts(g, d, t0.chain, es, at, q, m, j, name, false);
    NewChain(g, f, d, free, t, path, t0, j, f', s', |s'|);
    EntryPutSize(g, d, at, e);
    EntryStored(g, d, t0.chain, es, at, q, m, e);
    EntriesAfter(g, f, EntryPut(g, d, at, e), t0.chain, s', bytes, d');
    WrittenIs(g, d', t0.chain, es, at, m, j, e, s', first, |bytes|);
  }

  lemma WrittenIs(g: Geometry, d: seq<Sector>, chain: seq<nat>, es: seq<Entry>, at: Place, m: nat, j: nat, e: Entry,
                  s': seq<nat>, first: nat, size: nat)
    requires InArea(|d|, g.sectorsPerCluster, chain) && at.Place? && |at.dirent| == SLOTS && at.index < SLOTS
    requires SLOTS * m + SLOTS <= |es| && DirSlots(d, g.sectorsPerCluster, chain) == es[SLOTS * m + at.index := e]
    requires forall k :: 0 <= k < SLOTS ==> at.dirent[k] == es[SLOTS * m + k]
    requires j < |Items(es, 0, 0)| && Items(es, 0, 0)[j].at == SLOTS * m + at.index
    requires EntryFor(at.dirent[at.index], e, first, size)
    requires first == if s' == [] then First(at.dirent[at.index]) else s'[0]
    ensures EntryWritten(g, d, chain, es, j, s', size)
  {
    hide Items, DirSlots, EntryFor, First, InArea;
  }

  lemma StillDescribes(was: Entry, e: Entry, x: Item, name: Option<Name>, old_: Node, s': seq<nat>, bytes: seq<byte>)
    requires Describes(was, x, Kid(name, old_)) && old_.File?
    requires EntryFor(was, e, FirstOf(File(s', bytes)), |bytes|)
    ensures Describes(e, x, Kid(name, File(s', bytes)))
  {
  }

  lemma NewFileIs(g: Geometry, f: seq<nat>, d: seq<Sector>, s: seq<nat>, bytes: seq<byte>, up: nat)
    requires FileStored(g, f, d, s, bytes) && Distinct(s)
    ensures Stored(g, f, d, File(s, bytes), up) && Proper(File(s, bytes)) && Clusters(File(s, bytes)) == Elems(s)
  {
  }

  /** The tree `t` in which kid `j` of the directory `t0` at `path` is the file with `bytes`. */
  function WithFile(t: Node, path: seq<Name>, t0: Node, j: nat, s: seq<nat>, bytes: seq<byte>): Node
    requires At(t, path).Some? && t0.Dir? && j < |t0.kids|
  {
    Put(t, path, Dir(t0.chain, t0.kids[j := Kid(t0.kids[j].name, File(s, bytes))]))
  }

  lemma WithFileIs(t: Node, path: seq<Name>, t0: Node, j: nat, s: seq<nat>, bytes: seq<byte>)
    requires At(t, path).Some? && t0.Dir? && j < |t0.kids|
    ensures WithFile(t, path, t0, j, s, bytes) ==
            Put(t, path, Dir(t0.chain, t0.kids[j := Kid(t0.kids[j].name, File(s, bytes))]))
  {
  }

  /** A file gets new bytes and the clusters for them; everything else in the tree stays. */
  lemma FileReplaced(g: Geometry, f: seq<nat>, d: seq<Sector>, free: nat, t: Node, path: seq<Name>, t0: Node,
                     es: seq<Entry>, at: Place, q: nat, m: nat, j: nat, name: Name, e: Entry, f': seq<nat>,
                     s': seq<nat>, bytes: seq<byte>, d': seq<Sector>)
    requires VolumeOk(g, f, d, free, t) && At(t, path) == Some(t0) && t0.Dir? && j < |t0.kids| && t0.kids[j].node.File?
    requires InArea(|d|, g.sectorsPerCluster, t0.chain) && es == DirSlots(d, g.sectorsPerCluster, t0.chain)
    requires PlaceOk(g.sectorsPerCluster, d, t0.chain, es, at, q, m, j, name, false)
    requires AllFit(g, |d|, |f|) && |bytes| < 0x8000_0000
    requires g.sectorsPerCluster > 0 && |s'| == Ceil(|bytes|, SECTOR_SIZE * g.sectorsPerCluster)
    requires Rechained(f, t0.kids[j].node.chain, f', s', |s'|)
    requires at.Place? && |at.dirent| == SLOTS && at.index < SLOTS
    requires at.cluster >= 2 && Base(g.sectorsPerCluster, at.cluster) + at.offset < |d|
    requires EntryFor(at.dirent[at.index], e, FirstOf(File(s', bytes)), |bytes|)
    requires Filled(g, EntryPut(g, d, at, e), s', bytes, d')
    ensures VolumeOk(g, f', d', |Free(f')|, WithFile(t, path, t0, j, s', bytes))
  {
    hide *;
    WithFileIs(t, path, t0, j, s', bytes);
    VolumeBasics(g, f, d, free, t, path, t0);
    var spc, up := g.sectorsPerCluster, UpAt(t, path, 0);
    ListedTidy(g, es, t0.chain[0], t0.kids, up);
    PlaceParts(g, d, t0.chain, es, at, q, m, j, name, false);
    InAreaAt(|d|, spc, t0.chain, q);
    InElems(t0.chain);
    NewChain(g, f, d, free, t, path, t0, j, f', s', |s'|);
    FilePutAround(g, f, d, free, t, path, t0, j, at, e, f', s', |s'|, bytes, d');
    var d1 := EntryPut(g, d, at, e);
    EntryPutSize(g, d, at, e);
    EntryStored(g, d, t0.chain, es, at, q, m, e);
    EntriesAfter(g, f, d1, t0.chain, s', bytes, d');
    RechainedParts(f, t0.kids[j].node.chain, f', s', |s'|);
    FileStoredNow(g, f', d1, s', bytes, d');
    NewFileIs(g, f', d', s', bytes, t0.chain[0]);
    FileKid(g, f, d, free, t, path, t0, j);
    FoundMeans(g, es, t0.chain[0], t0.kids, up, name, false, j);
    EntryRewritten(es, m, at, j, e, t0.kids[j], s', bytes);
    KidUpdated(g, f, d, free, t, path, t0, f', d', |Free(f')|, j, es, e, File(s', bytes));
  }

  lemma EntryRewritten(es: seq<Entry>, m: nat, at: Place, j: nat, e: Entry, kid: Kid, s': seq<nat>, bytes: seq<byte>)
    requires at.Place? && |at.dirent| == SLOTS && at.index < SLOTS && SLOTS * m + SLOTS <= |es|
    requires j < |Items(es, 0, 0)| && Items(es, 0, 0)[j].at == SLOTS * m + at.index
    requires forall k :: 0 <= k < SLOTS ==> at.dirent[k] == es[SLOTS * m + k]
    requires Describes(es[Items(es, 0, 0)[j].at], Items(es, 0, 0)[j], kid) && kid.node.File?
    requires EntryFor(at.dirent[at.index], e, FirstOf(File(s', bytes)), |bytes|)
    ensures Rewritten(es, es[SLOTS * m + at.index := e], Items(es, 0, 0)[j], e)
    ensures Describes(e, Items(es, 0, 0)[j], Kid(kid.name, File(s', bytes)))
  {
    hide Items, FirstOf, First, Size;
    StillDescribes(at.dirent[at.index], e, Items(es, 0, 0)[j], kid.name, kid.node, s', bytes);
  }

  // ---- the operations ----

  /** The entry as it is stored back (fat.c:832-833, 846). */
  function NewEntry(e: Entry, isNew: bool, first: nat, size: nat): (r: Entry)
    requires size < 0x1_0000_0000 && (isNew ==> first < 0x1_0000_0000)
    ensures EntryFor(e, r, if isNew then first else First(e), size)
  {
    SetSize(if isNew then SetFirst(e, first) else e, size)
  }

  /** Storing the sector with the changed entry back (fat.c:846-848). */
  method StoreEntry(p: Partition, at: Place, e: Entry)
    requires p.Sound() && at.Place? && |at.dirent| == SLOTS && at.index < SLOTS
    requires at.cluster >= 2 && Base(p.g.sectorsPerCluster, at.cluster) + at.offset < |p.Data()|
    modifies p.hd.sectors
    ensures p.Sound() && p.Fat() == old(p.Fat()) && p.Info() == old(p.Info())
    ensures p.Data() == EntryPut(p.g, old(p.Data()), at, e)
  {
    PaddedFull(Pack(at.dirent[at.index := e]));
    p.WriteData(Base(p.g.sectorsPerCluster, at.cluster) + at.offset, Pack(at.dirent[at.index := e]));
  }

  /** The clusters that a file of `size` bytes takes. */
  function ClustersFor(g: Geometry, size: nat): nat
    requires g.sectorsPerCluster > 0
  {
    Ceil(size, SECTOR_SIZE * g.sectorsPerCluster)
  }

  /** The table and the entry are ready for `size` bytes. */
  ghost predicate Resized(p: Partition, f: seq<nat>, d: seq<Sector>, at: Place, s: seq<nat>, s': seq<nat>, e: Entry,
                          first: nat, size: nat)
    reads p, p.hd.sectors
  {
    && Counted(p) && p.g.sectorsPerCluster > 0
    && Rechained(f, s, p.Fat(), s', |s'|) && |s'| == ClustersFor(p.g, size)
    && at.Place? && |at.dirent| == SLOTS && at.index < SLOTS
    && at.cluster >= 2 && Base(p.g.sectorsPerCluster, at.cluster) + at.offset < |d|
    && EntryFor(at.dirent[at.index], e, first, size)
    && first == (if s' == [] then First(at.dirent[at.index]) else s'[0])
    && p.Data() == EntryPut(p.g, d, at, e) && |p.Fat()| == |f|
  }

  lemma ResizedNow(p: Partition, f: seq<nat>, d: seq<Sector>, at: Place, s: seq<nat>, s': seq<nat>, e: Entry,
                   first: nat, size: nat)
    requires Counted(p) && p.g.sectorsPerCluster > 0
    requires Rechained(f, s, p.Fat(), s', |s'|) && |s'| == Ceil(size, SECTOR_SIZE * p.g.sectorsPerCluster)
    requires at.Place? && |at.dirent| == SLOTS && at.index < SLOTS
    requires at.cluster >= 2 && Base(p.g.sectorsPerCluster, at.cluster) + at.offset < |d|
    requires EntryFor(at.dirent[at.index], e, first, size)
    requires first == if s' == [] then First(at.dirent[at.index]) else s'[0]
    requires p.Data() == EntryPut(p.g, d, at, e)
    ensures Resized(p, f, d, at, s, s', e, first, size)
  {
    hide EntryPut, EntryFor;
  }

  lemma ResizedParts(p: Partition, f: seq<nat>, d: seq<Sector>, at: Place, s: seq<nat>, s': seq<nat>, e: Entry,
                     first: nat, size: nat)
    requires Resized(p, f, d, at, s, s', e, first, size)
    ensures Counted(p) && p.Mounted() && p.g.sectorsPerCluster > 0
    ensures Rechained(f, s, p.Fat(), s', |s'|) && |s'| == Ceil(size, SECTOR_SIZE * p.g.sectorsPerCluster)
    ensures at.Place? && |at.dirent| == SLOTS && at.index < SLOTS
    ensures at.cluster >= 2 && Base(p.g.sectorsPerCluster, at.cluster) + at.offset < |d|
    ensures EntryFor(at.dirent[at.index], e, first, size)
    ensures first == if s' == [] then First(at.dirent[at.index]) else s'[0]
    ensures p.Data() == EntryPut(p.g, d, at, e) && |p.Data()| == |d| && |p.Fat()| == |f|
  {
  }

  /** Clusters and entry of a file that is to have `size` bytes (fat.c:815-848, 936-969). */
  method Resize(p: Partition, at: Place, size: nat, heapOk: bool, ghost s: seq<nat>)
    returns (r: Growth, first: nat, ghost s': seq<nat>, ghost e: Entry)
    requires Counted(p) && size < 0x8000_0000
    requires at.Place? && |at.dirent| == SLOTS && at.index < SLOTS
    requires at.cluster >= 2 && Base(p.g.sectorsPerCluster, at.cluster) + at.offset < |p.Data()|
    requires First(at.dirent[at.index]) == FirstShifted(at.dirent[at.index], p.g.written)
    requires OwnsChain(p.Fat(), First(at.dirent[at.index]), s)
    requires RoundsUp(Size(at.dirent[at.index]), p.g.sectorsPerCluster, |s|)
    requires p.g.sectorsPerCluster > 0
    requires Guarded(|s|, Ceil(size, SECTOR_SIZE * p.g.sectorsPerCluster), p.freeClusterCount)
    modifies p`freeClusterCount, p.hd.sectors
    ensures !r.Refused? ==> p.Sound() && p.InfoSynced()
    ensures r.Fitted? <==>
      Affordable(|s|, Ceil(size, SECTOR_SIZE * p.g.sectorsPerCluster), old(p.freeClusterCount), heapOk)
    ensures r.Fitted? ==> Resized(p, old(p.Fat()), old(p.Data()), at, s, s', e, first, size)
    ensures r.Refused? ==> (s == [] ==> old(p.freeClusterCount) == 0) && p.freeClusterCount == old(p.freeClusterCount)
    ensures r.Refused? ==> p.Disk() == if s == [] then Strayed(p.g, old(p.Disk())) else old(p.Disk())
    ensures r.Leaked? ==> s == [] && old(p.freeClusterCount) > 0
    ensures r.Leaked? ==> FirstFree(old(p.Fat()), [first]) && p.Fat() == old(p.Fat())[first := END_OF_CHAIN]
    ensures r.Leaked? ==>
      p.Data() == old(p.Data()) && p.freeClusterCount == old(p.freeClusterCount) == |Free(p.Fat())| + 1
  {
    hide *;
    UnitPositive(p.g.sectorsPerCluster);
    CountedParts(p);
    var was := at.dirent[at.index];
    var unit := SECTOR_SIZE * p.g.sectorsPerCluster;
    CeilRounds(Size(was), p.g.sectorsPerCluster);
    RoundsUnique(Size(was), p.g.sectorsPerCluster, |s|, Ceil(Size(was), unit));
    OwnedFirst(p.Fat(), First(was), s);
    NoElements(s);
    ghost var f, d := p.Fat(), p.Data();
    var first0 := FirstShifted(was, p.g.written);
    var currentClusterAmount := Ceil(Size(was), unit);
    var neededClusterAmount := Ceil(size, unit);
    r, first, s' := Rechain(p, first0, currentClusterAmount, neededClusterAmount, heapOk, s);
    e := was;
    if r.Fitted? {
      CountedParts(p);
      RechainedFirst(f, s, p.Fat(), s', |s'|);
      EndIsSmall();
      var changed := NewEntry(was, first0 == 0 && neededClusterAmount > 0, first, size);
      e := changed;
      label Stored:
      StoreEntry(p, at, changed);
      SyncKept@Stored(p);
      CountedNow(p);
      ResizedNow(p, f, d, at, s, s', e, first, size);
    }
  }

  lemma UnitPositive(spc: nat)
    requires spc > 0
    ensures SECTOR_SIZE * spc > 0
  {
  }

  lemma RechainedFirst(f: seq<nat>, s: seq<nat>, f': seq<nat>, s': seq<nat>, n: nat)
    requires Rechained(f, s, f', s', n) && |f'| <= END_OF_CHAIN
    ensures s' != [] ==> s'[0] < 0x1_0000_0000
    ensures s' != [] && s != [] ==> s'[0] == s[0]
  {
    if s' != [] && s != [] && n > |s| {
      assert s'[..|s|][0] == s[0];
    }
  }

  datatype Writing =
    | NoFile    // the name is not there
    | NoSpace   // the tree is as it was, but see FullVolume
    | Lost      // nothing was written, but a free cluster was lost
    | Wrote

  /** What a caller has to see to before a file is given `size` bytes: a directory of that name
      would be overwritten, and the clusters may not run out at the wrong point. */
  ghost predicate Writable(g: Geometry, x: Node, free: nat, size: nat) {
    && x.File? && g.sectorsPerCluster > 0 && size < 0x8000_0000
    && Guarded(|x.chain|, Ceil(size, SECTOR_SIZE * g.sectorsPerCluster), free)
  }

  ghost predicate CanRewrite(g: Geometry, kids: seq<Kid>, fileName: Name, free: nat, size: nat) {
    forall k: nat :: k < |kids| && kids[k].name == Some(fileName) ==> Writable(g, kids[k].node, free, size)
  }

  ghost predicate CanAppend(g: Geometry, kids: seq<Kid>, fileName: Name, free: nat, more: nat) {
    forall k: nat :: k < |kids| && kids[k].name == Some(fileName) ==>
      kids[k].node.File? && Writable(g, kids[k].node, free, |kids[k].node.bytes| + more)
  }

  /** The walk that the write loop makes from the file's first cluster. */
  lemma WriteWalk(f: seq<nat>, s: seq<nat>, f': seq<nat>, s': seq<nat>, first0: nat, first: nat) returns (w: seq<nat>)
    requires Rechained(f, s, f', s', |s'|) && OwnsChain(f, first0, s) && |f'| <= END_OF_CHAIN && f'[0] == f[0]
    requires first == if s' == [] then first0 else s'[0]
    ensures Walk(f', w) && w[0] == first && (s' != [] ==> Chain(f', s') && w == s')
  {
    if s' != [] {
      w := s';
    } else if s == [] {
      w := [0];
    } else {
      assert s[0] in Elems(s) && Elems(s') == {};
      assert first in Free(f');
      w := [first, 0];
    }
  }

  lemma NoBytes(bytes: seq<byte>, spc: nat)
    requires spc > 0
    ensures bytes == [] <==> Ceil(|bytes|, SECTOR_SIZE * spc) == 0
  {
    CeilRounds(|bytes|, spc);
  }

  lemma ZeroKept(g: Geometry, f: seq<nat>, d: seq<Sector>, free: nat, t: Node, path: seq<Name>, t0: Node, j: nat,
                 f': seq<nat>, s': seq<nat>)
    requires VolumeOk(g, f, d, free, t) && At(t, path) == Some(t0) && t0.Dir? && j < |t0.kids| && t0.kids[j].node.File?
    requires Rechained(f, t0.kids[j].node.chain, f', s', |s'|)
    ensures |f'| == |f| > 0 && f'[0] == f[0]
  {
    hide *;
    FileKid(g, f, d, free, t, path, t0, j);
    VolumeBasics(g, f, d, free, t, path, t0);
    NewClusters(f, t0.kids[j].node.chain, f', s', |s'|);
    RechainedParts(f, t0.kids[j].node.chain, f', s', |s'|);
    FreeRange(f);
    assert 0 !in Elems(t0.kids[j].node.chain) + Elems(s');
  }

  /** What a lookup leads to when a file is to be written. */
  lemma FileToWrite(g: Geometry, f: seq<nat>, d: seq<Sector>, free: nat, t: Node, path: seq<Name>, t0: Node,
                    es: seq<Entry>, at: Place, q: nat, m: nat, j: nat, name: Name, size: nat)
    requires VolumeOk(g, f, d, free, t) && At(t, path) == Some(t0) && t0.Dir? && |f| == g.Limit() <= END_OF_CHAIN
    requires g.Faithful()
    requires InArea(|d|, g.sectorsPerCluster, t0.chain) && es == DirSlots(d, g.sectorsPerCluster, t0.chain)
    requires PlaceOk(g.sectorsPerCluster, d, t0.chain, es, at, q, m, j, name, false)
    requires j < |t0.kids| ==> Writable(g, t0.kids[j].node, free, size)
    ensures at.Place? && |at.dirent| == SLOTS && at.index < SLOTS
    ensures at.cluster >= 2 && Base(g.sectorsPerCluster, at.cluster) + at.offset < |d|
    ensures j < |t0.kids| && t0.kids[j].name == Some(name) && t0.kids[j].node.File? && g.sectorsPerCluster > 0
    ensures var x, e := t0.kids[j].node, at.dirent[at.index];
      && First(e) == FirstShifted(e, g.written) && Size(e) == |x.bytes|
      && OwnsChain(f, First(e), x.chain) && RoundsUp(Size(e), g.sectorsPerCluster, |x.chain|)
      && size < 0x8000_0000 && Guarded(|x.chain|, Ceil(size, SECTOR_SIZE * g.sectorsPerCluster), free)
      && (x.chain == [] <==> x.bytes == [])
  {
    hide *;
    FoundKid(g, f, d, free, t, path, t0, es, at, q, m, j, name);
    KidChain(g, f, d, free, t, path, t0, j);
    WritableParts(g, t0.kids[j].node, free, size);
    FileKid(g, f, d, free, t, path, t0, j);
    NoClusters(|t0.kids[j].node.bytes|, g.sectorsPerCluster, |t0.kids[j].node.chain|);
  }

  lemma NoClusters(size: nat, spc: nat, k: nat)
    requires RoundsUp(size, spc, k)
    ensures size == 0 <==> k == 0
  {
  }

  lemma WritableParts(g: Geometry, x: Node, free: nat, size: nat)
    requires Writable(g, x, free, size)
    ensures x.File? && g.sectorsPerCluster > 0 && size < 0x8000_0000
    ensures Guarded(|x.chain|, Ceil(size, SECTOR_SIZE * g.sectorsPerCluster), free)
  {
  }

  lemma RewriteAllowed(g: Geometry, kids: seq<Kid>, name: Name, free: nat, size: nat, j: nat)
    requires CanRewrite(g, kids, name, free, size)
    ensures j < |kids| && kids[j].name == Some(name) ==> Writable(g, kids[j].node, free, size)
  {
  }

  lemma HoldsCounted(p: Partition, t: Node)
    requires Holds(p, t)
    ensures Counted(p) && p.g.sectorsPerCluster > 0
  {
  }

  /** A count that is off by one belongs to no tree. */
  lemma CountWrong(p: Partition)
    requires p.Sound() && p.freeClusterCount != |Free(p.Fat())|
    ensures StoresNoTree(p)
  {
  }

  lemma FoundName(g: Geometry, f: seq<nat>, d: seq<Sector>, free: nat, t: Node, path: seq<Name>, t0: Node,
                  es: seq<Entry>, at: Place, q: nat, m: nat, j: nat, name: Name)
    requires VolumeOk(g, f, d, free, t) && At(t, path) == Some(t0)
    requires InArea(|d|, g.sectorsPerCluster, t0.chain) && es == DirSlots(d, g.sectorsPerCluster, t0.chain)
    requires PlaceOk(g.sectorsPerCluster, d, t0.chain, es, at, q, m, j, name, false)
    ensures t0.Dir? && j < |t0.kids| && t0.kids[j].name == Some(name)
  {
    VolumeBasics(g, f, d, free, t, path, t0);
    FoundMeans(g, es, t0.chain[0], t0.kids, UpAt(t, path, 0), name, false, j);
  }

  /** What a write of `data` over `was` leaves a file with, if it goes through. */
  ghost predicate Keeps(was: seq<byte>, data: seq<byte>) {
    data == [] ==> was == []
  }

  /** fat.c:771-883. If there is room, the file reads as `data` from then on and everything else in
      the tree is what it was; it keeps the front of its old chain or has it continued with the
      first free clusters. As compiled this needs clusters in the right places. If there is no room,
      nothing changes, or a cluster is lost for good. */
  method RewriteFileByDirCluster(p: Partition, dirFirstClust: nat, fileName: Name, data: seq<byte>, heapOk: bool,
                                 ghost t: Node, ghost path: seq<Name>, ghost t0: Node, ghost es: seq<Entry>)
    returns (r: Writing, ghost t': Node, ghost j: nat, ghost s': seq<nat>)
    requires Holds(p, t) && At(t, path) == Some(t0) && FirstOf(t0) == dirFirstClust && HasEntries(p, t0, es)
    requires 0 !in fileName
    requires CanRewrite(p.g, t0.kids, fileName, p.freeClusterCount, |data|)
    modifies p`freeClusterCount, p.hd.sectors
    ensures r.NoFile? <==> !HasName(t0.kids, fileName)
    ensures r.NoFile? ==> Holds(p, t) && p.Disk() == old(p.Disk()) && p.freeClusterCount == old(p.freeClusterCount)
    ensures !r.NoFile? ==> j < |t0.kids| && t0.kids[j].name == Some(fileName) && t0.kids[j].node.File?
    ensures r.NoSpace? ==>
      (t0.kids[j].node.chain == [] ==> old(p.freeClusterCount) == 0) && p.freeClusterCount == old(p.freeClusterCount)
    ensures r.NoSpace? ==>
      p.Disk() == if t0.kids[j].node.chain == [] then Strayed(p.g, old(p.Disk())) else old(p.Disk())
    ensures r.NoSpace? && (t0.kids[j].node.chain == [] ==> Spared(p.g, old(p.Disk()))) ==>
      Holds(p, t) && p.Fat() == old(p.Fat())
    ensures r.Lost? ==> t0.kids[j].node.chain == [] && old(p.freeClusterCount) > 0
    ensures !r.NoFile? ==>
      (r.Wrote? <==> Affordable(|t0.kids[j].node.chain|, ClustersFor(p.g, |data|), old(p.freeClusterCount), heapOk))
    ensures r.Lost? ==> StoresNoTree(p)
    ensures r.Wrote? ==> Rechained(old(p.Fat()), t0.kids[j].node.chain, p.Fat(), s', ClustersFor(p.g, |data|))
    ensures r.Wrote? || r.Lost? ==> p.Sound() && p.InfoSynced()
    ensures r.Wrote? && Aligned(p.g, s', 0, |data|) ==> EntryWritten(p.g, p.Data(), t0.chain, es, j, s', |data|)
    ensures r.Wrote? && !Keeps(t0.kids[j].node.bytes, data) ==> StoresNoTree(p)
    ensures r.Wrote? && Keeps(t0.kids[j].node.bytes, data) && Aligned(p.g, s', 0, |data|) ==>
      Holds(p, t') && t' == WithFile(t, path, t0, j, s', data)
  {
    hide *;
    HoldsParts(p, t);
    HoldsCounted(p, t);
    DirReadable(p, t, path);
    EntriesReadable(p, t0, es);
    ghost var f, d, free := p.Fat(), p.Data(), p.freeClusterCount;
    VolumeBasics(p.g, f, d, free, t, path, t0);
    AbsentMeans(p.g, es, t0.chain[0], t0.kids, UpAt(t, path, 0), fileName, false);
    t', s' := t, [];
    var at;
    ghost var q, m;
    at, q, m, j := Locate(p, dirFirstClust, fileName, false, t0.chain, es);
    if at.Nowhere? {
      return NoFile, t', j, s';
    }
    FoundName(p.g, f, d, free, t, path, t0, es, at, q, m, j, fileName);
    NameFound(t0.kids, j, fileName);
    RewriteAllowed(p.g, t0.kids, fileName, free, |data|, j);
    WritableParts(p.g, t0.kids[j].node, free, |data|);
    ghost var disk := p.Disk();
    label Found:
    r, t', s' := RewriteAt(p, at, data, heapOk, t, path, t0, es, fileName, q, m, j);
    if r.NoSpace? && t0.kids[j].node.chain != [] {
      DiskSame@Found(p);
      SyncKept@Found(p);
      HoldsNow(p, t);
    } else if r.NoSpace? && Spared(p.g, disk) {
      StrayedSame@Found(p);
      SyncKept@Found(p);
      VolumeKept(p.g, f, d, p.Data(), free, t);
      HoldsNow(p, t);
    }
  }

  /** fat.c:813-876: the entry is found. */
  method RewriteAt(p: Partition, at: Place, data: seq<byte>, heapOk: bool,
                   ghost t: Node, ghost path: seq<Name>, ghost t0: Node, ghost es: seq<Entry>, ghost fileName: Name,
                   ghost q: nat, ghost m: nat, ghost j: nat)
    returns (r: Writing, ghost t': Node, ghost s': seq<nat>)
    requires Holds(p, t) && At(t, path) == Some(t0) && HasEntries(p, t0, es)
    requires PlaceOk(p.g.sectorsPerCluster, p.Data(), t0.chain, es, at, q, m, j, fileName, false)
    requires t0.Dir? && j < |t0.kids| && Writable(p.g, t0.kids[j].node, p.freeClusterCount, |data|)
    modifies p`freeClusterCount, p.hd.sectors
    ensures !r.NoFile? && t0.kids[j].node.File? && p.g.sectorsPerCluster > 0
    ensures (r.NoSpace? && t0.kids[j].node.chain == [] ==> old(p.freeClusterCount) == 0)
    ensures r.Lost? ==> t0.kids[j].node.chain == [] && old(p.freeClusterCount) > 0
    ensures r.NoSpace? ==>
      p.Disk() == if t0.kids[j].node.chain == [] then Strayed(p.g, old(p.Disk())) else old(p.Disk())
    ensures r.NoSpace? ==> p.freeClusterCount == old(p.freeClusterCount)
    ensures r.Wrote? <==> Affordable(|t0.kids[j].node.chain|, ClustersFor(p.g, |data|), old(p.freeClusterCount), heapOk)
    ensures r.Lost? ==> StoresNoTree(p)
    ensures r.Wrote? ==> Rechained(old(p.Fat()), t0.kids[j].node.chain, p.Fat(), s', ClustersFor(p.g, |data|))
    ensures r.Wrote? || r.Lost? ==> p.Sound() && p.InfoSynced()
    ensures r.Wrote? && Aligned(p.g, s', 0, |data|) ==> EntryWritten(p.g, p.Data(), t0.chain, es, j, s', |data|)
    ensures r.Wrote? && !Keeps(t0.kids[j].node.bytes, data) ==> StoresNoTree(p)
    ensures r.Wrote? && Keeps(t0.kids[j].node.bytes, data) && Aligned(p.g, s', 0, |data|) ==>
      Holds(p, t') && t' == WithFile(t, path, t0, j, s', data)
  {
    hide *;
    HoldsParts(p, t);
    HoldsCounted(p, t);
    MountedParts(p);
    ghost var f, d, free := p.Fat(), p.Data(), p.freeClusterCount;
    VolumeBasics(p.g, f, d, free, t, path, t0);
    EntriesAre(p, t0, es);
    t', s' := t, [];
    FileToWrite(p.g, f, d, free, t, path, t0, es, at, q, m, j, fileName, |data|);
    ghost var x := t0.kids[j].node;
    ClustersForIs(p.g, |data|);
    FoundNow(p.g, f, d, free, t, path, t0, es, at, q, m, j, fileName);
    var growth, first;
    ghost var e;
    growth, first, s', e := Resize(p, at, |data|, heapOk, x.chain);
    if growth.Refused? {
      return NoSpace, t', s';
    }
    if growth.Leaked? {
      CountWrong(p);
      return Lost, t', s';
    }
    r := Wrote;
    ResizedChain(p, f, d, at, x.chain, s', e, first, |data|);
    t' := FillFile(p, at, first, data, f, d, free, t, path, t0, es, fileName, q, m, j, e, s');
  }

  /** The entry at hand is that of a file in the tree. */
  ghost predicate Found(g: Geometry, f: seq<nat>, d: seq<Sector>, free: nat, t: Node, path: seq<Name>, t0: Node,
                        es: seq<Entry>, at: Place, q: nat, m: nat, j: nat, name: Name) {
    && VolumeOk(g, f, d, free, t) && At(t, path) == Some(t0) && t0.Dir? && j < |t0.kids| && t0.kids[j].node.File?
    && InArea(|d|, g.sectorsPerCluster, t0.chain) && es == DirSlots(d, g.sectorsPerCluster, t0.chain)
    && PlaceOk(g.sectorsPerCluster, d, t0.chain, es, at, q, m, j, name, false)
    && at.Place? && |at.dirent| == SLOTS && at.index < SLOTS
    && at.cluster >= 2 && Base(g.sectorsPerCluster, at.cluster) + at.offset < |d|
    && OwnsChain(f, First(at.dirent[at.index]), t0.kids[j].node.chain)
    && (t0.kids[j].node.chain == [] <==> t0.kids[j].node.bytes == [])
  }

  lemma FoundNow(g: Geometry, f: seq<nat>, d: seq<Sector>, free: nat, t: Node, path: seq<Name>, t0: Node,
                 es: seq<Entry>, at: Place, q: nat, m: nat, j: nat, name: Name)
    requires VolumeOk(g, f, d, free, t) && At(t, path) == Some(t0) && t0.Dir? && j < |t0.kids| && t0.kids[j].node.File?
    requires InArea(|d|, g.sectorsPerCluster, t0.chain) && es == DirSlots(d, g.sectorsPerCluster, t0.chain)
    requires PlaceOk(g.sectorsPerCluster, d, t0.chain, es, at, q, m, j, name, false)
    requires at.Place? && |at.dirent| == SLOTS && at.index < SLOTS
    requires at.cluster >= 2 && Base(g.sectorsPerCluster, at.cluster) + at.offset < |d|
    requires OwnsChain(f, First(at.dirent[at.index]), t0.kids[j].node.chain)
    requires t0.kids[j].node.chain == [] <==> t0.kids[j].node.bytes == []
    ensures Found(g, f, d, free, t, path, t0, es, at, q, m, j, name)
  {
  }

  lemma FoundParts(g: Geometry, f: seq<nat>, d: seq<Sector>, free: nat, t: Node, path: seq<Name>, t0: Node,
                   es: seq<Entry>, at: Place, q: nat, m: nat, j: nat, name: Name)
    requires Found(g, f, d, free, t, path, t0, es, at, q, m, j, name)
    ensures At(t, path).Some? && t0.Dir? && j < |t0.kids| && t0.kids[j].node.File?
    ensures at.Place? && |at.dirent| == SLOTS && at.index < SLOTS
    ensures at.cluster >= 2 && Base(g.sectorsPerCluster, at.cluster) + at.offset < |d|
    ensures OwnsChain(f, First(at.dirent[at.index]), t0.kids[j].node.chain)
  {
  }

  /** The bytes go where the file now is (fat.c:851-876). */
  method FillFile(p: Partition, at: Place, first: nat, data: seq<byte>, ghost f: seq<nat>, ghost d: seq<Sector>,
                  ghost free: nat, ghost t: Node, ghost path: seq<Name>, ghost t0: Node, ghost es: seq<Entry>,
                  ghost fileName: Name, ghost q: nat, ghost m: nat, ghost j: nat, ghost e: Entry, ghost s': seq<nat>)
    returns (ghost t': Node)
    requires Found(p.g, f, d, free, t, path, t0, es, at, q, m, j, fileName)
    requires Resized(p, f, d, at, t0.kids[j].node.chain, s', e, first, |data|)
    requires |data| < 0x8000_0000
    modifies p.hd.sectors
    ensures p.Sound() && p.InfoSynced() && p.Mounted() && p.Fat() == old(p.Fat())
    ensures Aligned(p.g, s', 0, |data|) ==> EntryWritten(p.g, p.Data(), t0.chain, es, j, s', |data|)
    ensures Keeps(t0.kids[j].node.bytes, data) && Aligned(p.g, s', 0, |data|) ==>
      Holds(p, t') && t' == WithFile(t, path, t0, j, s', data)
    ensures !Keeps(t0.kids[j].node.bytes, data) ==> StoresNoTree(p)
  {
    hide *;
    FoundParts(p.g, f, d, free, t, path, t0, es, at, q, m, j, fileName);
    ghost var x := t0.kids[j].node;
    EmptiedOr(x.bytes, data, s', p.g.sectorsPerCluster);
    ResizedParts(p, f, d, at, x.chain, s', e, first, |data|);
    MountedFits(p);
    FromNothing(data);
    ghost var w := ResizedWalk(p, f, d, free, t, path, t0, es, at, q, m, j, fileName, s', e, first, [], data, data);
    label Ready:
    StoreToChain(p, first, data, w);
    SyncKept@Ready(p);
    t' := t;
    if Keeps(x.bytes, data) {
      t' := WithFile(t, path, t0, j, s', data);
      if Aligned(p.g, s', 0, |data|) {
        HoldsNow(p, t');
      }
    } else {
      EmptiedNow(p, f, d, free, t, path, t0, es, at, q, m, j, fileName, e);
    }
  }

  lemma EmptiedOr(was: seq<byte>, data: seq<byte>, s': seq<nat>, spc: nat)
    ensures !Keeps(was, data) ==> data == [] && was != []
    ensures spc > 0 && |s'| == Ceil(|data|, SECTOR_SIZE * spc) && data == [] ==> s' == []
  {
    if spc > 0 {
      NoBytes(data, spc);
    }
  }

  lemma FromNothing(data: seq<byte>)
    ensures [] + data == data && |[] + data| == |data| && (|data| == 0 <==> data == [])
  {
  }

  /** Where the write loop walks, and what it will have done: it puts `data` behind `was`, which is
      nothing when the file is rewritten and its old bytes when it is appended to. */
  lemma ResizedWalk(p: Partition, f: seq<nat>, d: seq<Sector>, free: nat, t: Node, path: seq<Name>, t0: Node,
                    es: seq<Entry>, at: Place, q: nat, m: nat, j: nat, name: Name, s': seq<nat>, e: Entry, first: nat,
                    was: seq<byte>, data: seq<byte>, bytes: seq<byte>)
    returns (w: seq<nat>)
    requires Found(p.g, f, d, free, t, path, t0, es, at, q, m, j, name)
    requires Resized(p, f, d, at, t0.kids[j].node.chain, s', e, first, |bytes|)
    requires |bytes| < 0x8000_0000 && bytes == was + data && |bytes| == |was| + |data|
    requires (was == [] || was == t0.kids[j].node.bytes)
    ensures p.Sound() && p.Mounted() && p.InfoSynced() && FileWalk(p, first, w, bytes != [])
    ensures bytes != [] ==> LapsFit(|p.Data()|, p.g.sectorsPerCluster, p.g.Lap(), w) && w == s'
    ensures Keeps(t0.kids[j].node.bytes, bytes) && Aligned(p.g, s', |was|, |bytes|) ==>
      var d' := if bytes == [] then p.Data() else AfterLoop(p.Data(), p.g.sectorsPerCluster, p.g.Lap(), w, |was|, data);
      VolumeOk(p.g, p.Fat(), d', p.freeClusterCount, WithFile(t, path, t0, j, s', bytes))
    ensures Aligned(p.g, s', |was|, |bytes|) ==>
      var d' := if bytes == [] then p.Data() else AfterLoop(p.Data(), p.g.sectorsPerCluster, p.g.Lap(), w, |was|, data);
      EntryWritten(p.g, d', t0.chain, es, j, s', |bytes|)
  {
    hide *;
    FoundAgain(p.g, f, d, free, t, path, t0, es, at, q, m, j, name);
    ResizedParts(p, f, d, at, t0.kids[j].node.chain, s', e, first, |bytes|);
    CountedParts(p);
    NoElements(s');
    var x := t0.kids[j].node;
    ZeroKept(p.g, f, d, free, t, path, t0, j, p.Fat(), s');
    w := WriteWalk(f, x.chain, p.Fat(), s', First(at.dirent[at.index]), first);
    WalksFile(p, first, w, s', bytes);
    NoBytes(bytes, p.g.sectorsPerCluster);
    MountedFits(p);
    if bytes != [] {
      LapsFitChain(p, w);
    }
    if Aligned(p.g, s', |was|, |bytes|) {
      var d' := p.Data();
      if bytes == [] {
        FilledNothing(p.g, p.Data());
      } else {
        BytesFit(|bytes|, p.g.sectorsPerCluster, |s'|);
        NewChain(p.g, f, d, free, t, path, t0, j, p.Fat(), s', |s'|);
        OldContents(p.g, f, d, free, t, path, t0, es, at, q, m, j, name, e, p.Fat(), s', was, |data|);
        FilledNow(p.g, p.Data(), s', was, data);
        d' := AfterLoop(p.Data(), p.g.sectorsPerCluster, p.g.Lap(), w, |was|, data);
      }
      EntryWrittenNow(p.g, f, d, free, t, path, t0, es, at, q, m, j, name, e, p.Fat(), s', bytes, d', first);
      if Keeps(x.bytes, bytes) {
        FirstIsFirst(x, s', bytes, at.dirent[at.index], p.g.sectorsPerCluster, f);
        FileReplaced(p.g, f, d, free, t, path, t0, es, at, q, m, j, name, e, p.Fat(), s', bytes, d');
      }
    }
  }

  lemma BytesFit(size: nat, spc: nat, k: nat)
    requires spc > 0 && k == Ceil(size, SECTOR_SIZE * spc)
    ensures size <= SECTOR_SIZE * Times(spc, k)
  {
    CeilRounds(size, spc);
  }

  lemma FoundAgain(g: Geometry, f: seq<nat>, d: seq<Sector>, free: nat, t: Node, path: seq<Name>, t0: Node,
                   es: seq<Entry>, at: Place, q: nat, m: nat, j: nat, name: Name)
    requires Found(g, f, d, free, t, path, t0, es, at, q, m, j, name)
    ensures VolumeOk(g, f, d, free, t) && At(t, path) == Some(t0) && t0.Dir? && j < |t0.kids| && t0.kids[j].node.File?
    ensures InArea(|d|, g.sectorsPerCluster, t0.chain) && es == DirSlots(d, g.sectorsPerCluster, t0.chain)
    ensures PlaceOk(g.sectorsPerCluster, d, t0.chain, es, at, q, m, j, name, false)
    ensures at.Place? && |at.dirent| == SLOTS && at.index < SLOTS
    ensures at.cluster >= 2 && Base(g.sectorsPerCluster, at.cluster) + at.offset < |d|
    ensures OwnsChain(f, First(at.dirent[at.index]), t0.kids[j].node.chain)
    ensures t0.kids[j].node.chain == [] <==> t0.kids[j].node.bytes == []
  {
  }

  lemma ResizedChain(p: Partition, f: seq<nat>, d: seq<Sector>, at: Place, s: seq<nat>, s': seq<nat>, e: Entry,
                     first: nat, size: nat)
    requires Resized(p, f, d, at, s, s', e, first, size)
    ensures p.Mounted() && p.g.sectorsPerCluster > 0 && Rechained(f, s, p.Fat(), s', ClustersFor(p.g, size))
  {
  }

  lemma EntriesAre(p: Partition, t0: Node, es: seq<Entry>)
    requires p.Mounted() && HasEntries(p, t0, es)
    ensures t0.Dir? && InArea(|p.Data()|, p.g.sectorsPerCluster, t0.chain)
    ensures es == DirSlots(p.Data(), p.g.sectorsPerCluster, t0.chain)
  {
  }

  lemma ClustersForIs(g: Geometry, size: nat)
    requires g.sectorsPerCluster > 0
    ensures ClustersFor(g, size) == Ceil(size, SECTOR_SIZE * g.sectorsPerCluster)
  {
  }

  lemma WalksFile(p: Partition, first: nat, w: seq<nat>, s': seq<nat>, data: seq<byte>)
    requires p.Mounted() && Walk(p.Fat(), w) && w[0] == first && (s' != [] ==> Chain(p.Fat(), s') && w == s')
    requires p.g.sectorsPerCluster > 0 && |s'| == Ceil(|data|, SECTOR_SIZE * p.g.sectorsPerCluster)
    ensures FileWalk(p, first, w, data != [])
  {
    NoBytes(data, p.g.sectorsPerCluster);
  }

  lemma FirstIsFirst(x: Node, s': seq<nat>, data: seq<byte>, e: Entry, spc: nat, f: seq<nat>)
    requires x.File? && (x.chain == [] <==> x.bytes == []) && Keeps(x.bytes, data) && spc > 0
    requires |s'| == Ceil(|data|, SECTOR_SIZE * spc) && OwnsChain(f, First(e), x.chain)
    ensures FirstOf(File(s', data)) == if s' == [] then First(e) else s'[0]
  {
    NoBytes(data, spc);
  }

  // ---- rewriting to nothing ----

  lemma EmptiedAround(g: Geometry, f: seq<nat>, d: seq<Sector>, free: nat, t: Node, path: seq<Name>, t0: Node,
                      es: seq<Entry>, at: Place, q: nat, m: nat, j: nat, name: Name, e: Entry, f': seq<nat>)
    requires Found(g, f, d, free, t, path, t0, es, at, q, m, j, name) && AllFit(g, |d|, |f|)
    requires Rechained(f, t0.kids[j].node.chain, f', [], 0)
    ensures InArea(|d|, g.sectorsPerCluster, t0.chain) && t0.chain != [] && Chain(f', t0.chain)
    ensures SameAt(g.sectorsPerCluster, f, d, f', EntryPut(g, d, at, e), Clusters(t) - Clusters(t0))
  {
    hide *;
    FoundAgain(g, f, d, free, t, path, t0, es, at, q, m, j, name);
    VolumeBasics(g, f, d, free, t, path, t0);
    ListedTidy(g, es, t0.chain[0], t0.kids, UpAt(t, path, 0));
    PlaceParts(g, d, t0.chain, es, at, q, m, j, name, false);
    InAreaAt(|d|, g.sectorsPerCluster, t0.chain, q);
    InElems(t0.chain);
    FilledNothing(g, EntryPut(g, d, at, e));
    FilePutAround(g, f, d, free, t, path, t0, j, at, e, f', [], 0, [], EntryPut(g, d, at, e));
    SameOutside(g, f, d, f', EntryPut(g, d, at, e), |Free(f')|, t, t0, j);
  }

  lemma SameOutside(g: Geometry, f: seq<nat>, d: seq<Sector>, f': seq<nat>, d': seq<Sector>, free': nat, t: Node,
                    t0: Node, j: nat)
    requires AroundKid(g, f, d, f', d', free', t, t0, j)
    ensures Chain(f', t0.chain) && SameAt(g.sectorsPerCluster, f, d, f', d', Clusters(t) - Clusters(t0))
  {
    KidClustersIn(t0, j);
    hide Chain;
    assert Elems(t0.chain) <= Clusters(t0);
  }

  /** A tree stored afterwards would have the same directory in the same place. */
  lemma EmptiedWay(g: Geometry, f: seq<nat>, d: seq<Sector>, free: nat, t: Node, path: seq<Name>, t0: Node,
                   es: seq<Entry>, at: Place, q: nat, m: nat, j: nat, name: Name, e: Entry, f': seq<nat>, free': nat,
                   u: Node)
    requires Found(g, f, d, free, t, path, t0, es, at, q, m, j, name) && AllFit(g, |d|, |f|)
    requires Rechained(f, t0.kids[j].node.chain, f', [], 0) && VolumeOk(g, f', EntryPut(g, d, at, e), free', u)
    ensures At(u, path).Some? && At(u, path).value.Dir? && At(u, path).value.chain == t0.chain
    ensures Stored(g, f', EntryPut(g, d, at, e), At(u, path).value, UpAt(u, path, 0))
    ensures InArea(|d|, g.sectorsPerCluster, t0.chain)
  {
    hide *;
    FoundAgain(g, f, d, free, t, path, t0, es, at, q, m, j, name);
    EmptiedAround(g, f, d, free, t, path, t0, es, at, q, m, j, name, e, f');
    var d1 := EntryPut(g, d, at, e);
    VolumeParts(g, f, d, free, t);
    VolumeParts(g, f', d1, free', u);
    SameWay(g, f, d, t, 0, f', d1, u, 0, path);
    AtStored(g, f', d1, u, 0, path);
    VolumeBasics(g, f, d, free, t, path, t0);
    DirStoredParts(g, f', d1, At(u, path).value, UpAt(u, path, 0));
    FirstOfDir(t0);
    WalkOfChain(f', t0.chain);
    WalkOfChain(f', At(u, path).value.chain);
    WalkUnique(f', At(u, path).value.chain, t0.chain);
  }

  lemma FirstOfDir(n: Node)
    requires n.chain != []
    ensures FirstOf(n) == n.chain[0]
  {
  }

  lemma VolumeParts(g: Geometry, f: seq<nat>, d: seq<Sector>, free: nat, t: Node)
    requires VolumeOk(g, f, d, free, t)
    ensures t.Dir? && Proper(t) && FirstOf(t) == g.rootCluster && Stored(g, f, d, t, 0) && free == |Free(f)|
  {
  }

  /** The entry is that of a file without bytes, but with a cluster. */
  lemma EmptiedEntry(g: Geometry, f: seq<nat>, d: seq<Sector>, free: nat, t: Node, path: seq<Name>, t0: Node,
                     es: seq<Entry>, at: Place, q: nat, m: nat, j: nat, name: Name, e: Entry)
    requires Found(g, f, d, free, t, path, t0, es, at, q, m, j, name)
    requires t0.kids[j].node.bytes != [] && EntryFor(at.dirent[at.index], e, First(at.dirent[at.index]), 0)
    ensures InArea(|d|, g.sectorsPerCluster, t0.chain)
    ensures var es' := DirSlots(EntryPut(g, d, at, e), g.sectorsPerCluster, t0.chain);
      && j < |Items(es', 0, 0)| && Items(es', 0, 0)[j].at < |es'|
      && var e' := es'[Items(es', 0, 0)[j].at]; !IsDir(e') && Size(e') == 0 && First(e') != 0
  {
    hide *;
    FoundAgain(g, f, d, free, t, path, t0, es, at, q, m, j, name);
    VolumeBasics(g, f, d, free, t, path, t0);
    var up := UpAt(t, path, 0);
    ListedTidy(g, es, t0.chain[0], t0.kids, up);
    PlaceParts(g, d, t0.chain, es, at, q, m, j, name, false);
    EntryStored(g, d, t0.chain, es, at, q, m, e);
    FoundMeans(g, es, t0.chain[0], t0.kids, up, name, false, j);
    OwnedFirst(f, First(at.dirent[at.index]), t0.kids[j].node.chain);
    EntryInItems(es, m, at, j, e, t0.kids[j]);
  }

  lemma EntryInItems(es: seq<Entry>, m: nat, at: Place, j: nat, e: Entry, kid: Kid)
    requires at.Place? && |at.dirent| == SLOTS && at.index < SLOTS && SLOTS * m + SLOTS <= |es|
    requires j < |Items(es, 0, 0)| && Items(es, 0, 0)[j].at == SLOTS * m + at.index && Tidy(es, 0, 0)
    requires forall k :: 0 <= k < SLOTS ==> at.dirent[k] == es[SLOTS * m + k]
    requires Describes(es[Items(es, 0, 0)[j].at], Items(es, 0, 0)[j], kid) && kid.node.File?
    requires EntryFor(at.dirent[at.index], e, First(at.dirent[at.index]), 0) && First(at.dirent[at.index]) != 0
    ensures var es' := es[SLOTS * m + at.index := e];
      && Items(es', 0, 0) == Items(es, 0, 0)
      && !IsDir(es'[Items(es, 0, 0)[j].at]) && Size(es'[Items(es, 0, 0)[j].at]) == 0
      && First(es'[Items(es, 0, 0)[j].at]) != 0
  {
    ItemPlaced(es, j);
    UpdatedItems(es, SLOTS * m + at.index, e, 0, 0);
    hide Items, Tidy, NameOf, First, Size;
  }

  /** Without bytes, the clusters are gone but the entry still gives the first of them. */
  lemma EmptiedNoTree(g: Geometry, f: seq<nat>, d: seq<Sector>, free: nat, t: Node, path: seq<Name>, t0: Node,
                      es: seq<Entry>, at: Place, q: nat, m: nat, j: nat, name: Name, e: Entry, f': seq<nat>, free': nat,
                      u: Node)
    requires Found(g, f, d, free, t, path, t0, es, at, q, m, j, name) && AllFit(g, |d|, |f|)
    requires t0.kids[j].node.bytes != [] && Rechained(f, t0.kids[j].node.chain, f', [], 0)
    requires EntryFor(at.dirent[at.index], e, First(at.dirent[at.index]), 0)
    ensures !VolumeOk(g, f', EntryPut(g, d, at, e), free', u)
  {
    hide *;
    FoundAgain(g, f, d, free, t, path, t0, es, at, q, m, j, name);
    if VolumeOk(g, f', EntryPut(g, d, at, e), free', u) {
      var d1 := EntryPut(g, d, at, e);
      EmptiedWay(g, f, d, free, t, path, t0, es, at, q, m, j, name, e, f', free', u);
      var u0 := At(u, path).value;
      EmptiedEntry(g, f, d, free, t, path, t0, es, at, q, m, j, name, e);
      NoDanglingEntry(g, f', d1, u0, UpAt(u, path, 0), DirSlots(d1, g.sectorsPerCluster, t0.chain), j);
      assert false;
    }
  }

  lemma EmptiedNow(p: Partition, f: seq<nat>, d: seq<Sector>, free: nat, t: Node, path: seq<Name>, t0: Node,
                   es: seq<Entry>, at: Place, q: nat, m: nat, j: nat, name: Name, e: Entry)
    requires Found(p.g, f, d, free, t, path, t0, es, at, q, m, j, name) && AllFit(p.g, |d|, |f|)
    requires t0.kids[j].node.bytes != [] && p.Mounted() && Rechained(f, t0.kids[j].node.chain, p.Fat(), [], 0)
    requires EntryFor(at.dirent[at.index], e, First(at.dirent[at.index]), 0)
    requires p.Data() == EntryPut(p.g, d, at, e)
    ensures StoresNoTree(p)
  {
    forall u
      ensures !Holds(p, u)
    {
      EmptiedNoTree(p.g, f, d, free, t, path, t0, es, at, q, m, j, name, e, p.Fat(), p.freeClusterCount, u);
    }
  }

  // ---- appending ----

  lemma MoreClusters(spc: nat, size: nat, k: nat, more: nat, l: nat)
    requires spc > 0 && RoundsUp(size, spc, k) && size <= more && l == Ceil(more, SECTOR_SIZE * spc)
    ensures k <= l
  {
    CeilRounds(more, spc);
    if l < k && l < k - 1 {
      TimesGrows(spc, l, k - 1);
    }
  }

  /** A longer chain begins with the same bytes. */
  lemma PrefixContents(d: seq<Sector>, spc: nat, s: seq<nat>, s': seq<nat>, n: nat)
    requires InArea(|d|, spc, s') && |s| <= |s'| && s'[..|s|] == s && n <= SECTOR_SIZE * Times(spc, |s|)
    ensures InArea(|d|, spc, s) && n <= SECTOR_SIZE * Times(spc, |s'|)
    ensures Contents(d, spc, s', n) == Contents(d, spc, s, n)
  {
    assert forall i :: 0 <= i < |s| ==> s[i] == s'[i];
    ChainSectorsPrefix(d, spc, s', |s|);
    hide Join, ChainSectors;
    JoinPrefix(ChainSectors(d, spc, s), ChainSectors(d, spc, s'), n);
  }

  lemma SameContents(g: Geometry, f: seq<nat>, d: seq<Sector>, d': seq<Sector>, s: seq<nat>, n: nat)
    requires SameAt(g.sectorsPerCluster, f, d, f, d', Elems(s)) && InArea(|d|, g.sectorsPerCluster, s)
    requires n <= SECTOR_SIZE * Times(g.sectorsPerCluster, |s|)
    ensures |d'| == |d| && Contents(d', g.sectorsPerCluster, s, n) == Contents(d, g.sectorsPerCluster, s, n)
  {
    ChainSame(g.sectorsPerCluster, f, d, f, d', s);
  }

  /** Before the new bytes are written, the old ones are still there. */
  lemma OldContents(g: Geometry, f: seq<nat>, d: seq<Sector>, free: nat, t: Node, path: seq<Name>, t0: Node,
                    es: seq<Entry>, at: Place, q: nat, m: nat, j: nat, name: Name, e: Entry, f': seq<nat>, s': seq<nat>,
                    was: seq<byte>, more: nat)
    requires Found(g, f, d, free, t, path, t0, es, at, q, m, j, name) && InArea(|d|, g.sectorsPerCluster, s')
    requires Rechained(f, t0.kids[j].node.chain, f', s', |s'|) && g.sectorsPerCluster > 0
    requires was == [] || was == t0.kids[j].node.bytes
    requires |s'| == Ceil(|was| + more, SECTOR_SIZE * g.sectorsPerCluster)
    ensures |was| <= SECTOR_SIZE * Times(g.sectorsPerCluster, |s'|)
    ensures Contents(EntryPut(g, d, at, e), g.sectorsPerCluster, s', |was|) == was
  {
    hide *;
    FoundAgain(g, f, d, free, t, path, t0, es, at, q, m, j, name);
    EntryPutSize(g, d, at, e);
    if was == [] {
      NoContents(EntryPut(g, d, at, e), g.sectorsPerCluster, s');
    } else {
      VolumeBasics(g, f, d, free, t, path, t0);
      ListedTidy(g, es, t0.chain[0], t0.kids, UpAt(t, path, 0));
      PlaceParts(g, d, t0.chain, es, at, q, m, j, name, false);
      InAreaAt(|d|, g.sectorsPerCluster, t0.chain, q);
      InElems(t0.chain);
      FileKid(g, f, d, free, t, path, t0, j);
      var x, d1 := t0.kids[j].node, EntryPut(g, d, at, e);
      FileStoredParts(g, f, d, x.chain, x.bytes);
      MoreClusters(g.sectorsPerCluster, |x.bytes|, |x.chain|, |x.bytes| + more, |s'|);
      EntryPutSame(g, f, d, at, e, Elems(x.chain));
      SameContents(g, f, d, d1, x.chain, |x.bytes|);
      RechainedFront(f, x.chain, f', s');
      PrefixContents(d1, g.sectorsPerCluster, x.chain, s', |x.bytes|);
    }
  }

  lemma NoContents(d: seq<Sector>, spc: nat, s: seq<nat>)
    requires InArea(|d|, spc, s)
    ensures 0 <= SECTOR_SIZE * Times(spc, |s|) && Contents(d, spc, s, 0) == []
  {
  }

  lemma FileStoredParts(g: Geometry, f: seq<nat>, d: seq<Sector>, s: seq<nat>, bytes: seq<byte>)
    requires FileStored(g, f, d, s, bytes)
    ensures InArea(|d|, g.sectorsPerCluster, s) && |bytes| <= SECTOR_SIZE * Times(g.sectorsPerCluster, |s|)
    ensures Contents(d, g.sectorsPerCluster, s, |bytes|) == bytes
  {
  }

  lemma RechainedFront(f: seq<nat>, s: seq<nat>, f': seq<nat>, s': seq<nat>)
    requires Rechained(f, s, f', s', |s'|) && |s| <= |s'|
    ensures s'[..|s|] == s
  {
    assert |s| == |s'| ==> s'[..|s|] == s';
  }

  lemma StillKeeps(was: seq<byte>, data: seq<byte>)
    ensures Keeps(was, was + data)
  {
  }

  /** The new bytes go behind the old ones (fat.c:972-1010). */
  method ExtendFile(p: Partition, at: Place, first: nat, size: nat, data: seq<byte>, ghost f: seq<nat>,
                    ghost d: seq<Sector>, ghost free: nat, ghost t: Node, ghost path: seq<Name>, ghost t0: Node,
                    ghost es: seq<Entry>, ghost fileName: Name, ghost q: nat, ghost m: nat, ghost j: nat,
                    ghost e: Entry, ghost s': seq<nat>)
    returns (ghost t': Node)
    requires Found(p.g, f, d, free, t, path, t0, es, at, q, m, j, fileName)
    requires Resized(p, f, d, at, t0.kids[j].node.chain, s', e, first, size) && size == |t0.kids[j].node.bytes| + |data|
    requires size < 0x8000_0000
    modifies p.hd.sectors
    ensures p.Sound() && p.InfoSynced() && p.Mounted() && p.Fat() == old(p.Fat())
    ensures Aligned(p.g, s', |t0.kids[j].node.bytes|, size) ==> EntryWritten(p.g, p.Data(), t0.chain, es, j, s', size)
    ensures Aligned(p.g, s', |t0.kids[j].node.bytes|, size) ==>
      Holds(p, t') && t' == WithFile(t, path, t0, j, s', t0.kids[j].node.bytes + data)
  {
    hide *;
    FoundParts(p.g, f, d, free, t, path, t0, es, at, q, m, j, fileName);
    ghost var was := t0.kids[j].node.bytes;
    ghost var all := was + data;
    ResizedParts(p, f, d, at, t0.kids[j].node.chain, s', e, first, |all|);
    StillKeeps(was, data);
    Joined(was, data);
    ghost var w := ResizedWalk(p, f, d, free, t, path, t0, es, at, q, m, j, fileName, s', e, first, was, data, all);
    label Ready:
    AppendToChain(p, first, size, data, |was|, w);
    SyncKept@Ready(p);
    t' := WithFile(t, path, t0, j, s', all);
    if Aligned(p.g, s', |was|, size) {
      HoldsNow(p, t');
    }
  }

  lemma Joined(a: seq<byte>, b: seq<byte>)
    ensures |a + b| == |a| + |b| && (|a| + |b| > 0 <==> a + b != [])
  {
  }

  /** fat.c:934-1010: the entry is found. */
  method AppendAt(p: Partition, at: Place, data: seq<byte>, heapOk: bool,
                  ghost t: Node, ghost path: seq<Name>, ghost t0: Node, ghost es: seq<Entry>, ghost fileName: Name,
                  ghost q: nat, ghost m: nat, ghost j: nat)
    returns (r: Writing, ghost t': Node, ghost s': seq<nat>)
    requires Holds(p, t) && At(t, path) == Some(t0) && HasEntries(p, t0, es)
    requires PlaceOk(p.g.sectorsPerCluster, p.Data(), t0.chain, es, at, q, m, j, fileName, false)
    requires t0.Dir? && j < |t0.kids| && t0.kids[j].node.File?
    requires Writable(p.g, t0.kids[j].node, p.freeClusterCount, |t0.kids[j].node.bytes| + |data|)
    modifies p`freeClusterCount, p.hd.sectors
    ensures !r.NoFile? && p.g.sectorsPerCluster > 0
    ensures (r.NoSpace? && t0.kids[j].node.chain == [] ==> old(p.freeClusterCount) == 0)
    ensures r.Lost? ==> t0.kids[j].node.chain == [] && old(p.freeClusterCount) > 0
    ensures r.NoSpace? ==>
      p.Disk() == if t0.kids[j].node.chain == [] then Strayed(p.g, old(p.Disk())) else old(p.Disk())
    ensures r.NoSpace? ==> p.freeClusterCount == old(p.freeClusterCount)
    ensures var n := ClustersFor(p.g, |t0.kids[j].node.bytes| + |data|);
      && (r.Wrote? <==> Affordable(|t0.kids[j].node.chain|, n, old(p.freeClusterCount), heapOk))
      && (r.Wrote? ==> Rechained(old(p.Fat()), t0.kids[j].node.chain, p.Fat(), s', n))
    ensures r.Lost? ==> StoresNoTree(p)
    ensures r.Wrote? || r.Lost? ==> p.Sound() && p.InfoSynced()
    ensures r.Wrote? && Aligned(p.g, s', |t0.kids[j].node.bytes|, |t0.kids[j].node.bytes| + |data|) ==>
      EntryWritten(p.g, p.Data(), t0.chain, es, j, s', |t0.kids[j].node.bytes| + |data|)
    ensures r.Wrote? && Aligned(p.g, s', |t0.kids[j].node.bytes|, |t0.kids[j].node.bytes| + |data|) ==>
      Holds(p, t') && t' == WithFile(t, path, t0, j, s', t0.kids[j].node.bytes + data)
  {
    hide *;
    HoldsParts(p, t);
    HoldsCounted(p, t);
    MountedParts(p);
    ghost var f, d, free := p.Fat(), p.Data(), p.freeClusterCount;
    VolumeBasics(p.g, f, d, free, t, path, t0);
    EntriesAre(p, t0, es);
    t', s' := t, [];
    ghost var x := t0.kids[j].node;
    FileToWrite(p.g, f, d, free, t, path, t0, es, at, q, m, j, fileName, |x.bytes| + |data|);
    var size := Size(at.dirent[at.index]) + |data|;
    ClustersForIs(p.g, size);
    FoundNow(p.g, f, d, free, t, path, t0, es, at, q, m, j, fileName);
    var growth, first;
    ghost var e;
    growth, first, s', e := Resize(p, at, size, heapOk, x.chain);
    if growth.Refused? {
      return NoSpace, t', s';
    }
    if growth.Leaked? {
      CountWrong(p);
      return Lost, t', s';
    }
    r := Wrote;
    ResizedChain(p, f, d, at, x.chain, s', e, first, size);
    t' := ExtendFile(p, at, first, size, data, f, d, free, t, path, t0, es, fileName, q, m, j, e, s');
  }

  lemma AppendAllowed(g: Geometry, kids: seq<Kid>, name: Name, free: nat, more: nat, j: nat)
    requires CanAppend(g, kids, name, free, more) && j < |kids| && kids[j].name == Some(name)
    ensures kids[j].node.File? && Writable(g, kids[j].node, free, |kids[j].node.bytes| + more)
  {
  }

  /** fat.c:892-1017. If there is room, the file reads as its old bytes and then `data` from then
      on, and everything else in the tree is what it was. */
  method AppendToFileByDirCluster(p: Partition, dirFirstClust: nat, fileName: Name, data: seq<byte>, heapOk: bool,
                                  ghost t: Node, ghost path: seq<Name>, ghost t0: Node, ghost es: seq<Entry>)
    returns (r: Writing, ghost t': Node, ghost j: nat, ghost s': seq<nat>)
    requires Holds(p, t) && At(t, path) == Some(t0) && FirstOf(t0) == dirFirstClust && HasEntries(p, t0, es)
    requires 0 !in fileName
    requires CanAppend(p.g, t0.kids, fileName, p.freeClusterCount, |data|)
    modifies p`freeClusterCount, p.hd.sectors
    ensures r.NoFile? <==> !HasName(t0.kids, fileName)
    ensures r.NoFile? ==> Holds(p, t) && p.Disk() == old(p.Disk()) && p.freeClusterCount == old(p.freeClusterCount)
    ensures !r.NoFile? ==> j < |t0.kids| && t0.kids[j].name == Some(fileName) && t0.kids[j].node.File?
    ensures r.NoSpace? ==>
      (t0.kids[j].node.chain == [] ==> old(p.freeClusterCount) == 0) && p.freeClusterCount == old(p.freeClusterCount)
    ensures r.NoSpace? ==>
      p.Disk() == if t0.kids[j].node.chain == [] then Strayed(p.g, old(p.Disk())) else old(p.Disk())
    ensures r.NoSpace? && (t0.kids[j].node.chain == [] ==> Spared(p.g, old(p.Disk()))) ==>
      Holds(p, t) && p.Fat() == old(p.Fat())
    ensures r.Lost? ==> t0.kids[j].node.chain == [] && old(p.freeClusterCount) > 0
    ensures !r.NoFile? ==> var n := ClustersFor(p.g, |t0.kids[j].node.bytes| + |data|);
      && (r.Wrote? <==> Affordable(|t0.kids[j].node.chain|, n, old(p.freeClusterCount), heapOk))
      && (r.Wrote? ==> Rechained(old(p.Fat()), t0.kids[j].node.chain, p.Fat(), s', n))
    ensures r.Lost? ==> StoresNoTree(p)
    ensures r.Wrote? || r.Lost? ==> p.Sound() && p.InfoSynced()
    ensures r.Wrote? && Aligned(p.g, s', |t0.kids[j].node.bytes|, |t0.kids[j].node.bytes| + |data|) ==>
      EntryWritten(p.g, p.Data(), t0.chain, es, j, s', |t0.kids[j].node.bytes| + |data|)
    ensures r.Wrote? && Aligned(p.g, s', |t0.kids[j].node.bytes|, |t0.kids[j].node.bytes| + |data|) ==>
      Holds(p, t') && t' == WithFile(t, path, t0, j, s', t0.kids[j].node.bytes + data)
  {
    hide *;
    HoldsParts(p, t);
    HoldsCounted(p, t);
    DirReadable(p, t, path);
    EntriesReadable(p, t0, es);
    ghost var f, d, free := p.Fat(), p.Data(), p.freeClusterCount;
    VolumeBasics(p.g, f, d, free, t, path, t0);
    AbsentMeans(p.g, es, t0.chain[0], t0.kids, UpAt(t, path, 0), fileName, false);
    t', s' := t, [];
    var at;
    ghost var q, m;
    at, q, m, j := Locate(p, dirFirstClust, fileName, false, t0.chain, es);
    if at.Nowhere? {
      return NoFile, t', j, s';
    }
    FoundName(p.g, f, d, free, t, path, t0, es, at, q, m, j, fileName);
    NameFound(t0.kids, j, fileName);
    AppendAllowed(p.g, t0.kids, fileName, free, |data|, j);
    ghost var disk := p.Disk();
    label Found:
    r, t', s' := AppendAt(p, at, data, heapOk, t, path, t0, es, fileName, q, m, j);
    if r.NoSpace? && t0.kids[j].node.chain != [] {
      DiskSame@Found(p);
      SyncKept@Found(p);
      HoldsNow(p, t);
    } else if r.NoSpace? && Spared(p.g, disk) {
      StrayedSame@Found(p);
      SyncKept@Found(p);
      VolumeKept(p.g, f, d, p.Data(), free, t);
      HoldsNow(p, t);
    }
  }

  // ---- reading ----

  /** fat.c:1090-1133 */
  method IsFileInDir(p: Partition, dirFirstCluster: nat, fileName: Name,
                     ghost t: Node, ghost path: seq<Name>, ghost t0: Node, ghost es: seq<Entry>)
    returns (found: bool)
    requires Holds(p, t) && At(t, path) == Some(t0) && FirstOf(t0) == dirFirstCluster && HasEntries(p, t0, es)
    requires 0 !in fileName
    ensures t0.Dir? && (found <==> HasName(t0.kids, fileName))
  {
    var e;
    ghost var j;
    e, j := FindFileDirEntry(p, dirFirstCluster, fileName, t, path, t0, es);
    found := e.Some?;
  }

  /** fat.c:1141-1185; None stands for the garbage that is returned for a name that is not there. */
  method FindFileDirEntry(p: Partition, dirFirstCluster: nat, fileName: Name,
                          ghost t: Node, ghost path: seq<Name>, ghost t0: Node, ghost es: seq<Entry>)
    returns (e: Option<Entry>, ghost j: nat)
    requires Holds(p, t) && At(t, path) == Some(t0) && FirstOf(t0) == dirFirstCluster && HasEntries(p, t0, es)
    requires 0 !in fileName
    ensures t0.Dir? && (e.Some? <==> HasName(t0.kids, fileName))
    ensures e.Some? ==> j < |t0.kids| && t0.kids[j].name == Some(fileName)
    ensures e.Some? ==> First(e.value) == FirstOf(t0.kids[j].node) && (IsDir(e.value) <==> t0.kids[j].node.Dir?)
    ensures e.Some? ==> Size(e.value) == if t0.kids[j].node.File? then |t0.kids[j].node.bytes| else 0
  {
    hide *;
    HoldsParts(p, t);
    DirReadable(p, t, path);
    EntriesReadable(p, t0, es);
    MountedParts(p);
    ghost var f, d, free := p.Fat(), p.Data(), p.freeClusterCount;
    VolumeBasics(p.g, f, d, free, t, path, t0);
    AbsentMeans(p.g, es, t0.chain[0], t0.kids, UpAt(t, path, 0), fileName, false);
    var at;
    ghost var q, m;
    at, q, m, j := Locate(p, dirFirstCluster, fileName, false, t0.chain, es);
    if at.Nowhere? {
      return None, j;
    }
    FoundKid(p.g, f, d, free, t, path, t0, es, at, q, m, j, fileName);
    NameFound(t0.kids, j, fileName);
    e := Some(at.dirent[at.index]);
  }

  /** fat.c:1380-1395, from the directory on: what is printed is the file's bytes; a directory's
      entry has size 0, and nothing is printed of it. */
  method ReadFile(p: Partition, dirsCluster: nat, fileName: Name,
                  ghost t: Node, ghost path: seq<Name>, ghost t0: Node, ghost es: seq<Entry>)
    returns (out: Option<seq<byte>>, ghost j: nat)
    requires Holds(p, t) && At(t, path) == Some(t0) && FirstOf(t0) == dirsCluster && HasEntries(p, t0, es)
    requires 0 !in fileName
    ensures t0.Dir? && (out.Some? <==> HasName(t0.kids, fileName))
    ensures out.Some? ==> j < |t0.kids| && t0.kids[j].name == Some(fileName)
    ensures out.Some? ==> out.value == if t0.kids[j].node.File? then t0.kids[j].node.bytes else []
  {
    hide *;
    var e;
    e, j := FindFileDirEntry(p, dirsCluster, fileName, t, path, t0, es);
    if e.None? {
      return None, j;
    }
    HoldsParts(p, t);
    MountedParts(p);
    ghost var x := t0.kids[j].node;
    if x.File? {
      FileKid(p.g, p.Fat(), p.Data(), p.freeClusterCount, t, path, t0, j);
      KidChain(p.g, p.Fat(), p.Data(), p.freeClusterCount, t, path, t0, j);
      OwnedFirst(p.Fat(), First(e.value), x.chain);
      FileStoredParts(p.g, p.Fat(), p.Data(), x.chain, x.bytes);
      NoClusters(|x.bytes|, p.g.sectorsPerCluster, |x.chain|);
    }
    var bytes := ReadFileByCluster(p, First(e.value), Size(e.value), x.chain);
    out := Some(bytes);
  }
}
