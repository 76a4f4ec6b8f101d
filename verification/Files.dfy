/** The loops that move a file's bytes between memory and its cluster chain
    (fat.c:851-876, 972-1010, 1192-1221). */
module Files {
  import opened Bytes
  import opened Drives
  import opened FatTable
  import opened Chains
  import opened FileData
  import opened WriteLoops
  import opened Partitions

  /** The walk `s` from a file's first cluster; a file without clusters starts at entry 0. */
  ghost predicate FileWalk(p: Partition, first: nat, s: seq<nat>, hasData: bool)
    requires p.Mounted()
    reads p.hd.sectors
  {
    Walk(p.Fat(), s) && s[0] == first && (hasData ==> Chain(p.Fat(), s))
  }

  lemma JoinMore(ss: seq<Sector>, m: nat, size: nat)
    requires m < |ss| && SECTOR_SIZE * m < size <= SECTOR_SIZE * |ss|
    ensures Join(ss)[..SECTOR_SIZE * m] + ss[m][..Min(SECTOR_SIZE, size - SECTOR_SIZE * m)]
         == Join(ss)[..Min(size, SECTOR_SIZE * (m + 1))]
  {
    forall k | 0 <= k < Min(SECTOR_SIZE, size - SECTOR_SIZE * m)
      ensures Join(ss)[SECTOR_SIZE * m + k] == ss[m][k]
    {
      JoinAt(ss, m, k);
    }
  }

  /** fat.c:1192-1221; `out` is what is printed. A sector more than a cluster has may be read,
      but it is not printed. */
  method ReadFileByCluster(p: Partition, firstCluster: nat, size: nat, ghost s: seq<nat>) returns (out: seq<byte>)
    requires p.Mounted() && size < 0x8000_0000
    requires size > 0 ==> Chain(p.Fat(), s) && s[0] == firstCluster
    requires size > 0 ==> size <= SECTOR_SIZE * Times(p.g.sectorsPerCluster, |s|)
    ensures size > 0 ==> InArea(|p.Data()|, p.g.sectorsPerCluster, s)
    ensures out == if size == 0 then [] else Contents(p.Data(), p.g.sectorsPerCluster, s, size)
  {
    hide Mountable, FatView, Join, ChainSectors, Partition.Data, Partition.Disk, Partition.Fat;
    out := [];
    if size == 0 {
      return;
    }
    LapsFitChain(p, s);
    var spc := p.g.sectorsPerCluster;
    ghost var ss := ChainSectors(p.Data(), spc, s);
    ghost var q, m := 0, 0;
    var remaining: int := size;
    var next := firstCluster;
    while next < END_OF_CHAIN
      invariant q <= |s| && next == if q < |s| then s[q] else p.Fat()[s[|s| - 1]]
      invariant remaining == size - SECTOR_SIZE * m && out == Join(ss)[..Min(size, SECTOR_SIZE * m)]
      invariant remaining > 0 ==> m == Times(spc, q)
      decreases |s| - q
    {
      var fileSector := Base(spc, next);
      var sectorOffset := 0;
      while remaining > 0
        invariant sectorOffset <= spc
        invariant remaining == size - SECTOR_SIZE * m && out == Join(ss)[..Min(size, SECTOR_SIZE * m)]
        invariant remaining > 0 ==> m == Times(spc, q) + sectorOffset
      {
        var buffer := p.ReadData(fileSector + sectorOffset);
        sectorOffset := sectorOffset + 1;
        if sectorOffset > spc {
          break;
        }
        ChainSectorsAt(p.Data(), spc, s, q, sectorOffset - 1);
        JoinMore(ss, m, size);
        out := out + buffer[..Min(SECTOR_SIZE, remaining)];
        remaining := remaining - SECTOR_SIZE;
        m := m + 1;
      }
      next := p.ReadFatEntry(next);
      q := q + 1;
    }
  }

  // ---- the write loops ----

  /** How many bytes of the data lie in the first `m` sectors of a file that had `w` bytes. */
  function Consumed(w: nat, k: nat, m: nat): (n: nat)
    ensures n <= k
  {
    if SECTOR_SIZE * m <= w then 0 else Min(k, SECTOR_SIZE * m - w)
  }

  /** A loop over `w` + `k` bytes stands before sector `m` of the file, sector `o` of lap `q`. */
  ghost predicate LoopAt(w: nat, k: nat, lap: nat, q: nat, o: nat, m: nat, remaining: int, pos: nat) {
    && remaining == w + k - SECTOR_SIZE * m && m <= SectorsOf(w + k) && pos == Consumed(w, k, m)
    && m <= Times(lap, q) + o && (remaining > 0 ==> m == Times(lap, q) + o)
  }

  lemma LoopBegins(w: nat, k: nat, lap: nat)
    ensures LoopAt(w, k, lap, 0, 0, 0, w + k, 0)
  {
  }

  lemma LoopGoesOn(w: nat, k: nat, lap: nat, s: seq<nat>, spc: nat, q: nat, o: nat, m: nat, remaining: int, pos: nat)
    requires LoopAt(w, k, lap, q, o, m, remaining, pos) && remaining > 0 && o < lap && q < |s| && s[q] >= 2
    ensures m < Times(lap, |s|) && m < SectorsOf(w + k) && SECTOR_SIZE * m < w + k
    ensures remaining == w + k - SECTOR_SIZE * m
    ensures pos == Consumed(w, k, m) && LapOf(lap, m) == q && PlaceAt(spc, lap, s, m) == Base(spc, s[q]) + o
    ensures LoopAt(w, k, lap, q, o + 1, m + 1, remaining - SECTOR_SIZE, Consumed(w, k, m + 1))
  {
    hide LapOf, InLap, Base;
    LapUnique(lap, q, o, m);
    TimesGrows(lap, q, |s|);
    SectorCount(w + k, m);
  }

  lemma LapEnds(w: nat, k: nat, lap: nat, q: nat, o: nat, m: nat, remaining: int, pos: nat)
    requires LoopAt(w, k, lap, q, o, m, remaining, pos) && o <= lap && (remaining <= 0 || o == lap)
    ensures LoopAt(w, k, lap, q + 1, 0, m, remaining, pos)
  {
  }

  lemma LoopEnds(d: seq<Sector>, spc: nat, lap: nat, s: seq<nat>, w: nat, data: seq<byte>, m: nat, remaining: int,
                 pos: nat)
    requires LapsFit(|d|, spc, lap, s) && LoopAt(w, |data|, lap, |s|, 0, m, remaining, pos)
    ensures m <= Times(lap, |s|) && m <= SectorsOf(w + |data|)
    ensures Appended(d, spc, lap, s, w, data, m) == AfterLoop(d, spc, lap, s, w, data)
  {
    hide Appended, SectorsOf, Times, LapsFit, LoopAt;
    LoopEnded(w, |data|, lap, |s|, m, remaining, pos);
  }

  lemma LoopEnded(w: nat, k: nat, lap: nat, q: nat, m: nat, remaining: int, pos: nat)
    requires LoopAt(w, k, lap, q, 0, m, remaining, pos)
    ensures m == Min(SectorsOf(w + k), Times(lap, q))
  {
    SectorCount(w + k, m);
  }

  /** The chain's clusters and laps lie in the data area. */
  lemma LapsFitChain(p: Partition, s: seq<nat>)
    requires p.Mounted() && Chain(p.Fat(), s)
    ensures LapsFit(|p.Data()|, p.g.sectorsPerCluster, p.g.sectorsPerCluster + 1, s)
    ensures LapsFit(|p.Data()|, p.g.sectorsPerCluster, p.g.Lap(), s) && InArea(|p.Data()|, p.g.sectorsPerCluster, s)
    ensures Distinct(s) && 0 < p.g.sectorsPerCluster <= p.g.Lap()
  {
    ClustersInArea(p.g, p.hd.sectors.Length, s);
    WalkDistinct(p.Fat(), s);
  }

  lemma IsMounted(p: Partition)
    requires p.Sound()
    ensures p.Mounted()
  {
  }

  /** What one round of the append loop stores. */
  lemma SectorPieces(cur: Sector, w: nat, data: seq<byte>, m: nat, remaining: int, pos: nat, keep: int, n: int)
    requires remaining == w + |data| - SECTOR_SIZE * m > 0 && pos == Consumed(w, |data|, m)
    requires keep == remaining - |data| && n == Min(SECTOR_SIZE, remaining) - if keep > 0 then keep else 0
    ensures remaining - SECTOR_SIZE >= |data| ==>
      SectorAfter(cur, w, data, m) == cur && Consumed(w, |data|, m + 1) == pos
    ensures remaining - SECTOR_SIZE < |data| ==>
      && 0 <= n && pos + n <= |data| && keep < SECTOR_SIZE && Consumed(w, |data|, m + 1) == pos + n
      && (keep > 0 ==>
            keep + n <= SECTOR_SIZE && SectorAfter(cur, w, data, m) == Padded(cur[..keep] + data[pos..pos + n]))
      && (keep <= 0 ==> n <= SECTOR_SIZE && SectorAfter(cur, w, data, m) == Padded(data[pos..pos + n]))
  {
    hide Padded;
    assert cur[..0] + data[pos..pos + 0] == [];
    if remaining - SECTOR_SIZE < |data| && keep <= 0 {
      assert cur[..0] + data[pos..pos + n] == data[pos..pos + n];
    }
  }

  /** One round of fat.c:985-1002, for sector `m` of the file. */
  method AppendSector(p: Partition, sector: nat, data: seq<byte>, remaining: int, at: nat,
                      ghost d: seq<Sector>, ghost s: seq<nat>, ghost w: nat, ghost m: nat)
    returns (pos: nat)
    requires p.Sound() && |d| == |p.Data()| && LapsFit(|d|, p.g.sectorsPerCluster, p.g.Lap(), s)
    requires m < Times(p.g.Lap(), |s|) && m < SectorsOf(w + |data|)
    requires remaining == w + |data| - SECTOR_SIZE * m > 0 && at == Consumed(w, |data|, m)
    requires LapOf(p.g.Lap(), m) < |s| && s[LapOf(p.g.Lap(), m)] >= 2
    requires sector == PlaceAt(p.g.sectorsPerCluster, p.g.Lap(), s, m)
    requires p.Data() == Appended(d, p.g.sectorsPerCluster, p.g.Lap(), s, w, data, m)
    modifies p.hd.sectors
    ensures p.Sound() && p.Fat() == old(p.Fat()) && p.Info() == old(p.Info())
    ensures pos == Consumed(w, |data|, m + 1)
    ensures p.Data() == Appended(d, p.g.sectorsPerCluster, p.g.Lap(), s, w, data, m + 1)
  {
    hide Mountable, FatView, Mirrored, Partition.Data, Partition.Disk, Partition.Fat, Partition.Info;
    hide Appended, PlaceAt, LapOf, Times, SectorAfter, SectorsOf, Consumed, Padded, Geometry.Lap, LapsFit;
    AppendedStep(d, p.g.sectorsPerCluster, p.g.Lap(), s, w, data, m, p.Data(), sector);
    ghost var cur, keep0 := p.Data()[sector], remaining - |data|;
    SectorPieces(cur, w, data, m, remaining, at, keep0, Min(SECTOR_SIZE, remaining) - if keep0 > 0 then keep0 else 0);
    pos := at;
    if remaining - SECTOR_SIZE < |data| {
      var amountToWrite := Min(SECTOR_SIZE, remaining);
      var dataToKeep := remaining - |data|;
      if dataToKeep > 0 {
        amountToWrite := amountToWrite - dataToKeep;
        var front := p.ReadData(sector);
        p.WriteData(sector, front[..dataToKeep] + data[at..at + amountToWrite]);
      } else {
        p.WriteData(sector, data[at..at + amountToWrite]);
      }
      pos := pos + amountToWrite;
    }
  }

  /** The inner loop of fat.c:983-1007: the laps into one cluster. The sectors before the old end are
      left alone, the one that holds it keeps its front, the others are stored whole. */
  method AppendLap(p: Partition, cluster: nat, data: seq<byte>, size: int, at: nat,
                   ghost d: seq<Sector>, ghost s: seq<nat>, ghost q: nat, ghost w: nat, ghost done: nat)
    returns (remaining: int, pos: nat, ghost m: nat)
    requires p.Sound() && |d| == |p.Data()| && LapsFit(|d|, p.g.sectorsPerCluster, p.g.Lap(), s)
    requires q < |s| && cluster == s[q] && LoopAt(w, |data|, p.g.Lap(), q, 0, done, size, at)
    requires done <= Times(p.g.Lap(), |s|)
    requires done <= SectorsOf(w + |data|)
    requires p.Data() == Appended(d, p.g.sectorsPerCluster, p.g.Lap(), s, w, data, done)
    modifies p.hd.sectors
    ensures p.Sound() && p.Fat() == old(p.Fat()) && p.Info() == old(p.Info())
    ensures LoopAt(w, |data|, p.g.Lap(), q + 1, 0, m, remaining, pos) && m <= Times(p.g.Lap(), |s|)
    ensures m <= SectorsOf(w + |data|) && p.Data() == Appended(d, p.g.sectorsPerCluster, p.g.Lap(), s, w, data, m)
  {
    hide *;
    IsMounted(p);
    ClusterOf(|d|, p.g.sectorsPerCluster, p.g.Lap(), s, q);
    var fileSector := Base(p.g.sectorsPerCluster, cluster);
    var sectorOffset := 0;
    var sectorSize: int := SECTOR_SIZE;
    remaining, pos, m := size, at, done;
    while remaining > 0 && sectorOffset < p.g.Lap()  // the test of fat.c:1003 ends the lap
      invariant p.Sound() && p.Fat() == old(p.Fat()) && p.Info() == old(p.Info()) && |d| == |p.Data()|
      invariant sectorOffset <= p.g.Lap() && LoopAt(w, |data|, p.g.Lap(), q, sectorOffset, m, remaining, pos)
      invariant m <= Times(p.g.Lap(), |s|) && m <= SectorsOf(w + |data|)
      invariant p.Data() == Appended(d, p.g.sectorsPerCluster, p.g.Lap(), s, w, data, m)
      decreases p.g.Lap() - sectorOffset
    {
      LoopGoesOn(w, |data|, p.g.Lap(), s, p.g.sectorsPerCluster, q, sectorOffset, m, remaining, pos);
      pos := AppendSector(p, fileSector + sectorOffset, data, remaining, pos, d, s, w, m);
      sectorOffset := sectorOffset + 1;
      m := m + 1;
      remaining := remaining - sectorSize;
      LoopCounts(w, |data|, p.g.Lap(), q, sectorOffset, m, remaining, pos);
    }
    LapEnds(w, |data|, p.g.Lap(), q, sectorOffset, m, remaining, pos);
  }

  lemma ClusterOf(n: nat, spc: nat, lap: nat, s: seq<nat>, q: nat)
    requires LapsFit(n, spc, lap, s) && q < |s|
    ensures s[q] >= 2 && lap > 0
  {
  }

  lemma LoopCounts(w: nat, k: nat, lap: nat, q: nat, o: nat, m: nat, remaining: int, pos: nat)
    requires LoopAt(w, k, lap, q, o, m, remaining, pos)
    ensures m <= SectorsOf(w + k)
  {
  }

  /** The write loop of fat.c:972-1010; `size` is the file's new size, `w` its old one. */
  method AppendToChain(p: Partition, firstCluster: nat, size: nat, data: seq<byte>, ghost w: nat, ghost s: seq<nat>)
    requires p.Sound() && size == w + |data| < 0x8000_0000
    requires FileWalk(p, firstCluster, s, size > 0)
    modifies p.hd.sectors
    ensures p.Sound() && p.Fat() == old(p.Fat()) && p.Info() == old(p.Info())
    ensures size == 0 ==> p.Data() == old(p.Data())
    ensures size > 0 ==> LapsFit(|old(p.Data())|, p.g.sectorsPerCluster, p.g.Lap(), s)
    ensures size > 0 ==> p.Data() == AfterLoop(old(p.Data()), p.g.sectorsPerCluster, p.g.Lap(), s, w, data)
  {
    hide *;
    IsMounted(p);
    ghost var f, d := p.Fat(), p.Data();
    if size > 0 {
      FileWalkChain(p, firstCluster, s);
      LapsFitChain(p, s);
    }
    WalkBegins(p, firstCluster, s, size > 0);
    ghost var q: nat, m: nat := 0, 0;
    var remaining: int, pos: nat := size, 0;
    var next: nat := firstCluster;
    LoopBegins(w, |data|, p.g.Lap());
    AppendedNone(d, p.g.sectorsPerCluster, p.g.Lap(), s, w, data);
    while next < END_OF_CHAIN
      invariant p.Sound() && p.Fat() == f && p.Info() == old(p.Info()) && |d| == |p.Data()|
      invariant Following(f, s, q, next) && q <= |s|
      invariant size == 0 ==> p.Data() == d
      invariant size > 0 ==> LoopAt(w, |data|, p.g.Lap(), q, 0, m, remaining, pos) && m <= Times(p.g.Lap(), |s|)
      invariant size > 0 ==> m <= SectorsOf(w + |data|)
      invariant size > 0 ==> p.Data() == Appended(d, p.g.sectorsPerCluster, p.g.Lap(), s, w, data, m)
      decreases |s| - q
    {
      FollowOn(f, s, q, next);
      if size > 0 {
        remaining, pos, m := AppendLap(p, next, data, remaining, pos, d, s, q, w, m);
      }
      InLimit(p, next);
      next := p.ReadFatEntry(next);
      q := q + 1;
    }
    FollowOn(f, s, q, next);
    if size > 0 {
      LoopEnds(d, p.g.sectorsPerCluster, p.g.Lap(), s, w, data, m, remaining, pos);
    }
  }

  lemma AppendedNone(d: seq<Sector>, spc: nat, lap: nat, s: seq<nat>, w: nat, data: seq<byte>)
    ensures 0 <= Times(lap, |s|) && 0 <= SectorsOf(w + |data|)
    ensures LapsFit(|d|, spc, lap, s) ==> Appended(d, spc, lap, s, w, data, 0) == d
  {
  }

  lemma FileWalkChain(p: Partition, first: nat, s: seq<nat>)
    requires p.Mounted() && FileWalk(p, first, s, true)
    ensures Chain(p.Fat(), s)
  {
  }

  lemma WalkBegins(p: Partition, first: nat, s: seq<nat>, hasData: bool)
    requires p.Mounted() && FileWalk(p, first, s, hasData)
    ensures Following(p.Fat(), s, 0, first)
  {
  }

  lemma InLimit(p: Partition, c: nat)
    requires p.Mounted() && c < |p.Fat()|
    ensures c < p.g.Limit()
  {
  }

  /** The inner loop of fat.c:862-873: one lap of sectors, stored in the cluster `s[q]`. */
  method StoreLap(p: Partition, cluster: nat, data: seq<byte>, size: int, at: nat,
                  ghost d: seq<Sector>, ghost s: seq<nat>, ghost q: nat, ghost done: nat)
    returns (remaining: int, pos: nat, ghost m: nat)
    requires p.Sound() && |d| == |p.Data()| && LapsFit(|d|, p.g.sectorsPerCluster, p.g.Lap(), s)
    requires q < |s| && cluster == s[q] && LoopAt(0, |data|, p.g.Lap(), q, 0, done, size, at)
    requires done <= Times(p.g.Lap(), |s|)
    requires done <= SectorsOf(0 + |data|)
    requires p.Data() == Appended(d, p.g.sectorsPerCluster, p.g.Lap(), s, 0, data, done)
    modifies p.hd.sectors
    ensures p.Sound() && p.Fat() == old(p.Fat()) && p.Info() == old(p.Info())
    ensures LoopAt(0, |data|, p.g.Lap(), q + 1, 0, m, remaining, pos) && m <= Times(p.g.Lap(), |s|)
    ensures m <= SectorsOf(0 + |data|) && p.Data() == Appended(d, p.g.sectorsPerCluster, p.g.Lap(), s, 0, data, m)
  {
    hide *;
    IsMounted(p);
    ClusterOf(|d|, p.g.sectorsPerCluster, p.g.Lap(), s, q);
    var fileSector := Base(p.g.sectorsPerCluster, cluster);
    var sectorOffset := 0;
    var sectorSize: int := SECTOR_SIZE;
    remaining, pos, m := size, at, done;
    while remaining > 0 && sectorOffset < p.g.Lap()  // the test of fat.c:869 ends the lap
      invariant p.Sound() && p.Fat() == old(p.Fat()) && p.Info() == old(p.Info()) && |d| == |p.Data()|
      invariant sectorOffset <= p.g.Lap() && LoopAt(0, |data|, p.g.Lap(), q, sectorOffset, m, remaining, pos)
      invariant m <= Times(p.g.Lap(), |s|) && m <= SectorsOf(0 + |data|)
      invariant p.Data() == Appended(d, p.g.sectorsPerCluster, p.g.Lap(), s, 0, data, m)
      decreases p.g.Lap() - sectorOffset
    {
      LoopGoesOn(0, |data|, p.g.Lap(), s, p.g.sectorsPerCluster, q, sectorOffset, m, remaining, pos);
      AppendedStep(d, p.g.sectorsPerCluster, p.g.Lap(), s, 0, data, m, p.Data(), fileSector + sectorOffset);
      var amountToWrite := Min(sectorSize, remaining);
      PlainSector(p.Data()[fileSector + sectorOffset], data, m, remaining, pos, amountToWrite);
      p.WriteData(fileSector + sectorOffset, data[pos..pos + amountToWrite]);
      pos := pos + amountToWrite;
      sectorOffset := sectorOffset + 1;
      m := m + 1;
      remaining := remaining - sectorSize;
      LoopCounts(0, |data|, p.g.Lap(), q, sectorOffset, m, remaining, pos);
    }
    LapEnds(0, |data|, p.g.Lap(), q, sectorOffset, m, remaining, pos);
  }

  /** What one round of the rewrite loop stores: there are no old bytes to keep. */
  lemma PlainSector(cur: Sector, data: seq<byte>, m: nat, remaining: int, pos: nat, n: int)
    requires remaining == 0 + |data| - SECTOR_SIZE * m > 0 && pos == Consumed(0, |data|, m)
    requires n == Min(SECTOR_SIZE, remaining)
    ensures 0 <= n <= SECTOR_SIZE && pos + n <= |data| && Consumed(0, |data|, m + 1) == pos + n
    ensures SectorAfter(cur, 0, data, m) == Padded(data[pos..pos + n])
  {
    SectorPieces(cur, 0, data, m, remaining, pos, remaining - |data|, n);
  }

  /** The write loop of fat.c:851-876. */
  method StoreToChain(p: Partition, firstCluster: nat, data: seq<byte>, ghost s: seq<nat>)
    requires p.Sound() && |data| < 0x8000_0000
    requires FileWalk(p, firstCluster, s, data != [])
    modifies p.hd.sectors
    ensures p.Sound() && p.Fat() == old(p.Fat()) && p.Info() == old(p.Info())
    ensures data == [] ==> p.Data() == old(p.Data())
    ensures data != [] ==> LapsFit(|old(p.Data())|, p.g.sectorsPerCluster, p.g.Lap(), s)
    ensures data != [] ==> p.Data() == AfterLoop(old(p.Data()), p.g.sectorsPerCluster, p.g.Lap(), s, 0, data)
  {
    hide *;
    IsMounted(p);
    ghost var f, d := p.Fat(), p.Data();
    if data != [] {
      FileWalkChain(p, firstCluster, s);
      LapsFitChain(p, s);
    }
    WalkBegins(p, firstCluster, s, data != []);
    ghost var q: nat, m: nat := 0, 0;
    var remaining: int, pos: nat := |data|, 0;
    var next: nat := firstCluster;
    LoopBegins(0, |data|, p.g.Lap());
    AppendedNone(d, p.g.sectorsPerCluster, p.g.Lap(), s, 0, data);
    while next < END_OF_CHAIN
      invariant p.Sound() && p.Fat() == f && p.Info() == old(p.Info()) && |d| == |p.Data()|
      invariant Following(f, s, q, next) && q <= |s|
      invariant data == [] ==> p.Data() == d
      invariant data != [] ==> LoopAt(0, |data|, p.g.Lap(), q, 0, m, remaining, pos) && m <= Times(p.g.Lap(), |s|)
      invariant data != [] ==> m <= SectorsOf(0 + |data|)
      invariant data != [] ==> p.Data() == Appended(d, p.g.sectorsPerCluster, p.g.Lap(), s, 0, data, m)
      decreases |s| - q
    {
      FollowOn(f, s, q, next);
      if data != [] {
        remaining, pos, m := StoreLap(p, next, data, remaining, pos, d, s, q, m);
      }
      InLimit(p, next);
      next := p.ReadFatEntry(next);
      q := q + 1;
    }
    FollowOn(f, s, q, next);
    if data != [] {
      LoopEnds(d, p.g.sectorsPerCluster, p.g.Lap(), s, 0, data, m, remaining, pos);
    }
  }
}
