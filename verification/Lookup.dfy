/** Looking a name up in a directory: the triple loop over clusters, sectors and entries that
    fat.c repeats at :443-476, :704-736, :779-810, :900-931, :1097-1131, :1149-1183, :1247-1303. */
module Lookup {
  import opened Bytes
  import opened Strings
  import opened FatTable
  import opened Chains
  import opened FileData
  import opened Partitions
  import opened LongNames
  import opened Directories
  import opened Trees

  /** The item that a lookup is for. Path components have to be directories (fat.c:1283). */
  ghost predicate Wanted(es: seq<Entry>, x: Item, name: Name, dirsOnly: bool) {
    x.name == Some(name) && (dirsOnly ==> x.at < |es| && IsDir(es[x.at]))
  }

  /** Reading has come to entry `k`, with `run` long-name entries in hand; `j` items lie behind. */
  ghost predicate Reading(es: seq<Entry>, k: nat, run: nat, j: nat) {
    && run <= k <= |es| && Tidy(es, k, run)
    && (forall l :: 0 <= l < k ==> es[l][0] != 0)
    && j <= |Items(es, 0, 0)| && Items(es, 0, 0)[j..] == Items(es, k, run)
  }

  /** The same, and none of the items behind was wanted. */
  ghost predicate Scanned(es: seq<Entry>, k: nat, run: nat, j: nat, name: Name, dirsOnly: bool) {
    && Reading(es, k, run, j)
    && forall l :: 0 <= l < j ==> !Wanted(es, Items(es, 0, 0)[l], name, dirsOnly)
  }

  ghost predicate Absent(es: seq<Entry>, name: Name, dirsOnly: bool) {
    forall l :: 0 <= l < |Items(es, 0, 0)| ==> !Wanted(es, Items(es, 0, 0)[l], name, dirsOnly)
  }

  ghost predicate FirstWanted(es: seq<Entry>, j: nat, name: Name, dirsOnly: bool) {
    && j < |Items(es, 0, 0)| && Wanted(es, Items(es, 0, 0)[j], name, dirsOnly)
    && forall l :: 0 <= l < j ==> !Wanted(es, Items(es, 0, 0)[l], name, dirsOnly)
  }

  lemma TailStep<T>(all: seq<T>, j: nat, x: T, rest: seq<T>)
    requires j <= |all| && all[j..] == [x] + rest
    ensures j < |all| && all[j] == x && all[j + 1..] == rest
  {
    assert all[j..][1..] == rest && all[j..][0] == x;
  }

  lemma ReadFree(es: seq<Entry>, k: nat, run: nat, j: nat)
    requires Reading(es, k, run, j) && k < |es| && es[k][0] == DELETED
    ensures run == 0 && Reading(es, k + 1, 0, j)
  {
  }

  lemma ReadLong(es: seq<Entry>, k: nat, run: nat, j: nat)
    requires Reading(es, k, run, j) && k < |es| && Live(es[k]) && IsLong(es[k])
    ensures run < SLOTS - 1 && Reading(es, k + 1, run + 1, j)
  {
  }

  lemma ReadDot(es: seq<Entry>, k: nat, run: nat, j: nat)
    requires Reading(es, k, run, j) && k < |es| && Live(es[k]) && !IsLong(es[k]) && IsDot(es[k])
    ensures run == 0 && Reading(es, k + 1, 0, j)
  {
  }

  lemma ReadShort(es: seq<Entry>, k: nat, run: nat, j: nat)
    requires Reading(es, k, run, j) && k < |es| && Live(es[k]) && !IsLong(es[k]) && !IsDot(es[k])
    ensures j < |Items(es, 0, 0)| && Items(es, 0, 0)[j] == Item(NameOf(es[k - run..k]), k, run)
    ensures Reading(es, k + 1, 0, j + 1)
  {
    hide NameOf;
    TailStep(Items(es, 0, 0), j, Item(NameOf(es[k - run..k]), k, run), Items(es, k + 1, 0));
  }

  lemma ReadEnd(es: seq<Entry>, k: nat, run: nat, j: nat)
    requires Reading(es, k, run, j) && (k == |es| || es[k][0] == 0)
    ensures j == |Items(es, 0, 0)|
  {
  }

  lemma ReadBoundary(es: seq<Entry>, k: nat, run: nat, j: nat)
    requires Reading(es, k, run, j) && k % SLOTS == 0
    ensures run == 0
  {
  }

  lemma ScanShort(es: seq<Entry>, k: nat, run: nat, j: nat, name: Name, dirsOnly: bool)
    requires Scanned(es, k, run, j, name, dirsOnly) && k < |es| && Live(es[k]) && !IsLong(es[k]) && !IsDot(es[k])
    ensures j < |Items(es, 0, 0)| && Items(es, 0, 0)[j] == Item(NameOf(es[k - run..k]), k, run)
    ensures !Wanted(es, Items(es, 0, 0)[j], name, dirsOnly) ==> Scanned(es, k + 1, 0, j + 1, name, dirsOnly)
    ensures Wanted(es, Items(es, 0, 0)[j], name, dirsOnly) ==> FirstWanted(es, j, name, dirsOnly)
  {
    hide NameOf, Reading;
    ReadShort(es, k, run, j);
  }

  lemma ScanEnd(es: seq<Entry>, k: nat, run: nat, j: nat, name: Name, dirsOnly: bool)
    requires Scanned(es, k, run, j, name, dirsOnly) && (k == |es| || es[k][0] == 0)
    ensures Absent(es, name, dirsOnly)
  {
    ReadEnd(es, k, run, j);
  }

  datatype Outcome =
    | Found(index: nat, run: nat)   // the short entry, and its long-name entries before it
    | Ended                         // an entry that begins with zero
    | Passed                        // the end of the sector

  /** The loop over one sector's entries (e.g. fat.c:1102-1127). */
  method ScanSector(dirent: seq<Entry>, name: Name, dirsOnly: bool, ghost es: seq<Entry>, ghost from: nat,
                    ghost j0: nat)
    returns (r: Outcome, ghost j: nat)
    requires |dirent| == SLOTS && from + SLOTS <= |es| && es[from..from + SLOTS] == dirent
    requires from % SLOTS == 0 && 0 !in name && Scanned(es, from, 0, j0, name, dirsOnly)
    ensures r.Found? ==> r.index < SLOTS && FirstWanted(es, j, name, dirsOnly)
    ensures r.Found? ==> Items(es, 0, 0)[j].at == from + r.index && Items(es, 0, 0)[j].run == r.run
    ensures r.Ended? ==> Absent(es, name, dirsOnly)
    ensures r.Passed? ==> Scanned(es, from + SLOTS, 0, j, name, dirsOnly)
  {
    var lfnEnt: seq<Entry> := [];
    var i := 0;
    j := j0;
    hide Items, Tidy, Reading, Absent, FirstWanted, LongName, RawName;
    while i < SLOTS
      invariant |lfnEnt| <= i <= SLOTS && Scanned(es, from + i, |lfnEnt|, j, name, dirsOnly)
      invariant lfnEnt == es[from + i - |lfnEnt|..from + i]
    {
      ghost var k := from + i;
      assert es[from..from + SLOTS][i] == dirent[i] == es[k];
      if dirent[i][0] == 0 {
        ScanEnd(es, k, |lfnEnt|, j, name, dirsOnly);
        return Ended, j;
      }
      if dirent[i][0] == DELETED {
        ReadFree(es, k, |lfnEnt|, j);
      } else if IsLong(dirent[i]) {
        ReadLong(es, k, |lfnEnt|, j);
        lfnEnt := lfnEnt + [dirent[i]];
      } else {
        var hit := false;
        if |lfnEnt| > 0 {
          hit := SameName(lfnEnt, name);
        }
        if IsDot(dirent[i]) {
          ReadDot(es, k, |lfnEnt|, j);
        } else {
          ScanShort(es, k, |lfnEnt|, j, name, dirsOnly);
          if hit && (dirsOnly ==> IsDir(dirent[i])) {
            return Found(i, |lfnEnt|), j;
          }
          j := j + 1;
        }
        lfnEnt := [];
      }
      i := i + 1;
    }
    ReadBoundary(es, from + SLOTS, |lfnEnt|, j);
    r := Passed;
  }

  /** Rebuilding the long name and comparing it (e.g. fat.c:1116-1120). */
  method SameName(lfnEnt: seq<Entry>, name: Name) returns (same: bool)
    requires |lfnEnt| <= MAX_PARTS && 0 !in name
    ensures same <==> LongName(lfnEnt) == name
  {
    var nameBuff := new byte[NAME_BUFFER](i => 0);
    ReadLongFilename(lfnEnt, nameBuff);
    var cmp := Strcmp(name + [0], nameBuff[..]);
    CStrTerminated(name, []);
    assert name + [0] + [] == name + [0];
    same := cmp == 0;
  }

  /** Where a name was found: sector and entry, and the sector's entries. */
  datatype Place = Nowhere | Place(cluster: nat, offset: nat, index: nat, run: nat, dirent: seq<Entry>)

  /** `s` is the chain of a directory with the entries `es`, which the loops can read. */
  ghost predicate Readable(p: Partition, s: seq<nat>, es: seq<Entry>)
    requires p.Mounted()
    reads p.hd.sectors
  {
    && Chain(p.Fat(), s) && InArea(|p.Data()|, p.g.sectorsPerCluster, s)
    && es == DirSlots(p.Data(), p.g.sectorsPerCluster, s)
    && Tidy(es, 0, 0)
    && (p.g.written ==> EndsEarly(es, p.g.sectorsPerCluster))
  }

  /** `at` is entry `at.index` of sector `m` of the directory, in cluster `s[q]`; it is the
      short entry of item `j`, the first one wanted. */
  ghost predicate PlaceOk(spc: nat, d: seq<Sector>, s: seq<nat>, es: seq<Entry>, at: Place, q: nat, m: nat,
                          j: nat, name: Name, dirsOnly: bool)
  {
    && at.Place? && q < |s| && at.cluster == s[q] && at.cluster >= 2 && at.offset < spc && at.index < SLOTS
    && m == Times(spc, q) + at.offset
    && Base(spc, at.cluster) + at.offset < |d|
    && at.dirent == Slots(d[Base(spc, at.cluster) + at.offset])
    && FirstWanted(es, j, name, dirsOnly)
    && Items(es, 0, 0)[j].at == SLOTS * m + at.index && Items(es, 0, 0)[j].run == at.run
  }

  lemma SectorSlots(d: seq<Sector>, spc: nat, s: seq<nat>, q: nat, o: nat, from: nat)
    requires InArea(|d|, spc, s) && q < |s| && o < spc && from == SLOTS * (Times(spc, q) + o)
    ensures from + SLOTS <= |DirSlots(d, spc, s)|
    ensures DirSlots(d, spc, s)[from..from + SLOTS] == Slots(d[Base(spc, s[q]) + o])
  {
    ChainSectorsAt(d, spc, s, q, o);
    AllSlotsAt(ChainSectors(d, spc, s), Times(spc, q) + o);
  }

  /** The compiled loops do not get to the foreign sector of the first cluster. */
  lemma EndsBefore(es: seq<Entry>, spc: nat, k: nat, j: nat, name: Name, dirsOnly: bool)
    requires Scanned(es, k, 0, j, name, dirsOnly) && EndsEarly(es, spc)
    ensures k < SLOTS * spc
  {
  }

  lemma ReadableSector(p: Partition, s: seq<nat>, es: seq<Entry>, q: nat, o: nat, m: nat)
    requires p.Mounted() && Readable(p, s, es) && q < |s| && o < p.g.sectorsPerCluster
    requires m == Times(p.g.sectorsPerCluster, q) + o
    ensures s[q] >= 2 && Base(p.g.sectorsPerCluster, s[q]) + o < |p.Data()|
    ensures SLOTS * m + SLOTS <= |es|
    ensures es[SLOTS * m..SLOTS * m + SLOTS] == Slots(p.Data()[Base(p.g.sectorsPerCluster, s[q]) + o])
    ensures p.g.written ==> EndsEarly(es, p.g.sectorsPerCluster)
  {
    SectorSlots(p.Data(), p.g.sectorsPerCluster, s, q, o, SLOTS * m);
  }

  lemma SlotCount(s: Sector)
    ensures |Slots(s)| == SLOTS
  {
  }

  lemma NextSector(m: nat)
    ensures (SLOTS * m) % SLOTS == 0 && SLOTS * (m + 1) == SLOTS * m + SLOTS
  {
  }

  lemma PlaceNow(p: Partition, s: seq<nat>, es: seq<Entry>, at: Place, q: nat, m: nat, j: nat, name: Name,
                 dirsOnly: bool)
    requires p.Mounted() && at.Place? && q < |s| && at.cluster == s[q] >= 2 && at.offset < p.g.sectorsPerCluster
    requires at.index < SLOTS
    requires m == Times(p.g.sectorsPerCluster, q) + at.offset
    requires Base(p.g.sectorsPerCluster, at.cluster) + at.offset < |p.Data()|
    requires at.dirent == Slots(p.Data()[Base(p.g.sectorsPerCluster, at.cluster) + at.offset])
    requires FirstWanted(es, j, name, dirsOnly)
    requires Items(es, 0, 0)[j].at == SLOTS * m + at.index && Items(es, 0, 0)[j].run == at.run
    ensures PlaceOk(p.g.sectorsPerCluster, p.Data(), s, es, at, q, m, j, name, dirsOnly)
  {
  }

  /** One round of the sector loop (e.g. fat.c:1101-1127). */
  method LocateInSector(p: Partition, cluster: nat, offset: nat, name: Name, dirsOnly: bool,
                        ghost s: seq<nat>, ghost es: seq<Entry>, ghost q: nat, ghost m: nat, ghost j0: nat)
    returns (at: Place, moreEnt: bool, ghost j: nat)
    requires p.Mounted() && Readable(p, s, es) && 0 !in name && q < |s| && cluster == s[q]
    requires offset < p.g.sectorsPerCluster && m == Times(p.g.sectorsPerCluster, q) + offset
    requires Scanned(es, SLOTS * m, 0, j0, name, dirsOnly)
    ensures at.Place? ==> PlaceOk(p.g.sectorsPerCluster, p.Data(), s, es, at, q, m, j, name, dirsOnly)
    ensures at.Nowhere? && !moreEnt ==> Absent(es, name, dirsOnly)
    ensures at.Nowhere? && moreEnt ==> Scanned(es, SLOTS * (m + 1), 0, j, name, dirsOnly)
  {
    hide *;
    ReadableSector(p, s, es, q, offset, m);
    NextSector(m);
    var sector := p.ReadData(Base(p.g.sectorsPerCluster, cluster) + offset);
    var dirent := Slots(sector);
    SlotCount(sector);
    var r;
    r, j := ScanSector(dirent, name, dirsOnly, es, SLOTS * m, j0);
    at := if r.Found? then Place(cluster, offset, r.index, r.run, dirent) else Nowhere;
    if r.Found? {
      PlaceNow(p, s, es, at, q, m, j, name, dirsOnly);
    }
    moreEnt := !r.Ended?;
  }

  /** The loop over one cluster's sectors (e.g. fat.c:1100-1128). */
  method LocateInCluster(p: Partition, cluster: nat, name: Name, dirsOnly: bool,
                         ghost s: seq<nat>, ghost es: seq<Entry>, ghost q: nat, ghost j0: nat)
    returns (at: Place, moreEnt: bool, ghost m: nat, ghost j: nat)
    requires p.Mounted() && Readable(p, s, es) && 0 !in name && q < |s| && cluster == s[q]
    requires p.g.written ==> q == 0
    requires Scanned(es, SLOTS * Times(p.g.sectorsPerCluster, q), 0, j0, name, dirsOnly)
    ensures at.Place? ==> PlaceOk(p.g.sectorsPerCluster, p.Data(), s, es, at, q, m, j, name, dirsOnly)
    ensures at.Nowhere? && !moreEnt ==> Absent(es, name, dirsOnly)
    ensures at.Nowhere? && moreEnt ==> !p.g.written
    ensures at.Nowhere? && moreEnt ==> Scanned(es, SLOTS * Times(p.g.sectorsPerCluster, q + 1), 0, j, name, dirsOnly)
  {
    hide Partition.Data, Partition.Fat, Chain, Scanned, Absent, PlaceOk, Tidy, Items, FatView, Mirrored, Base, AllSlots;
    ghost var spc := p.g.sectorsPerCluster;
    var offset := 0;
    at, moreEnt, m, j := Nowhere, true, Times(spc, q), j0;
    while offset < p.g.Lap() && at.Nowhere? && moreEnt
      invariant offset <= spc && (at.Nowhere? ==> m == Times(spc, q) + offset)
      invariant at.Nowhere? && moreEnt && p.g.written ==> offset < spc
      invariant at.Place? ==> PlaceOk(spc, p.Data(), s, es, at, q, m, j, name, dirsOnly)
      invariant at.Nowhere? && !moreEnt ==> Absent(es, name, dirsOnly)
      invariant at.Nowhere? && moreEnt ==> Scanned(es, SLOTS * m, 0, j, name, dirsOnly)
    {
      at, moreEnt, j := LocateInSector(p, cluster, offset, name, dirsOnly, s, es, q, m, j);
      offset := offset + 1;
      if at.Nowhere? {
        m := m + 1;
        if p.g.written && moreEnt {
          EndsBefore(es, spc, SLOTS * m, j, name, dirsOnly);
        }
      }
    }
  }

  /** The whole lookup: the first wanted item and its place, or none. A path component is a
      directory (fat.c:1283); other lookups take any entry with the name. */
  method Locate(p: Partition, dirFirstCluster: nat, name: Name, dirsOnly: bool, ghost s: seq<nat>, ghost es: seq<Entry>)
    returns (at: Place, ghost q: nat, ghost m: nat, ghost j: nat)
    requires p.Mounted() && Readable(p, s, es) && 0 !in name && s[0] == dirFirstCluster
    ensures at.Place? ==> PlaceOk(p.g.sectorsPerCluster, p.Data(), s, es, at, q, m, j, name, dirsOnly)
    ensures at.Nowhere? ==> Absent(es, name, dirsOnly)
  {
    hide *;
    ghost var f := p.Fat();
    var next: nat := dirFirstCluster;
    var moreEnt := true;
    at, q, m, j := Nowhere, 0, 0, 0;
    ghost var k: nat := 0;
    ScanBegins(p, s, es, name, dirsOnly);
    while moreEnt && next < END_OF_CHAIN && at.Nowhere?
      invariant at.Nowhere? && moreEnt ==> Following(f, s, k, next) && AtCluster(p.g, es, k, j, name, dirsOnly)
      invariant at.Nowhere? && !moreEnt ==> Absent(es, name, dirsOnly)
      invariant at.Place? ==> PlaceOk(p.g.sectorsPerCluster, p.Data(), s, es, at, q, m, j, name, dirsOnly)
      decreases if at.Nowhere? && moreEnt then |s| - k + 1 else 0
    {
      q := k;
      FollowOn(f, s, k, next);
      ClusterToScan(p.g, es, k, j, name, dirsOnly);
      at, moreEnt, m, j := LocateInCluster(p, next, name, dirsOnly, s, es, k, j);
      next := p.ReadFatEntry(next);
      k := k + 1;
      if at.Nowhere? && moreEnt {
        ClusterScanned(p.g, es, k, j, name, dirsOnly);
      }
    }
    if at.Nowhere? && moreEnt {
      FollowOn(f, s, k, next);
      AllScanned(p, s, es, k, j, name, dirsOnly);
    }
  }

  /** Scanning stands before cluster `k`; as compiled, it does not come to a second one. */
  ghost predicate AtCluster(g: Geometry, es: seq<Entry>, k: nat, j: nat, name: Name, dirsOnly: bool) {
    Scanned(es, SLOTS * Times(g.sectorsPerCluster, k), 0, j, name, dirsOnly) && (g.written ==> k == 0)
  }

  lemma ClusterToScan(g: Geometry, es: seq<Entry>, k: nat, j: nat, name: Name, dirsOnly: bool)
    requires AtCluster(g, es, k, j, name, dirsOnly)
    ensures Scanned(es, SLOTS * Times(g.sectorsPerCluster, k), 0, j, name, dirsOnly) && (g.written ==> k == 0)
  {
  }

  lemma ClusterScanned(g: Geometry, es: seq<Entry>, k: nat, j: nat, name: Name, dirsOnly: bool)
    requires Scanned(es, SLOTS * Times(g.sectorsPerCluster, k), 0, j, name, dirsOnly) && !g.written
    ensures AtCluster(g, es, k, j, name, dirsOnly)
  {
  }

  lemma ScanBegins(p: Partition, s: seq<nat>, es: seq<Entry>, name: Name, dirsOnly: bool)
    requires p.Mounted() && Readable(p, s, es)
    ensures Following(p.Fat(), s, 0, s[0]) && AtCluster(p.g, es, 0, 0, name, dirsOnly)
  {
  }

  lemma AllScanned(p: Partition, s: seq<nat>, es: seq<Entry>, k: nat, j: nat, name: Name, dirsOnly: bool)
    requires p.Mounted() && Readable(p, s, es) && k == |s| && AtCluster(p.g, es, k, j, name, dirsOnly)
    ensures Absent(es, name, dirsOnly)
  {
    hide Absent, Scanned;
    ScanEnd(es, |es|, 0, j, name, dirsOnly);
  }
}
