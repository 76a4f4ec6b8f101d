/** Creating files and directories (fat.c:335-428, 504-644). */
module Creation {
  import opened Bytes
  import opened FatTable
  import opened Chains
  import opened FileData
  import opened Partitions
  import opened LongNames
  import opened Directories
  import opened Trees
  import opened Lookup
  import opened Volumes
  import opened SlotScan
  import opened Placement

  /** A sector with room: its cluster, its offset there, the entry to use and all its entries. */
  datatype Room = Full | Room(cluster: nat, offset: nat, index: nat, dirent: seq<Entry>)

  ghost predicate RoomOk(spc: nat, d: seq<Sector>, s: seq<nat>, r: Room, q: nat, m: nat, pick: Option<nat>) {
    && r.Room? && q < |s| && r.cluster == s[q] && r.cluster >= 2 && r.offset < spc && r.index < SLOTS
    && m == Times(spc, q) + r.offset && Base(spc, r.cluster) + r.offset < |d|
    && r.dirent == Slots(d[Base(spc, r.cluster) + r.offset])
    && pick == Some(SLOTS * m + r.index)
  }

  /** The search goes on from sector `m`, towards `pick`. */
  ghost predicate Searched(es: seq<Entry>, n: nat, m: nat, pick: Option<nat>) {
    pick == PickSlot(es, n, m)
  }

  /** The search stands before sector `m` of the directory, number `offset` of cluster `q`. */
  ghost predicate BeforeSector(g: Geometry, es: seq<Entry>, n: nat, q: nat, offset: nat, m: nat, pick: Option<nat>) {
    && offset <= g.sectorsPerCluster && m == Times(g.sectorsPerCluster, q) + offset
    && (g.written ==> q == 0 && offset < g.sectorsPerCluster && InFirstCluster(g, pick))
    && Searched(es, n, m, pick)
  }

  lemma ClusterBegins(g: Geometry, es: seq<Entry>, n: nat, q: nat, pick: Option<nat>)
    requires g.sectorsPerCluster > 0 && (g.written ==> q == 0 && InFirstCluster(g, pick))
    requires Searched(es, n, Times(g.sectorsPerCluster, q), pick)
    ensures BeforeSector(g, es, n, q, 0, Times(g.sectorsPerCluster, q), pick)
  {
  }

  lemma SectorPassed(g: Geometry, es: seq<Entry>, n: nat, q: nat, offset: nat, m: nat, pick: Option<nat>)
    requires BeforeSector(g, es, n, q, offset, m, pick) && offset < g.Lap()
    requires Searched(es, n, m + 1, pick)
    ensures BeforeSector(g, es, n, q, offset + 1, m + 1, pick)
  {
    PickedLater(es, n, m + 1);
  }

  lemma ClusterPassed(g: Geometry, es: seq<Entry>, n: nat, q: nat, offset: nat, m: nat, pick: Option<nat>)
    requires BeforeSector(g, es, n, q, offset, m, pick) && offset >= g.Lap()
    ensures !g.written && Searched(es, n, Times(g.sectorsPerCluster, q + 1), pick)
  {
  }

  /** One round of the sector loop of fat.c:377-395. */
  method RoomInSector(p: Partition, cluster: nat, offset: nat, n: nat, ghost s: seq<nat>, ghost es: seq<Entry>,
                      ghost q: nat, ghost m: nat, ghost pick: Option<nat>)
    returns (r: Room)
    requires p.Mounted() && Readable(p, s, es) && q < |s| && cluster == s[q]
    requires offset < p.g.Lap() && BeforeSector(p.g, es, n, q, offset, m, pick)
    ensures r.Room? ==> RoomOk(p.g.sectorsPerCluster, p.Data(), s, r, q, m, pick)
    ensures r.Full? ==> Searched(es, n, m + 1, pick)
  {
    hide *;
    SectorToSearch(p, offset, n, s, es, q, m, pick);
    var sector := p.ReadData(Base(p.g.sectorsPerCluster, cluster) + offset);
    var dirent := Slots(sector);
    SlotCount(sector);
    PickHere(es, n, m, dirent, pick);
    var index, len := FindSlot(dirent, n);
    r := if len > n then Room(cluster, offset, index, dirent) else Full;
    if len > n {
      RoomNow(p.g.sectorsPerCluster, p.Data(), s, r, q, m, pick);
    }
  }

  lemma SectorToSearch(p: Partition, offset: nat, n: nat, s: seq<nat>, es: seq<Entry>, q: nat, m: nat,
                       pick: Option<nat>)
    requires p.Mounted() && Readable(p, s, es) && q < |s|
    requires offset < p.g.Lap() && BeforeSector(p.g, es, n, q, offset, m, pick)
    ensures offset < p.g.sectorsPerCluster && m == Times(p.g.sectorsPerCluster, q) + offset && Searched(es, n, m, pick)
    ensures s[q] >= 2 && Base(p.g.sectorsPerCluster, s[q]) + offset < |p.Data()| && SLOTS * (m + 1) <= |es|
    ensures SLOTS * m >= 0
    ensures es[SLOTS * m..SLOTS * m + SLOTS] == Slots(p.Data()[Base(p.g.sectorsPerCluster, s[q]) + offset])
  {
    hide Tidy, Searched, Slots, DirSlots, Chain, FatView, Partition.Fat, Partition.Data;
    SectorSlots(p.Data(), p.g.sectorsPerCluster, s, q, offset, SLOTS * m);
  }

  lemma RoomNow(spc: nat, d: seq<Sector>, s: seq<nat>, r: Room, q: nat, m: nat, pick: Option<nat>)
    requires r.Room? && q < |s| && r.cluster == s[q] >= 2 && r.offset < spc && r.index < SLOTS
    requires m == Times(spc, q) + r.offset && Base(spc, r.cluster) + r.offset < |d|
    requires r.dirent == Slots(d[Base(spc, r.cluster) + r.offset]) && pick == Some(SLOTS * m + r.index)
    ensures RoomOk(spc, d, s, r, q, m, pick)
  {
  }

  /** The loop over one cluster (fat.c:375-422). */
  method RoomInCluster(p: Partition, cluster: nat, n: nat, ghost s: seq<nat>, ghost es: seq<Entry>, ghost q: nat,
                       ghost pick: Option<nat>)
    returns (r: Room, ghost m: nat)
    requires p.Mounted() && Readable(p, s, es) && q < |s| && cluster == s[q]
    requires p.g.written ==> q == 0 && InFirstCluster(p.g, pick)
    requires Searched(es, n, Times(p.g.sectorsPerCluster, q), pick)
    ensures r.Room? ==> RoomOk(p.g.sectorsPerCluster, p.Data(), s, r, q, m, pick)
    ensures r.Full? ==> !p.g.written && Searched(es, n, Times(p.g.sectorsPerCluster, q + 1), pick)
  {
    hide *;
    var offset := 0;
    r, m := Full, Times(p.g.sectorsPerCluster, q);
    SomeSectors(p);
    ClusterBegins(p.g, es, n, q, pick);
    while offset < p.g.Lap() && r.Full?
      invariant r.Room? ==> RoomOk(p.g.sectorsPerCluster, p.Data(), s, r, q, m, pick)
      invariant r.Full? ==> BeforeSector(p.g, es, n, q, offset, m, pick)
    {
      r := RoomInSector(p, cluster, offset, n, s, es, q, m, pick);
      if r.Full? {
        SectorPassed(p.g, es, n, q, offset, m, pick);
        m := m + 1;
      }
      offset := offset + 1;
    }
    if r.Full? {
      ClusterPassed(p.g, es, n, q, offset, m, pick);
    }
  }

  lemma SomeSectors(p: Partition)
    requires p.Mounted()
    ensures p.g.sectorsPerCluster > 0
  {
  }

  lemma PickHere(es: seq<Entry>, n: nat, m: nat, dirent: seq<Entry>, pick: Option<nat>)
    requires Searched(es, n, m, pick) && SLOTS * (m + 1) <= |es|
    requires |dirent| == SLOTS && es[SLOTS * m..SLOTS * m + SLOTS] == dirent
    ensures RoomFrom(dirent, 0, 0, n) > n ==> pick == Some(SLOTS * m + FreeIndex(dirent, 0))
    ensures RoomFrom(dirent, 0, 0, n) <= n ==> Searched(es, n, m + 1, pick)
  {
    assert es[SLOTS * m..SLOTS * (m + 1)] == dirent;
  }

  /** As compiled, the search has to succeed in the directory's first cluster. */
  predicate InFirstCluster(g: Geometry, p: Option<nat>) {
    p.Some? && p.value < SLOTS * g.sectorsPerCluster
  }

  ghost predicate BeforeCluster(g: Geometry, es: seq<Entry>, n: nat, k: nat, pick: Option<nat>) {
    (g.written ==> k == 0 && InFirstCluster(g, pick)) && Searched(es, n, Times(g.sectorsPerCluster, k), pick)
  }

  /** The search for room in a directory (fat.c:374-425). */
  method FindRoom(p: Partition, dirCluster: nat, n: nat, ghost s: seq<nat>, ghost es: seq<Entry>,
                  ghost pick: Option<nat>)
    returns (r: Room, ghost q: nat, ghost m: nat)
    requires p.Mounted() && Readable(p, s, es) && s[0] == dirCluster && pick == PickSlot(es, n, 0)
    requires p.g.written ==> InFirstCluster(p.g, pick)
    ensures r.Room? ==> RoomOk(p.g.sectorsPerCluster, p.Data(), s, r, q, m, pick)
    ensures r.Full? ==> pick == None
  {
    hide *;
    ghost var f := p.Fat();
    var next: nat := dirCluster;
    r, q, m := Full, 0, 0;
    SearchBegins(p, dirCluster, n, s, es, pick);
    while r.Full? && next < END_OF_CHAIN
      invariant r.Full? ==> Following(f, s, q, next) && BeforeCluster(p.g, es, n, q, pick)
      invariant r.Room? ==> RoomOk(p.g.sectorsPerCluster, p.Data(), s, r, q, m, pick)
      decreases if r.Full? then |s| - q + 1 else 0
    {
      FollowOn(f, s, q, next);
      ClusterSearch(p.g, es, n, q, pick);
      r, m := RoomInCluster(p, next, n, s, es, q, pick);
      next := p.ReadFatEntry(next);
      if r.Full? {
        ClusterSearched(p.g, es, n, q, pick);
        q := q + 1;
      }
    }
    if r.Full? {
      FollowOn(f, s, q, next);
      NoMoreSectors(p, s, es, n, q, pick);
    }
  }

  lemma ClusterSearch(g: Geometry, es: seq<Entry>, n: nat, k: nat, pick: Option<nat>)
    requires BeforeCluster(g, es, n, k, pick)
    ensures g.written ==> k == 0 && InFirstCluster(g, pick)
    ensures Searched(es, n, Times(g.sectorsPerCluster, k), pick)
  {
  }

  lemma ClusterSearched(g: Geometry, es: seq<Entry>, n: nat, k: nat, pick: Option<nat>)
    requires !g.written && Searched(es, n, Times(g.sectorsPerCluster, k + 1), pick)
    ensures BeforeCluster(g, es, n, k + 1, pick)
  {
  }

  lemma SearchBegins(p: Partition, dirCluster: nat, n: nat, s: seq<nat>, es: seq<Entry>, pick: Option<nat>)
    requires p.Mounted() && Readable(p, s, es) && s[0] == dirCluster && pick == PickSlot(es, n, 0)
    requires p.g.written ==> InFirstCluster(p.g, pick)
    ensures BeforeCluster(p.g, es, n, 0, pick) && Following(p.Fat(), s, 0, dirCluster)
  {
    hide PickSlot;
  }

  lemma NoMoreSectors(p: Partition, s: seq<nat>, es: seq<Entry>, n: nat, k: nat, pick: Option<nat>)
    requires p.Mounted() && Readable(p, s, es) && BeforeCluster(p.g, es, n, k, pick) && k == |s|
    ensures pick == None
  {
  }

  // ---- the new entries ----

  /** An 11-character short name as generate_sfn and its callers make it: it begins with a letter,
      a digit, an allowed sign or a blank. */
  ghost predicate ShortName(sfn: seq<byte>) {
    |sfn| == 11 && sfn[0] != 0 && sfn[0] != DELETED && sfn[0] != DOT
  }

  /** The short entry that fat.c:407-417 and :614-624 make of a slot; its other bytes stay. */
  function NewShort(e: Entry, sfn: seq<byte>, attributes: byte, first: nat): (r: Entry)
    requires |sfn| == 11 && first < 0x1_0000_0000
  {
    SetFirst(SetSize(Patch(Patch(e, 0, sfn), 11, [attributes]), 0), first)
  }

  /** What becomes of the slot, byte by byte: name and extension, the attributes, the first cluster, and
      size 0; the other bytes stay. */
  ghost predicate NewFields(e: Entry, r: Entry, sfn: seq<byte>, attributes: byte, first: nat)
    requires |sfn| == 11
  {
    && (forall k :: 0 <= k < 11 ==> r[k] == sfn[k]) && r[11] == attributes
    && (forall k :: 12 <= k < 20 || 22 <= k < 26 ==> r[k] == e[k])
    && U16(r, 26) + 65536 * U16(r, 20) == first && U32(r, 28) == 0
  }

  lemma NewShortFields(e: Entry, sfn: seq<byte>, attributes: byte, first: nat)
    requires |sfn| == 11 && first < 0x1_0000_0000
    ensures NewFields(e, NewShort(e, sfn, attributes, first), sfn, attributes, first)
  {
    var a := Patch(Patch(e, 0, sfn), 11, [attributes]);
    assert forall k :: 0 <= k < 32 ==> a[k] == if k < 11 then sfn[k] else if k == 11 then attributes else e[k];
    var b := SetSize(a, 0);
    hide Patch;
  }

  /** Sixteen entries with a run and a short entry put in. */
  function WithRun(dirent: seq<Entry>, at: nat, run: seq<Entry>, e: Entry): (r: seq<Entry>)
    requires |dirent| == SLOTS && at + |run| < SLOTS
    ensures |r| == SLOTS
  {
    dirent[..at] + run + [e] + dirent[at + |run| + 1..]
  }

  /** fat.c:399-417: the long-name entries in reverse, then the short one. */
  method PlaceRun(dirent0: seq<Entry>, at: nat, lfns: seq<Entry>, ghost run: seq<Entry>, sfn: seq<byte>,
                  attributes: byte, first: nat)
    returns (dirent: seq<Entry>)
    requires |dirent0| == SLOTS && at + |lfns| < SLOTS && |sfn| == 11 && first < 0x1_0000_0000
    requires |run| == |lfns| && forall i :: 0 <= i < |lfns| ==> lfns[i] == run[|lfns| - 1 - i]
    ensures dirent == WithRun(dirent0, at, run, NewShort(dirent0[at + |run|], sfn, attributes, first))
  {
    hide NewShort;
    dirent := dirent0;
    var i := 0;
    while i < |lfns|
      invariant i <= |lfns| && |dirent| == SLOTS
      invariant forall k :: 0 <= k < SLOTS ==>
        dirent[k] == if at + |lfns| - i <= k < at + |lfns| then run[k - at] else dirent0[k]
    {
      dirent := dirent[at + |lfns| - 1 - i := lfns[i]];
      i := i + 1;
    }
    dirent := dirent[at + i := NewShort(dirent[at + i], sfn, attributes, first)];
  }

  /** The condition under which creation puts a run where it should: the entries from the first
      free one of the chosen sector on are free as far as needed, and no earlier entry of the
      directory ends it for readers. As compiled, the first cluster needs an end mark even then. */
  ghost predicate SlotOk(g: Geometry, es: seq<Entry>, n: nat, p: nat) {
    && p + n < |es| && p / SLOTS == (p + n) / SLOTS
    && FreeThere(es, p, n)
    && (g.written ==> p < SLOTS * g.sectorsPerCluster
                      && exists z :: p + n < z < |es| && z < SLOTS * g.sectorsPerCluster && es[z][0] == 0)
  }

  ghost predicate CreationOk(g: Geometry, es: seq<Entry>, n: nat) {
    match PickSlot(es, n, 0)
    case None => !g.written
    case Some(p) => SlotOk(g, es, n, p)
  }

  /** All that creation needs to run at all: the chosen run does not reach past the 16 entries that
      the code has room for. As compiled, the search has to end in the first cluster. */
  ghost predicate RunStays(g: Geometry, es: seq<Entry>, n: nat) {
    match PickSlot(es, n, 0)
    case None => !g.written
    case Some(p) => p % SLOTS + n < SLOTS && (g.written ==> InFirstCluster(g, Some(p)))
  }

  /** The entries after the run is stored back. */
  lemma RunStored(g: Geometry, es: seq<Entry>, es': seq<Entry>, m: nat, at: nat, dirent: seq<Entry>, run: seq<Entry>,
                  e: Entry, kid: Kid)
    requires |es'| == |es| && SLOTS * (m + 1) <= |es| && |dirent| == SLOTS && at + |run| < SLOTS
    requires forall k :: 0 <= k < SLOTS ==> dirent[k] == es[SLOTS * m + k]
    requires forall k :: 0 <= k < |es| ==>
      es'[k] == if SLOTS * m <= k < SLOTS * m + SLOTS then WithRun(dirent, at, run, e)[k - SLOTS * m] else es[k]
    requires SlotOk(g, es, |run|, SLOTS * m + at)
    requires forall k :: 0 <= k < |run| ==> Live(run[k]) && IsLong(run[k])
    requires Live(e) && !IsLong(e) && !IsDot(e) && Describes(e, Item(NameOf(run), 0, 0), kid)
    ensures Added(g, es, es', SLOTS * m + at, |run|, kid)
  {
    hide NameOf, First, Size, IsDir, IsDot, IsLong, WithRun, SlotOk, Describes, Added;
    RunSlots(es, es', SLOTS * m, at, dirent, run, e);
    RunAdded(g, es, es', SLOTS * m + at, run, e, kid);
  }

  /** `es` with the run and the short entry from `p` on. */
  ghost predicate RunIn(es: seq<Entry>, es': seq<Entry>, p: nat, run: seq<Entry>, e: Entry) {
    && |es'| == |es| && p + |run| < |es|
    && forall k :: 0 <= k < |es| ==>
         es'[k] == if p <= k < p + |run| then run[k - p] else if k == p + |run| then e else es[k]
  }

  lemma RunSlots(es: seq<Entry>, es': seq<Entry>, from: nat, at: nat, dirent: seq<Entry>, run: seq<Entry>, e: Entry)
    requires |es'| == |es| && from + SLOTS <= |es| && |dirent| == SLOTS && at + |run| < SLOTS
    requires forall k :: 0 <= k < SLOTS ==> dirent[k] == es[from + k]
    requires forall k :: 0 <= k < |es| ==>
      es'[k] == if from <= k < from + SLOTS then WithRun(dirent, at, run, e)[k - from] else es[k]
    ensures RunIn(es, es', from + at, run, e)
  {
    hide WithRun;
    WithRunAt(dirent, at, run, e);
    var p := from + at;
    forall k | 0 <= k < |es|
      ensures es'[k] == if p <= k < p + |run| then run[k - p] else if k == p + |run| then e else es[k]
    {
      if from <= k < from + SLOTS {
        assert dirent[k - from] == es[from + (k - from)];
      }
    }
  }

  lemma RunAdded(g: Geometry, es: seq<Entry>, es': seq<Entry>, p: nat, run: seq<Entry>, e: Entry, kid: Kid)
    requires RunIn(es, es', p, run, e) && SlotOk(g, es, |run|, p)
    requires forall k :: 0 <= k < |run| ==> Live(run[k]) && IsLong(run[k])
    requires Live(e) && !IsLong(e) && !IsDot(e) && Describes(e, Item(NameOf(run), 0, 0), kid)
    ensures Added(g, es, es', p, |run|, kid)
  {
    hide NameOf, First, Size, IsDir, IsDot, IsLong;
    assert es'[p + |run|] == e;
    assert es'[p..p + |run|] == run;
  }

  lemma WithRunAt(dirent: seq<Entry>, at: nat, run: seq<Entry>, e: Entry)
    requires |dirent| == SLOTS && at + |run| < SLOTS
    ensures forall k :: 0 <= k < SLOTS ==>
      WithRun(dirent, at, run, e)[k] ==
          if at <= k < at + |run| then run[k - at] else if k == at + |run| then e else dirent[k]
  {
  }

  /** The name under which a lookup finds a new entry: none if it is empty, since then there are
      no long-name entries. */
  function KidName(fileName: Name): Option<Name> {
    if fileName == [] then None else Some(fileName)
  }

  lemma RunIsName(fileName: Name, stack: seq<word>, checksum: byte)
    requires |stack| == NAME_BUFFER && Encodable(fileName) && Terminated(fileName, stack)
    ensures NameOf(NameRun(fileName, stack, checksum)) == KidName(fileName)
    ensures forall k :: 0 <= k < PartCount(fileName) ==>
      Live(NameRun(fileName, stack, checksum)[k]) && IsLong(NameRun(fileName, stack, checksum)[k])
  {
    RoundTripIff(fileName, stack, checksum);
    var n, run := PartCount(fileName), NameRun(fileName, stack, checksum);
    forall k | 0 <= k < n
      ensures Live(run[k]) && IsLong(run[k])
    {
      var e := Part(NameUnits(fileName, stack), n - 1 - k, n, checksum);
      assert run[k] == e && e[11] == 0x0F && 0 < e[0] < 0x80;
    }
  }

  lemma SectorEntries(es: seq<Entry>, m: nat, dirent: seq<Entry>)
    requires |dirent| == SLOTS && SLOTS * m + SLOTS <= |es| && es[SLOTS * m..SLOTS * m + SLOTS] == dirent
    ensures forall k :: 0 <= k < SLOTS ==> dirent[k] == es[SLOTS * m + k]
  {
    forall k | 0 <= k < SLOTS
      ensures dirent[k] == es[SLOTS * m + k]
    {
      assert es[SLOTS * m..SLOTS * m + SLOTS][k] == es[SLOTS * m + k];
    }
  }

  /** The data area with the new run in the sector that has room for it. */
  function RunPut(g: Geometry, d: seq<Sector>, r: Room, run: seq<Entry>, e: Entry): seq<Sector>
    requires r.Room? && |r.dirent| == SLOTS && r.index + |run| < SLOTS
    requires r.cluster >= 2 && Base(g.sectorsPerCluster, r.cluster) + r.offset < |d|
  {
    d[Base(g.sectorsPerCluster, r.cluster) + r.offset := Pack(WithRun(r.dirent, r.index, run, e))]
  }

  /** A room in the directory with chain `s`, where a run can be put, and the entries to put there
      for `kid`. */
  ghost predicate RunFits(g: Geometry, d: seq<Sector>, s: seq<nat>, q: nat, m: nat, r: Room, run: seq<Entry>, e: Entry,
                          kid: Kid) {
    && InArea(|d|, g.sectorsPerCluster, s) && r.Room?
    && RoomOk(g.sectorsPerCluster, d, s, r, q, m, Some(SLOTS * m + r.index))
    && r.index + |run| < SLOTS && SlotOk(g, DirSlots(d, g.sectorsPerCluster, s), |run|, SLOTS * m + r.index)
    && (forall k :: 0 <= k < |run| ==> Live(run[k]) && IsLong(run[k]))
    && Live(e) && !IsLong(e) && !IsDot(e) && Describes(e, Item(NameOf(run), 0, 0), kid)
  }

  lemma RunWritten(g: Geometry, d: seq<Sector>, s: seq<nat>, q: nat, m: nat, r: Room, run: seq<Entry>, e: Entry,
                   kid: Kid)
    requires RunFits(g, d, s, q, m, r, run, e, kid) && Distinct(s)
    ensures Added(g, DirSlots(d, g.sectorsPerCluster, s), DirSlots(RunPut(g, d, r, run, e), g.sectorsPerCluster, s),
                  SLOTS * m + r.index, |run|, kid)
  {
    hide NameOf, Pack, SlotOk, Describes, DirSlots, WithRun, Added, Times, Base, Slots;
    var spc, es16 := g.sectorsPerCluster, WithRun(r.dirent, r.index, run, e);
    SectorSlots(d, spc, s, q, r.offset, SLOTS * m);
    SectorEntries(DirSlots(d, spc, s), m, r.dirent);
    DirSlotsUpdate(d, spc, s, q, r.offset, m, es16);
    RunStored(g, DirSlots(d, spc, s), DirSlots(RunPut(g, d, r, run, e), spc, s), m, r.index, r.dirent, run, e, kid);
  }

  lemma RunPutOk(g: Geometry, d: seq<Sector>, s: seq<nat>, q: nat, m: nat, r: Room, run: seq<Entry>, e: Entry, kid: Kid)
    requires RunFits(g, d, s, q, m, r, run, e, kid)
    ensures r.Room? && |r.dirent| == SLOTS && r.index + |run| < SLOTS
    ensures r.cluster >= 2 && Base(g.sectorsPerCluster, r.cluster) + r.offset < |d|
    ensures |RunPut(g, d, r, run, e)| == |d|
  {
  }

  /** Putting the run there leaves the rest of the volume alone. */
  lemma RoomAround(g: Geometry, f: seq<nat>, d: seq<Sector>, free: nat, t: Node, path: seq<Name>, t0: Node,
                   q: nat, m: nat, r: Room, run: seq<Entry>, e: Entry, kid: Kid)
    requires VolumeOk(g, f, d, free, t) && At(t, path) == Some(t0)
    requires RunFits(g, d, t0.chain, q, m, r, run, e, kid)
    ensures Around(g, f, d, f, RunPut(g, d, r, run, e), free, t, t0) && t0.chain != [] && Distinct(t0.chain)
    ensures KidClusters(t0) <= Clusters(t) - Elems(t0.chain)
  {
    hide *;
    VolumeBasics(g, f, d, free, t, path, t0);
    RunPutOk(g, d, t0.chain, q, m, r, run, e, kid);
    RoomCluster(g, d, t0.chain, q, m, r, run, e, kid);
    RunPutSame(g, f, d, r, run, e, Clusters(t) - Elems(t0.chain));
    AroundNow(g, f, d, f, RunPut(g, d, r, run, e), free, t, t0);
  }

  lemma RoomCluster(g: Geometry, d: seq<Sector>, s: seq<nat>, q: nat, m: nat, r: Room, run: seq<Entry>, e: Entry,
                    kid: Kid)
    requires RunFits(g, d, s, q, m, r, run, e, kid)
    ensures r.Room? && r.cluster in Elems(s) && r.cluster >= 2 && r.offset < g.sectorsPerCluster
    ensures Base(g.sectorsPerCluster, r.cluster) + g.sectorsPerCluster <= |d| && InArea(|d|, g.sectorsPerCluster, s)
  {
    hide SlotOk, Describes, DirSlots, Slots, NameOf;
  }

  lemma RunPutSame(g: Geometry, f: seq<nat>, d: seq<Sector>, r: Room, run: seq<Entry>, e: Entry, cs: set<nat>)
    requires r.Room? && |r.dirent| == SLOTS && r.index + |run| < SLOTS && r.cluster >= 2
    requires r.offset < g.sectorsPerCluster
    requires Base(g.sectorsPerCluster, r.cluster) + g.sectorsPerCluster <= |d| && r.cluster !in cs
    ensures SameAt(g.sectorsPerCluster, f, d, f, RunPut(g, d, r, run, e), cs)
  {
    hide Pack, WithRun, SameAt;
    SectorSame(g.sectorsPerCluster, f, d, r.cluster, r.offset, Pack(WithRun(r.dirent, r.index, run, e)), cs);
  }

  lemma AroundNow(g: Geometry, f: seq<nat>, d: seq<Sector>, f': seq<nat>, d': seq<Sector>, free': nat, t: Node,
                  t0: Node)
    requires |f'| == |f| > 0 && |d'| == |d| && f'[0] >= END_OF_CHAIN && free' == |Free(f')|
    requires InArea(|d|, g.sectorsPerCluster, t0.chain) && Chain(f', t0.chain)
    requires SameAt(g.sectorsPerCluster, f, d, f', d', Clusters(t) - Elems(t0.chain))
    ensures Around(g, f, d, f', d', free', t, t0)
  {
  }

  lemma EmptyFileStored(g: Geometry, f: seq<nat>, d: seq<Sector>, up: nat, t: Node)
    ensures Stored(g, f, d, File([], []), up) && Proper(File([], [])) && Clusters(File([], [])) !! Clusters(t)
  {
    assert Elems([]) == {};
  }

  /** An empty file is added to the directory `t0`. */
  lemma FileAdded(g: Geometry, f: seq<nat>, d: seq<Sector>, free: nat, t: Node, path: seq<Name>, t0: Node,
                  q: nat, m: nat, r: Room, run: seq<Entry>, e: Entry, name: Option<Name>) returns (j: nat)
    requires VolumeOk(g, f, d, free, t) && At(t, path) == Some(t0)
    requires RunFits(g, d, t0.chain, q, m, r, run, e, Kid(name, File([], [])))
    requires t0.Dir? && (name.Some? ==> !HasName(t0.kids, name.value))
    ensures r.Room? && |r.dirent| == SLOTS && r.index + |run| < SLOTS
    ensures r.cluster >= 2 && Base(g.sectorsPerCluster, r.cluster) + r.offset < |d|
    ensures j <= |t0.kids|
    ensures VolumeOk(g, f, RunPut(g, d, r, run, e), free,
                     Put(t, path, Dir(t0.chain, Insert(t0.kids, j, Kid(name, File([], []))))))
  {
    hide *;
    var kid := Kid(name, File([], []));
    VolumeBasics(g, f, d, free, t, path, t0);
    RunPutOk(g, d, t0.chain, q, m, r, run, e, kid);
    var d' := RunPut(g, d, r, run, e);
    RoomAround(g, f, d, free, t, path, t0, q, m, r, run, e, kid);
    RunWritten(g, d, t0.chain, q, m, r, run, e, kid);
    EmptyFileStored(g, f, d', t0.chain[0], t);
    j := KidAdded(g, f, d, free, t, path, t0, f, d', free, SLOTS * m + r.index, |run|, kid);
  }

  lemma NewShortIs(e: Entry, sfn: seq<byte>, attributes: byte, first: nat)
    requires ShortName(sfn) && first < 0x1_0000_0000 && (attributes == 0 || attributes == 0x10)
    ensures var r := NewShort(e, sfn, attributes, first);
      Live(r) && !IsLong(r) && !IsDot(r) && First(r) == first && Size(r) == 0 && (IsDir(r) <==> attributes == 0x10)
  {
    hide First, Size;
    var a := Patch(Patch(e, 0, sfn), 11, [attributes]);
    assert a[0] == sfn[0] && a[11] == attributes;
  }

  lemma SlotInSector(g: Geometry, es: seq<Entry>, n: nat, m: nat, at: nat)
    requires SlotOk(g, es, n, SLOTS * m + at) && at < SLOTS
    ensures at + n < SLOTS
  {
  }

  /** What a successful search for room and the caller's care together give. */
  lemma NewRunFits(g: Geometry, d: seq<Sector>, t0: Node, es: seq<Entry>, q: nat, m: nat, r: Room,
                   fileName: Name, stack: seq<word>, sfn: seq<byte>, checksum: byte, attributes: byte, node: Node)
    requires t0.Dir? && InArea(|d|, g.sectorsPerCluster, t0.chain) && es == DirSlots(d, g.sectorsPerCluster, t0.chain)
    requires CanCreate(g, es, t0.kids, fileName, stack, sfn)
    requires r.Room? && RoomOk(g.sectorsPerCluster, d, t0.chain, r, q, m, PickSlot(es, PartCount(fileName), 0))
    requires attributes == (if node.Dir? then 0x10 else 0) && FirstOf(node) < 0x1_0000_0000
    requires (node.File? ==> node.bytes == [])
    ensures |r.dirent| == SLOTS && r.index + PartCount(fileName) < SLOTS
    ensures RunFits(g, d, t0.chain, q, m, r, NameRun(fileName, stack, checksum),
                    NewShort(r.dirent[r.index + PartCount(fileName)], sfn, attributes,
                             FirstOf(node)), Kid(KidName(fileName), node))
  {
    hide NewShort, NameRun, SlotOk, NameOf, DirSlots, Slots, PickSlot, Encodable, Terminated, HasName, First, Size;
    hide IsDir, IsLong, IsDot;
    var n := PartCount(fileName);
    SlotInSector(g, es, n, m, r.index);
    RunIsName(fileName, stack, checksum);
    NewShortIs(r.dirent[r.index + n], sfn, attributes, FirstOf(node));
  }

  /** A name that a new entry can have in a directory with these kids. */
  ghost predicate NewName(kids: seq<Kid>, fileName: Name, stack: seq<word>, sfn: seq<byte>) {
    && |stack| == NAME_BUFFER && Encodable(fileName) && Terminated(fileName, stack)
    && ShortName(sfn) && !HasName(kids, fileName)
  }

  /** What a caller has to see to before creating an entry called `fileName` in a directory with
      entries `es` and these kids. */
  ghost predicate CanTry(g: Geometry, es: seq<Entry>, kids: seq<Kid>, fileName: Name, stack: seq<word>,
                         sfn: seq<byte>) {
    NewName(kids, fileName, stack, sfn) && RunStays(g, es, PartCount(fileName))
  }

  /** ... and what makes it come out right. */
  ghost predicate CanCreate(g: Geometry, es: seq<Entry>, kids: seq<Kid>, fileName: Name, stack: seq<word>,
                            sfn: seq<byte>) {
    NewName(kids, fileName, stack, sfn) && CreationOk(g, es, PartCount(fileName))
  }

  /** All that happens when an empty file is created where there is room. */
  lemma FileCreated(g: Geometry, f: seq<nat>, d: seq<Sector>, free: nat, t: Node, path: seq<Name>, t0: Node,
                    es: seq<Entry>, q: nat, m: nat, r: Room, fileName: Name, stack: seq<word>, sfn: seq<byte>,
                    checksum: byte)
    returns (j: nat)
    requires VolumeOk(g, f, d, free, t) && At(t, path) == Some(t0)
    requires InArea(|d|, g.sectorsPerCluster, t0.chain) && es == DirSlots(d, g.sectorsPerCluster, t0.chain)
    requires CanCreate(g, es, t0.kids, fileName, stack, sfn)
    requires r.Room? && RoomOk(g.sectorsPerCluster, d, t0.chain, r, q, m, PickSlot(es, PartCount(fileName), 0))
    ensures |r.dirent| == SLOTS && r.index + PartCount(fileName) < SLOTS
    ensures r.cluster >= 2 && Base(g.sectorsPerCluster, r.cluster) + r.offset < |d|
    ensures j <= |t0.kids|
    ensures VolumeOk(g, f, RunPut(g, d, r, NameRun(fileName, stack, checksum),
                                  NewShort(r.dirent[r.index + PartCount(fileName)], sfn, 0, 0)),
                     free, Put(t, path, Dir(t0.chain, Insert(t0.kids, j, Kid(KidName(fileName), File([], []))))))
  {
    NewRunFits(g, d, t0, es, q, m, r, fileName, stack, sfn, checksum, 0, File([], []));
    j := FileAdded(g, f, d, free, t, path, t0, q, m, r, NameRun(fileName, stack, checksum),
                   NewShort(r.dirent[r.index + PartCount(fileName)], sfn, 0, 0), KidName(fileName));
  }

  /** Storing the new entries (fat.c:399-421). */
  method WriteRun(p: Partition, r: Room, lfns: seq<Entry>, ghost run: seq<Entry>, sfn: seq<byte>, attributes: byte,
                  first: nat)
    requires p.Sound() && r.Room? && |r.dirent| == SLOTS && r.index + |lfns| < SLOTS && |sfn| == 11
    requires first < 0x1_0000_0000
    requires |run| == |lfns| && forall i :: 0 <= i < |lfns| ==> lfns[i] == run[|lfns| - 1 - i]
    requires r.cluster >= 2 && Base(p.g.sectorsPerCluster, r.cluster) + r.offset < |p.Data()|
    modifies p.hd.sectors
    ensures p.Sound() && p.Fat() == old(p.Fat()) && p.Info() == old(p.Info())
    ensures p.Data() == RunPut(p.g, old(p.Data()), r, run, NewShort(r.dirent[r.index + |run|], sfn, attributes, first))
  {
    var dirent := PlaceRun(r.dirent, r.index, lfns, run, sfn, attributes, first);
    PaddedFull(Pack(dirent));
    p.WriteData(Base(p.g.sectorsPerCluster, r.cluster) + r.offset, Pack(dirent));
  }

  /** A directory's entries `es` after a new entry was stored: long-name entries that spell the name, the
      short entry behind them, and no other entry has changed. */
  ghost predicate EntryMade(g: Geometry, d: seq<Sector>, s: seq<nat>, es: seq<Entry>, fileName: Name, stack: seq<word>,
                            checksum: byte, sfn: seq<byte>, attributes: byte, first: nat) {
    && |sfn| == 11 && InArea(|d|, g.sectorsPerCluster, s)
    && var es', p, n := DirSlots(d, g.sectorsPerCluster, s), PickedAt(es, fileName), PartCount(fileName);
    && |es'| == |es| && p + n < |es|
    && (forall k :: 0 <= k < |es| && !(p <= k <= p + n) ==> es'[k] == es[k])
    && SpellsBack(es'[p..p + n], fileName, stack, checksum)
    && NewFields(es[p + n], es'[p + n], sfn, attributes, first)
  }

  lemma RunPutSlots(g: Geometry, d: seq<Sector>, s: seq<nat>, es: seq<Entry>, q: nat, m: nat, r: Room, p: nat,
                    run: seq<Entry>, e: Entry)
    requires InArea(|d|, g.sectorsPerCluster, s) && Distinct(s) && es == DirSlots(d, g.sectorsPerCluster, s)
    requires r.Room? && RoomOk(g.sectorsPerCluster, d, s, r, q, m, Some(p))
    requires |r.dirent| == SLOTS && r.index + |run| < SLOTS
    ensures Base(g.sectorsPerCluster, r.cluster) + r.offset < |d| && |RunPut(g, d, r, run, e)| == |d|
    ensures p == SLOTS * m + r.index && RunIn(es, DirSlots(RunPut(g, d, r, run, e), g.sectorsPerCluster, s), p, run, e)
    ensures r.dirent[r.index + |run|] == es[p + |run|]
  {
    hide Pack, DirSlots, WithRun, Times, Base, Slots, PickSlot;
    var spc, es16 := g.sectorsPerCluster, WithRun(r.dirent, r.index, run, e);
    SectorSlots(d, spc, s, q, r.offset, SLOTS * m);
    SectorEntries(es, m, r.dirent);
    DirSlotsUpdate(d, spc, s, q, r.offset, m, es16);
    var es' := DirSlots(RunPut(g, d, r, run, e), spc, s);
    RunSlots(es, es', SLOTS * m, r.index, r.dirent, run, e);
  }

  /** Storing the run leaves the new entry. */
  lemma EntryMadeNow(g: Geometry, d: seq<Sector>, s: seq<nat>, es: seq<Entry>, q: nat, m: nat, r: Room,
                     kids: seq<Kid>, fileName: Name, stack: seq<word>, sfn: seq<byte>, checksum: byte,
                     attributes: byte, first: nat)
    requires InArea(|d|, g.sectorsPerCluster, s) && Distinct(s) && es == DirSlots(d, g.sectorsPerCluster, s)
    requires CanTry(g, es, kids, fileName, stack, sfn) && r.Room?
    requires RoomOk(g.sectorsPerCluster, d, s, r, q, m, PickSlot(es, PartCount(fileName), 0))
    requires (attributes == 0 || attributes == 0x10) && first < 0x1_0000_0000
    ensures |r.dirent| == SLOTS && |sfn| == 11 && r.index + PartCount(fileName) < SLOTS
    ensures r.cluster >= 2 && Base(g.sectorsPerCluster, r.cluster) + r.offset < |d|
    ensures EntryMade(g, RunPut(g, d, r, NameRun(fileName, stack, checksum),
                                NewShort(r.dirent[r.index + PartCount(fileName)], sfn, attributes, first)),
                      s, es, fileName, stack, checksum, sfn, attributes, first)
  {
    hide *;
    CanTryParts(g, es, kids, fileName, stack, sfn);
    NewEntries(d, g.sectorsPerCluster, s, es, q, m, r, g, kids, fileName, stack, sfn, checksum, attributes, first);
    var run, was := NameRun(fileName, stack, checksum), r.dirent[r.index + PartCount(fileName)];
    var e, p := NewShort(was, sfn, attributes, first), PickSlot(es, PartCount(fileName), 0).value;
    PickedIs(es, fileName);
    RunPutSlots(g, d, s, es, q, m, r, p, run, e);
    RunSpells(fileName, stack, checksum);
    NewShortFields(was, sfn, attributes, first);
    MadeNow(g, RunPut(g, d, r, run, e), s, es, p, run, e, fileName, stack, checksum, sfn, attributes, first);
  }

  lemma MadeNow(g: Geometry, d: seq<Sector>, s: seq<nat>, es: seq<Entry>, p: nat, run: seq<Entry>, e: Entry,
                fileName: Name, stack: seq<word>, checksum: byte, sfn: seq<byte>, attributes: byte, first: nat)
    requires InArea(|d|, g.sectorsPerCluster, s) && RunIn(es, DirSlots(d, g.sectorsPerCluster, s), p, run, e)
    requires p == PickedAt(es, fileName) && |run| == PartCount(fileName) && |sfn| == 11
    requires SpellsBack(run, fileName, stack, checksum) && NewFields(es[p + |run|], e, sfn, attributes, first)
    ensures EntryMade(g, d, s, es, fileName, stack, checksum, sfn, attributes, first)
  {
    hide DirSlots, PickedAt, SpellsBack, NewFields, InArea;
    assert DirSlots(d, g.sectorsPerCluster, s)[p..p + |run|] == run;
  }

  /** A run that was put on entries in use, or behind an end mark, does not become one more item. */
  lemma RunMisplaced(g: Geometry, d: seq<Sector>, s: seq<nat>, es: seq<Entry>, q: nat, m: nat, r: Room, p: nat,
                     run: seq<Entry>, e: Entry)
    requires InArea(|d|, g.sectorsPerCluster, s) && Distinct(s) && es == DirSlots(d, g.sectorsPerCluster, s)
    requires Tidy(es, 0, 0)
    requires r.Room? && RoomOk(g.sectorsPerCluster, d, s, r, q, m, Some(p)) && PickSlot(es, |run|, 0) == Some(p)
    requires |r.dirent| == SLOTS && r.index + |run| < SLOTS && p + |run| < |es| && !FreeThere(es, p, |run|)
    requires (forall k :: 0 <= k < |run| ==> Live(run[k]) && IsLong(run[k])) && Live(e) && !IsLong(e) && !IsDot(e)
    ensures Base(g.sectorsPerCluster, r.cluster) + r.offset < |d| && |RunPut(g, d, r, run, e)| == |d|
    ensures !OneMore(es, DirSlots(RunPut(g, d, r, run, e), g.sectorsPerCluster, s), Item(NameOf(run), p + |run|, |run|))
  {
    hide NameOf, Pack, DirSlots, WithRun, Tidy, Times, Base, Slots, IsLong, IsDot, FreeThere, OneMore, PickSlot, Items;
    var spc, es16 := g.sectorsPerCluster, WithRun(r.dirent, r.index, run, e);
    SectorSlots(d, spc, s, q, r.offset, SLOTS * m);
    SectorEntries(es, m, r.dirent);
    DirSlotsUpdate(d, spc, s, q, r.offset, m, es16);
    WithRunAt(r.dirent, r.index, run, e);
    var es' := DirSlots(RunPut(g, d, r, run, e), spc, s);
    WrittenSlots(es, es', m, r.index, r.dirent, run, e);
    ScanIff(es, es', p, run, e);
  }

  lemma WrittenSlots(es: seq<Entry>, es': seq<Entry>, m: nat, at: nat, dirent: seq<Entry>, run: seq<Entry>, e: Entry)
    requires |dirent| == SLOTS && at + |run| < SLOTS && SLOTS * m + SLOTS <= |es| == |es'|
    requires forall k :: 0 <= k < SLOTS ==> dirent[k] == es[SLOTS * m + k]
    requires forall k :: 0 <= k < |es| ==>
      es'[k] == if SLOTS * m <= k < SLOTS * m + SLOTS then WithRun(dirent, at, run, e)[k - SLOTS * m] else es[k]
    requires (forall k :: 0 <= k < |run| ==> Live(run[k]) && IsLong(run[k])) && Live(e) && !IsLong(e) && !IsDot(e)
    ensures WrittenBack(es, es', SLOTS * m + at, run, e)
  {
    hide IsLong, IsDot, WithRun;
    WithRunAt(dirent, at, run, e);
    var p := SLOTS * m + at;
    forall k | 0 <= k < |es|
      ensures es'[k] == if p <= k <= p + |run| && k / SLOTS == p / SLOTS then (if k < p + |run| then run[k - p] else e)
          else es[k]
    {
      if SLOTS * m <= k < SLOTS * m + SLOTS {
        assert k / SLOTS == m == p / SLOTS && dirent[k - SLOTS * m] == es[SLOTS * m + (k - SLOTS * m)];
      }
    }
  }

  /** The parts of the new entries that do not depend on where they go. */
  lemma NewEntries(d: seq<Sector>, spc: nat, s: seq<nat>, es: seq<Entry>, q: nat, m: nat, r: Room, g: Geometry,
                   kids: seq<Kid>, fileName: Name, stack: seq<word>, sfn: seq<byte>, checksum: byte, attributes: byte,
                   first: nat)
    requires CanTry(g, es, kids, fileName, stack, sfn) && r.Room?
    requires RoomOk(spc, d, s, r, q, m, PickSlot(es, PartCount(fileName), 0))
    requires (attributes == 0 || attributes == 0x10) && first < 0x1_0000_0000
    ensures |r.dirent| == SLOTS && |sfn| == 11 && r.index + PartCount(fileName) < SLOTS
    ensures r.cluster >= 2 && Base(spc, r.cluster) + r.offset < |d|
    ensures PickSlot(es, PartCount(fileName), 0).Some?
    ensures PickSlot(es, PartCount(fileName), 0).value + PartCount(fileName) < |es|
    ensures var run := NameRun(fileName, stack, checksum);
      var e := NewShort(r.dirent[r.index + PartCount(fileName)], sfn, attributes, first);
      && |run| == PartCount(fileName) && NameOf(run) == KidName(fileName)
      && (forall k :: 0 <= k < |run| ==> Live(run[k]) && IsLong(run[k])) && Live(e) && !IsLong(e) && !IsDot(e)
  {
    hide NewShort, NameRun, NameOf, Slots, PickSlot, Encodable, Terminated, HasName, First, Size, IsDir, IsLong, IsDot;
    hide Base, Times;
    var n := PartCount(fileName);
    PickedSector(es, n, 0);
    RunIsName(fileName, stack, checksum);
    NewShortIs(r.dirent[r.index + n], sfn, attributes, first);
  }

  /** Where the run of a new entry goes. */
  function PickedAt(es: seq<Entry>, fileName: Name): nat {
    match PickSlot(es, PartCount(fileName), 0)
    case None => 0
    case Some(p) => p
  }

  /** What a creation that went wrong has done to a directory: readers do not see one item more. */
  ghost predicate WentWrong(g: Geometry, d: seq<Sector>, s: seq<nat>, es: seq<Entry>, fileName: Name) {
    && InArea(|d|, g.sectorsPerCluster, s) && |es| == |DirSlots(d, g.sectorsPerCluster, s)|
    && !OneMore(es, DirSlots(d, g.sectorsPerCluster, s),
                Item(KidName(fileName), PickedAt(es, fileName) + PartCount(fileName), PartCount(fileName)))
  }

  ghost predicate FreeForRun(es: seq<Entry>, fileName: Name) {
    PickedAt(es, fileName) + PartCount(fileName) < |es| && FreeThere(es, PickedAt(es, fileName), PartCount(fileName))
  }

  /** The run went where something else was. */
  lemma CreationWrong(g: Geometry, d: seq<Sector>, s: seq<nat>, es: seq<Entry>, q: nat, m: nat, r: Room, kids: seq<Kid>,
                      fileName: Name, stack: seq<word>, sfn: seq<byte>, checksum: byte, attributes: byte, first: nat)
    requires InArea(|d|, g.sectorsPerCluster, s) && Distinct(s) && es == DirSlots(d, g.sectorsPerCluster, s)
    requires Tidy(es, 0, 0)
    requires CanTry(g, es, kids, fileName, stack, sfn) && r.Room? && !FreeForRun(es, fileName)
    requires RoomOk(g.sectorsPerCluster, d, s, r, q, m, PickSlot(es, PartCount(fileName), 0))
    requires (attributes == 0 || attributes == 0x10) && first < 0x1_0000_0000
    ensures |r.dirent| == SLOTS && |sfn| == 11 && r.index + PartCount(fileName) < SLOTS
    ensures r.cluster >= 2 && Base(g.sectorsPerCluster, r.cluster) + r.offset < |d|
    ensures WentWrong(g, RunPut(g, d, r, NameRun(fileName, stack, checksum),
                                NewShort(r.dirent[r.index + PartCount(fileName)], sfn, attributes,
                                         first)), s, es, fileName)
  {
    hide *;
    CanTryParts(g, es, kids, fileName, stack, sfn);
    SlotsOfChain(d, g.sectorsPerCluster, s);
    NewEntries(d, g.sectorsPerCluster, s, es, q, m, r, g, kids, fileName, stack, sfn, checksum, attributes, first);
    var run, e :=
      NameRun(fileName, stack, checksum), NewShort(r.dirent[r.index + PartCount(fileName)], sfn, attributes, first);
    var p := PickSlot(es, PartCount(fileName), 0).value;
    PickedIs(es, fileName);
    RunMisplaced(g, d, s, es, q, m, r, p, run, e);
    WrongNow(g, RunPut(g, d, r, run, e), s, es, fileName, p);
  }

  lemma PickedIs(es: seq<Entry>, fileName: Name)
    requires PickSlot(es, PartCount(fileName), 0).Some?
    requires PickSlot(es, PartCount(fileName), 0).value + PartCount(fileName) < |es|
    ensures PickedAt(es, fileName) == PickSlot(es, PartCount(fileName), 0).value
    ensures FreeForRun(es, fileName) <==> FreeThere(es, PickedAt(es, fileName), PartCount(fileName))
  {
  }

  lemma WrongNow(g: Geometry, d: seq<Sector>, s: seq<nat>, es: seq<Entry>, fileName: Name, p: nat)
    requires p == PickedAt(es, fileName) && InArea(|d|, g.sectorsPerCluster, s)
    requires |es| == SLOTS * Times(g.sectorsPerCluster, |s|)
    requires !OneMore(es, DirSlots(d, g.sectorsPerCluster, s),
                      Item(KidName(fileName), p + PartCount(fileName), PartCount(fileName)))
    ensures WentWrong(g, d, s, es, fileName)
  {
    hide OneMore, Items, PickedAt, Times, KidName, PartCount, InArea;
    SlotsOfChain(d, g.sectorsPerCluster, s);
    hide DirSlots;
  }

  lemma SlotsOfChain(d: seq<Sector>, spc: nat, s: seq<nat>)
    requires InArea(|d|, spc, s)
    ensures |DirSlots(d, spc, s)| == SLOTS * Times(spc, |s|)
  {
  }

  /** fat.c:335-428. Either the directory has no room, and nothing changes, or the run is written. If
      it was put where it should, the directory gets a kid more: an empty file without clusters, and
      everything else is what it was. If not all of its entries were free, readers do not see one
      item more. */
  method CreateFileByDirCluster(p: Partition, dirCluster: nat, fileName: Name, sfn: seq<byte>, checksum: byte,
                                stack: seq<word>, ghost t: Node, ghost path: seq<Name>, ghost t0: Node,
                                ghost es: seq<Entry>)
    returns (found: bool, ghost t': Node, ghost j: nat)
    requires Holds(p, t) && At(t, path) == Some(t0) && FirstOf(t0) == dirCluster && HasEntries(p, t0, es)
    requires CanTry(p.g, es, t0.kids, fileName, stack, sfn)
    modifies p.hd.sectors
    ensures p.Sound() && p.InfoSynced() && p.Fat() == old(p.Fat())
    ensures found <==> PickSlot(es, PartCount(fileName), 0).Some?
    ensures found ==> EntryMade(p.g, p.Data(), t0.chain, es, fileName, stack, checksum, sfn, 0, 0)
    ensures !found ==> Holds(p, t) && t' == t && p.Disk() == old(p.Disk())
    ensures found && CreationOk(p.g, es, PartCount(fileName)) ==> Holds(p, t') && j <= |t0.kids|
    ensures found && CreationOk(p.g, es, PartCount(fileName)) ==>
      t' == Put(t, path, Dir(t0.chain, Insert(t0.kids, j, Kid(KidName(fileName), File([], [])))))
    ensures found && !FreeForRun(es, fileName) ==> WentWrong(p.g, p.Data(), t0.chain, es, fileName)
  {
    hide *;
    HoldsParts(p, t);
    DirReadable(p, t, path);
    CanTryParts(p.g, es, t0.kids, fileName, stack, sfn);
    EntriesReadable(p, t0, es);
    ReadableTidy(p, t0.chain, es);
    ghost var f, d, free, run := p.Fat(), p.Data(), p.freeClusterCount, NameRun(fileName, stack, checksum);
    VolumeBasics(p.g, f, d, free, t, path, t0);
    var n := NameParts(fileName);
    var r;
    ghost var q, m;
    r, q, m := FindRoom(p, dirCluster, n, t0.chain, es, PickSlot(es, n, 0));
    t', j := t, 0;
    if r.Full? {
      return false, t', j;
    }
    RoomPicked(p.g.sectorsPerCluster, d, t0.chain, r, q, m, PickSlot(es, n, 0));
    NewEntries(d, p.g.sectorsPerCluster, t0.chain, es, q, m, r, p.g, t0.kids, fileName, stack, sfn, checksum, 0, 0);
    ghost var good, wrong := CreationOk(p.g, es, PartCount(fileName)), !FreeForRun(es, fileName);
    if good {
      CanCreateNow(p.g, es, t0.kids, fileName, stack, sfn);
      j := FileCreated(p.g, f, d, free, t, path, t0, es, q, m, r, fileName, stack, sfn, checksum);
      t' := Put(t, path, Dir(t0.chain, Insert(t0.kids, j, Kid(KidName(fileName), File([], [])))));
    }
    if wrong {
      CreationWrong(p.g, d, t0.chain, es, q, m, r, t0.kids, fileName, stack, sfn, checksum, 0, 0);
    }
    EntryMadeNow(p.g, d, t0.chain, es, q, m, r, t0.kids, fileName, stack, sfn, checksum, 0, 0);
    var lfns := EncodeLongName(fileName, stack, checksum);
    label L:
    WriteRun(p, r, lfns, run, sfn, 0, 0);
    SyncKept@L(p);
    found := true;
    if good {
      HoldsNow(p, t');
    }
  }

  lemma CanCreateNow(g: Geometry, es: seq<Entry>, kids: seq<Kid>, fileName: Name, stack: seq<word>, sfn: seq<byte>)
    requires CanTry(g, es, kids, fileName, stack, sfn) && CreationOk(g, es, PartCount(fileName))
    ensures CanCreate(g, es, kids, fileName, stack, sfn)
  {
  }

  lemma ReadableTidy(p: Partition, s: seq<nat>, es: seq<Entry>)
    requires p.Mounted() && Readable(p, s, es)
    ensures Tidy(es, 0, 0)
  {
  }

  method NameParts(fileName: Name) returns (n: nat)
    ensures n == PartCount(fileName)
  {
    n := (|fileName| + 12) / PART;
  }

  lemma CanTryParts(g: Geometry, es: seq<Entry>, kids: seq<Kid>, fileName: Name, stack: seq<word>, sfn: seq<byte>)
    requires CanTry(g, es, kids, fileName, stack, sfn)
    ensures |stack| == NAME_BUFFER && PartCount(fileName) <= MAX_PARTS && |sfn| == 11 && !HasName(kids, fileName)
    ensures g.written ==> InFirstCluster(g, PickSlot(es, PartCount(fileName), 0))
  {
    hide PickSlot;
  }

  /** What is right is also possible. */
  lemma CanCreateIsTry(g: Geometry, es: seq<Entry>, kids: seq<Kid>, fileName: Name, stack: seq<word>, sfn: seq<byte>)
    requires CanCreate(g, es, kids, fileName, stack, sfn)
    ensures CanTry(g, es, kids, fileName, stack, sfn)
  {
    hide PickSlot, FreeThere;
  }

  lemma RoomPicked(spc: nat, d: seq<Sector>, s: seq<nat>, r: Room, q: nat, m: nat, pick: Option<nat>)
    requires RoomOk(spc, d, s, r, q, m, pick)
    ensures pick.Some? && r.Room?
  {
  }

  /** The FSInfo sector goes on telling the truth if neither it nor the count changes. */
  twostate lemma SyncKept(p: Partition)
    requires old(p.Sound()) && p.Sound() && old(p.InfoSynced())
    requires p.Info() == old(p.Info()) && p.freeClusterCount == old(p.freeClusterCount)
    ensures p.InfoSynced()
  {
  }
}
