/** What delete_file_by_dir_cluster does once it has deleted the file: it goes on with the directory's
    next cluster, still holding the long-name entries of the file (fat.c:444-496). */
module ReadingOn {
  import opened Bytes
  import opened Strings
  import opened FatTable
  import opened Chains
  import opened FileData
  import opened WriteLoops
  import opened Partitions
  import opened LongNames
  import opened Directories
  import opened Trees
  import opened Lookup
  import opened Placement

  /** The first entry from `k` on that is not marked deleted. */
  function FirstUsed(es: seq<Entry>, k: nat): (i: nat)
    requires k <= |es|
    ensures k <= i <= |es| && (i < |es| ==> es[i][0] != DELETED)
    ensures forall l :: k <= l < i ==> es[l][0] == DELETED
    decreases |es| - k
  {
    if k == |es| || es[k][0] != DELETED then k else FirstUsed(es, k + 1)
  }

  /** The first entry that is read from `k` on is a short one without long-name entries of its own:
      it is taken for the file whose long-name entries are still held. */
  predicate Mistaken(es: seq<Entry>, k: nat) {
    k <= |es| && var i := FirstUsed(es, k); i < |es| && es[i][0] != 0 && !IsLong(es[i])
  }

  function LongsFrom(es: seq<Entry>, i: nat): nat
    requires i <= |es|
    decreases |es| - i
  {
    if i < |es| && Live(es[i]) && IsLong(es[i]) then 1 + LongsFrom(es, i + 1) else 0
  }

  /** The first name that is read from `k` on still fits behind `held` long-name entries. */
  predicate FitsBehind(es: seq<Entry>, k: nat, held: nat) {
    k <= |es| ==> held + LongsFrom(es, FirstUsed(es, k)) <= MAX_PARTS
  }

  /** Where the cluster ends that holds entry `at`. */
  function Behind(spc: nat, at: nat): nat
    requires spc > 0
  {
    SLOTS * Times(spc, LapOf(spc, at / SLOTS) + 1)
  }

  lemma BehindIs(spc: nat, q: nat, offset: nat, m: nat, i: nat)
    requires spc > 0 && offset < spc && m == Times(spc, q) + offset && i < SLOTS
    ensures Behind(spc, SLOTS * m + i) == SLOTS * Times(spc, q + 1) > SLOTS * m + i
  {
    LapUnique(spc, q, offset, m);
    assert (SLOTS * m + i) / SLOTS == m;
  }

  /** Entries that were marked before `k` make no difference behind it. */
  lemma {:induction false} SameBehind(es: seq<Entry>, es': seq<Entry>, k: nat)
    requires |es'| == |es| && k <= |es| && forall l :: k <= l < |es| ==> es'[l] == es[l]
    ensures FirstUsed(es', k) == FirstUsed(es, k)
    decreases |es| - k
  {
    if k < |es| {
      SameBehind(es, es', k + 1);
    }
  }

  lemma {:induction false} SameLongs(es: seq<Entry>, es': seq<Entry>, k: nat)
    requires |es'| == |es| && k <= |es| && forall l :: k <= l < |es| ==> es'[l] == es[l]
    ensures LongsFrom(es', k) == LongsFrom(es, k)
    decreases |es| - k
  {
    hide IsLong;
    if k < |es| {
      SameLongs(es, es', k + 1);
    }
  }

  /** Marking the file's entries changes nothing of what is read on. */
  lemma MarkedBehind(es: seq<Entry>, es': seq<Entry>, a: nat, run: nat, k: nat, held: nat)
    requires Erased(es, es', a, run) && a < k
    ensures Mistaken(es', k) <==> Mistaken(es, k)
    ensures FitsBehind(es', k, held) <==> FitsBehind(es, k, held)
  {
    hide Delete, IsLong;
    if k <= |es| {
      SameBehind(es, es', k);
      SameLongs(es, es', FirstUsed(es, k));
    }
  }

  // ---- names read behind other names ----

  lemma RawJoin(stale: seq<Entry>, own: seq<Entry>)
    ensures RawName(stale + own) == RawName(own) + RawName(stale)
  {
    hide RawName;
    RawSize(stale + own);
    RawSize(own);
    RawSize(stale);
    forall k | 0 <= k < PART * |stale + own|
      ensures RawName(stale + own)[k] == (RawName(own) + RawName(stale))[k]
    {
      RawPart(stale, own, k);
    }
  }

  lemma RawSize(acc: seq<Entry>)
    ensures |RawName(acc)| == PART * |acc|
  {
  }

  lemma RawPart(stale: seq<Entry>, own: seq<Entry>, k: nat)
    requires k < PART * |stale + own|
    ensures RawName(stale + own)[k] ==
            if k < PART * |own| then RawName(own)[k] else RawName(stale)[k - PART * |own|]
  {
    hide NameByte;
    var i, j := k / PART, k % PART;
    assert k == PART * i + j;
    if i >= |own| {
      var l := i - |own|;
      assert k - PART * |own| == PART * l + j;
      assert (PART * l + j) / PART == l && (PART * l + j) % PART == j;
    }
  }

  lemma {:induction false} CStrJoin(a: seq<byte>, b: seq<byte>)
    ensures 0 in a ==> CStr(a + b) == CStr(a)
    ensures 0 !in a ==> CStr(a + b) == a + CStr(b)
    decreases |a|
  {
    if a == [] {
      assert a + b == b;
    } else {
      assert (a + b)[1..] == a[1..] + b;
      CStrJoin(a[1..], b);
    }
  }

  /** With other entries held before them, the entries of another name do not spell the held name. */
  lemma StaleName(stale: seq<Entry>, own: seq<Entry>)
    requires own != [] && LongName(own) != LongName(stale)
    ensures LongName(stale + own) != LongName(stale)
  {
    RawJoin(stale, own);
    var a, b := RawName(own), RawName(stale) + [0];
    assert RawName(stale + own) + [0] == a + b;
    CStrJoin(a, b);
    CStrJoin(a, [0]);
    if 0 !in a {
      assert |a| == PART * |own| > 0;
    }
  }

  // ---- the loop over one sector ----

  /** Reading from `k0` on has come to entry `k`: behind the `stale` long-name entries, `run` of the
      entry to come are held. Once another entry was read, nothing stale is held any more. */
  ghost predicate Holding(es: seq<Entry>, k0: nat, k: nat, run: nat, j: nat, stale: seq<Entry>, lfn: seq<Entry>) {
    && Reading(es, k, run, j) && lfn == stale + es[k - run..k]
    && (stale == [] ==> !Mistaken(es, k0))
    && (stale != [] ==> k0 + run <= k && AllDeleted(es, k0, k - run) && AllLong(es, k - run, k))
  }

  ghost predicate AllDeleted(es: seq<Entry>, a: nat, b: nat) {
    b <= |es| && forall l :: a <= l < b ==> es[l][0] == DELETED
  }

  ghost predicate AllLong(es: seq<Entry>, a: nat, b: nat) {
    b <= |es| && forall l :: a <= l < b ==> Live(es[l]) && IsLong(es[l])
  }

  lemma {:induction false} UsedAt(es: seq<Entry>, a: nat, b: nat)
    requires a <= b && AllDeleted(es, a, b) && (b < |es| ==> es[b][0] != DELETED)
    ensures FirstUsed(es, a) == b
    decreases b - a
  {
    if a < b {
      UsedAt(es, a + 1, b);
    }
  }

  lemma {:induction false} LongsAt(es: seq<Entry>, a: nat, b: nat)
    requires a <= b && AllLong(es, a, b)
    ensures LongsFrom(es, a) >= b - a
    decreases b - a
  {
    hide IsLong;
    if a < b {
      LongsAt(es, a + 1, b);
    }
  }

  lemma HoldFree(es: seq<Entry>, k0: nat, k: nat, run: nat, j: nat, stale: seq<Entry>, lfn: seq<Entry>)
    requires Holding(es, k0, k, run, j, stale, lfn) && k < |es| && es[k][0] == DELETED
    ensures run == 0 && Holding(es, k0, k + 1, 0, j, stale, lfn)
  {
    ReadFree(es, k, run, j);
    hide Reading, Mistaken;
  }

  lemma HoldLong(es: seq<Entry>, k0: nat, k: nat, run: nat, j: nat, stale: seq<Entry>, lfn: seq<Entry>)
    requires Holding(es, k0, k, run, j, stale, lfn) && k < |es| && Live(es[k]) && IsLong(es[k])
    ensures Holding(es, k0, k + 1, run + 1, j, stale, lfn + [es[k]])
  {
    ReadLong(es, k, run, j);
    assert es[k - run..k + 1] == es[k - run..k] + [es[k]];
    hide Reading, Mistaken, IsLong;
  }

  lemma HoldEnd(es: seq<Entry>, k0: nat, k: nat, run: nat, j: nat, stale: seq<Entry>, lfn: seq<Entry>)
    requires Holding(es, k0, k, run, j, stale, lfn) && (k == |es| || es[k][0] == 0)
    ensures !Mistaken(es, k0)
  {
    if stale != [] {
      assert run == 0;
      UsedAt(es, k0, k);
    }
  }

  lemma HoldBoundary(es: seq<Entry>, k0: nat, k: nat, run: nat, j: nat, stale: seq<Entry>, lfn: seq<Entry>)
    requires Holding(es, k0, k, run, j, stale, lfn) && k % SLOTS == 0
    ensures run == 0 && lfn == stale
  {
  }

  /** What is held fits the buffers. */
  lemma HoldFits(es: seq<Entry>, k0: nat, k: nat, run: nat, j: nat, stale: seq<Entry>, lfn: seq<Entry>)
    requires Holding(es, k0, k, run, j, stale, lfn) && k0 <= |es| && FitsBehind(es, k0, |stale|)
    requires k < |es| && Live(es[k]) && !IsLong(es[k])
    ensures |lfn| <= MAX_PARTS
  {
    assert run < SLOTS;
    if stale != [] {
      UsedAt(es, k0, k - run);
      LongsAt(es, k - run, k);
    }
  }

  /** A short entry is taken for the file exactly when it was mistaken for it. */
  lemma HoldShort(es: seq<Entry>, k0: nat, k: nat, run: nat, j: nat, stale: seq<Entry>, lfn: seq<Entry>, name: Name)
    requires Holding(es, k0, k, run, j, stale, lfn) && k < |es| && Live(es[k]) && !IsLong(es[k])
    requires Absent(es, name, false) && (stale != [] ==> LongName(stale) == name)
    ensures lfn != [] && LongName(lfn) == name ==> Mistaken(es, k0)
    ensures lfn == [] || LongName(lfn) != name ==> Holding(es, k0, k + 1, 0, if IsDot(es[k]) then j else j + 1, [], [])
  {
    ShortRead(es, k, run, j, name);
    var own := es[k - run..k];
    if stale != [] {
      UsedAt(es, k0, k - run);
      if run > 0 {
        StaleName(stale, own);
      } else {
        assert lfn == stale;
      }
    } else {
      assert lfn == own;
    }
    hide Reading, LongName, IsLong, IsDot, Absent;
  }

  lemma ShortRead(es: seq<Entry>, k: nat, run: nat, j: nat, name: Name)
    requires Reading(es, k, run, j) && k < |es| && Live(es[k]) && !IsLong(es[k]) && Absent(es, name, false)
    ensures Reading(es, k + 1, 0, if IsDot(es[k]) then j else j + 1)
    ensures run > 0 ==> LongName(es[k - run..k]) != name
  {
    if IsDot(es[k]) {
      ReadDot(es, k, run, j);
    } else {
      ReadShort(es, k, run, j);
      hide Items, Reading, LongName;
      assert !Wanted(es, Items(es, 0, 0)[j], name, false);
    }
  }

  /** Before a sector: reading goes on, or it has come to an end mark or the end. */
  ghost predicate OnHold(es: seq<Entry>, k0: nat, from: nat, j: nat, lfn: seq<Entry>) {
    && k0 <= from <= |es|
    && if from < |es| && es[from][0] != 0 then Holding(es, k0, from, 0, j, lfn, lfn) else !Mistaken(es, k0)
  }

  /** The loop over one sector's entries (fat.c:451-478), with entries held from before. */
  method ScanOn(dirent: seq<Entry>, name: Name, held: seq<Entry>, ghost es: seq<Entry>, ghost k0: nat, ghost from: nat,
                ghost j0: nat)
    returns (r: Outcome, lfnEnt: seq<Entry>, ghost j: nat)
    requires |dirent| == SLOTS && from + SLOTS <= |es| && es[from..from + SLOTS] == dirent
    requires from % SLOTS == 0 && 0 !in name && Absent(es, name, false) && (held != [] ==> LongName(held) == name)
    requires OnHold(es, k0, from, j0, held) && FitsBehind(es, k0, |held|)
    ensures r.Found? ==> Mistaken(es, k0)
    ensures r.Ended? ==> !Mistaken(es, k0)
    ensures r.Passed? ==> OnHold(es, k0, from + SLOTS, j, lfnEnt) && (lfnEnt == held || lfnEnt == [])
    ensures es[from][0] == 0 ==> r.Ended?
  {
    hide Items, Tidy, Reading, Absent, LongName, RawName, Holding, OnHold, Mistaken, FitsBehind, IsLong, IsDot;
    j, lfnEnt := j0, held;
    var i := 0;
    ghost var run, stale := 0, held;
    assert forall l :: 0 <= l < SLOTS ==> dirent[l] == es[from..from + SLOTS][l] == es[from + l];
    if dirent[0][0] == 0 {
      AtTheEnd(es, k0, from, j0, held);
      return Ended, lfnEnt, j;
    }
    NotTheEnd(es, k0, from, j0, held);
    while i < SLOTS
      invariant i <= SLOTS && Holding(es, k0, from + i, run, j, stale, lfnEnt)
      invariant stale == held || stale == []
    {
      ghost var k := from + i;
      if dirent[i][0] == 0 {
        HoldEnd(es, k0, k, run, j, stale, lfnEnt);
        return Ended, lfnEnt, j;
      }
      if dirent[i][0] == DELETED {
        HoldFree(es, k0, k, run, j, stale, lfnEnt);
        run := 0;
      } else if IsLong(dirent[i]) {
        HoldLong(es, k0, k, run, j, stale, lfnEnt);
        lfnEnt, run := lfnEnt + [dirent[i]], run + 1;
      } else {
        FitsLess(es, k0, held, stale);
        HoldFits(es, k0, k, run, j, stale, lfnEnt);
        HoldShort(es, k0, k, run, j, stale, lfnEnt, name);
        if |lfnEnt| > 0 {
          var hit := SameName(lfnEnt, name);
          if hit {
            return Found(i, |lfnEnt|), lfnEnt, j;
          }
        }
        lfnEnt, j := [], if IsDot(dirent[i]) then j else j + 1;
        run, stale := 0, [];
      }
      i := i + 1;
    }
    HoldBoundary(es, k0, from + SLOTS, run, j, stale, lfnEnt);
    SectorPassedOn(es, k0, from + SLOTS, j, lfnEnt);
    r := Passed;
  }

  lemma AtTheEnd(es: seq<Entry>, k0: nat, from: nat, j: nat, lfn: seq<Entry>)
    requires OnHold(es, k0, from, j, lfn) && from < |es| && es[from][0] == 0
    ensures !Mistaken(es, k0)
  {
  }

  lemma NotTheEnd(es: seq<Entry>, k0: nat, from: nat, j: nat, lfn: seq<Entry>)
    requires OnHold(es, k0, from, j, lfn) && from < |es| && es[from][0] != 0
    ensures Holding(es, k0, from, 0, j, lfn, lfn) && k0 <= from
  {
  }

  lemma SectorPassedOn(es: seq<Entry>, k0: nat, from: nat, j: nat, lfn: seq<Entry>)
    requires Holding(es, k0, from, 0, j, lfn, lfn) && k0 <= from <= |es|
    ensures OnHold(es, k0, from, j, lfn)
  {
    if from == |es| || es[from][0] == 0 {
      HoldEnd(es, k0, from, 0, j, lfn, lfn);
    }
  }

  // ---- the loops over sectors and clusters ----

  /** The state between two sectors of the directory. As compiled there is an end mark behind the
      first cluster, so that reading ends at once. */
  ghost predicate Pending(g: Geometry, es: seq<Entry>, k0: nat, m: nat, j: nat, lfn: seq<Entry>, held: seq<Entry>) {
    && SLOTS * m <= |es| && OnHold(es, k0, SLOTS * m, j, lfn) && (lfn == held || lfn == [])
    && (g.written && SLOTS * m < |es| ==> es[SLOTS * m][0] == 0)
  }

  lemma PendingParts(g: Geometry, es: seq<Entry>, k0: nat, m: nat, j: nat, lfn: seq<Entry>, held: seq<Entry>)
    requires Pending(g, es, k0, m, j, lfn, held)
    ensures SLOTS * m <= |es| && OnHold(es, k0, SLOTS * m, j, lfn) && (lfn == held || lfn == [])
    ensures g.written && SLOTS * m < |es| ==> es[SLOTS * m][0] == 0
  {
  }

  lemma PendingNow(g: Geometry, es: seq<Entry>, k0: nat, m: nat, j: nat, lfn: seq<Entry>, held: seq<Entry>)
    requires SLOTS * m <= |es| && OnHold(es, k0, SLOTS * m, j, lfn) && (lfn == held || lfn == []) && !g.written
    ensures Pending(g, es, k0, m, j, lfn, held)
  {
  }

  lemma FitsLess(es: seq<Entry>, k0: nat, held: seq<Entry>, lfn: seq<Entry>)
    requires FitsBehind(es, k0, |held|) && (lfn == held || lfn == [])
    ensures FitsBehind(es, k0, |lfn|)
  {
  }

  /** One round of the sector loop. */
  method SectorOn(p: Partition, cluster: nat, offset: nat, name: Name, lfn: seq<Entry>, ghost held: seq<Entry>,
                  ghost s: seq<nat>, ghost es: seq<Entry>, ghost k0: nat, ghost q: nat, ghost m: nat, ghost j0: nat)
    returns (again: bool, moreEnt: bool, lfnEnt: seq<Entry>, ghost j: nat)
    requires p.Mounted() && Readable(p, s, es) && 0 !in name && q < |s| && cluster == s[q] && Absent(es, name, false)
    requires offset < p.g.sectorsPerCluster && m == Times(p.g.sectorsPerCluster, q) + offset
    requires Pending(p.g, es, k0, m, j0, lfn, held) && FitsBehind(es, k0, |held|) && LongName(held) == name
    ensures again ==> Mistaken(es, k0)
    ensures !again && !moreEnt ==> !Mistaken(es, k0)
    ensures !again && moreEnt ==> !p.g.written && Pending(p.g, es, k0, m + 1, j, lfnEnt, held)
  {
    hide *;
    ReadableSector(p, s, es, q, offset, m);
    NextSector(m);
    PendingParts(p.g, es, k0, m, j0, lfn, held);
    FitsLess(es, k0, held, lfn);
    var sector := p.ReadData(Base(p.g.sectorsPerCluster, cluster) + offset);
    var dirent := Slots(sector);
    SlotCount(sector);
    SlotsPositive();
    var r;
    r, lfnEnt, j := ScanOn(dirent, name, lfn, es, k0, SLOTS * m, j0);
    again, moreEnt := r.Found?, !r.Ended?;
    if r.Passed? {
      PendingNow(p.g, es, k0, m + 1, j, lfnEnt, held);
    }
  }

  lemma SlotsPositive()
    ensures SLOTS > 0
  {
  }

  /** The loop over one cluster's sectors. */
  method ClusterOn(p: Partition, cluster: nat, name: Name, lfn: seq<Entry>, ghost held: seq<Entry>,
                   ghost s: seq<nat>, ghost es: seq<Entry>, ghost k0: nat, ghost q: nat, ghost j0: nat)
    returns (again: bool, moreEnt: bool, lfnEnt: seq<Entry>, ghost j: nat)
    requires p.Mounted() && Readable(p, s, es) && 0 !in name && q < |s| && cluster == s[q] && Absent(es, name, false)
    requires Pending(p.g, es, k0, Times(p.g.sectorsPerCluster, q), j0, lfn, held) && FitsBehind(es, k0, |held|)
    requires LongName(held) == name
    ensures again ==> Mistaken(es, k0)
    ensures !again && !moreEnt ==> !Mistaken(es, k0)
    ensures !again && moreEnt ==> Pending(p.g, es, k0, Times(p.g.sectorsPerCluster, q + 1), j, lfnEnt, held)
  {
    hide *;
    SomeSectorsThere(p, q);
    var offset := 0;
    again, moreEnt, lfnEnt, j := false, true, lfn, j0;
    while offset < p.g.Lap() && !again && moreEnt
      invariant offset <= p.g.sectorsPerCluster && (again ==> Mistaken(es, k0))
      invariant !again && !moreEnt ==> !Mistaken(es, k0)
      invariant !again && moreEnt ==>
        Pending(p.g, es, k0, Times(p.g.sectorsPerCluster, q) + offset, j, lfnEnt, held) && (p.g.written ==> offset == 0)
    {
      again, moreEnt, lfnEnt, j :=
        SectorOn(p, cluster, offset, name, lfnEnt, held, s, es, k0, q, Times(p.g.sectorsPerCluster, q) + offset, j);
      offset := offset + 1;
    }
  }

  lemma SomeSectorsThere(p: Partition, q: nat)
    requires p.Mounted()
    ensures 0 < p.g.sectorsPerCluster <= p.g.Lap() && (!p.g.written ==> p.g.Lap() == p.g.sectorsPerCluster)
    ensures Times(p.g.sectorsPerCluster, q) + p.g.sectorsPerCluster == Times(p.g.sectorsPerCluster, q + 1)
  {
  }

  /** The rest of the loop over the directory's clusters, from cluster `k` of the chain on. */
  method ReadOn(p: Partition, first: nat, name: Name, held: seq<Entry>, ghost s: seq<nat>, ghost es: seq<Entry>,
                ghost k: nat)
    returns (again: bool)
    requires p.Mounted() && Readable(p, s, es) && 0 !in name && Following(p.Fat(), s, k, first) && 0 < k
    requires Absent(es, name, false) && LongName(held) == name && held != []
    requires FitsBehind(es, SLOTS * Times(p.g.sectorsPerCluster, k), |held|)
    ensures again <==> Mistaken(es, SLOTS * Times(p.g.sectorsPerCluster, k))
  {
    hide *;
    ghost var f := p.Fat();
    FollowOn(f, s, k, first);
    StartsAt(p, k);
    ghost var k0: nat := SLOTS * Times(p.g.sectorsPerCluster, k);
    ghost var j := PendingFirst(p, s, es, k, held);
    var next: nat := first;
    var lfnEnt := held;
    again := false;
    var moreEnt := true;
    ghost var i := k;
    while moreEnt && next < END_OF_CHAIN && !again
      invariant !again && moreEnt ==>
        Following(f, s, i, next) && Pending(p.g, es, k0, Times(p.g.sectorsPerCluster, i), j, lfnEnt, held)
      invariant again ==> Mistaken(es, k0)
      invariant !again && !moreEnt ==> !Mistaken(es, k0)
      decreases if !again && moreEnt then |s| - i + 1 else 0
    {
      FollowOn(f, s, i, next);
      again, moreEnt, lfnEnt, j := ClusterOn(p, next, name, lfnEnt, held, s, es, k0, i, j);
      next := p.ReadFatEntry(next);
      i := i + 1;
    }
    if !again && moreEnt {
      FollowOn(f, s, i, next);
      PendingLast(p, s, es, k0, i, j, lfnEnt, held);
    }
  }

  lemma StartsAt(p: Partition, k: nat)
    ensures SLOTS * Times(p.g.sectorsPerCluster, k) >= 0
  {
  }

  lemma PendingLast(p: Partition, s: seq<nat>, es: seq<Entry>, k0: nat, i: nat, j: nat, lfn: seq<Entry>,
                    held: seq<Entry>)
    requires p.Mounted() && Readable(p, s, es) && i == |s|
    requires Pending(p.g, es, k0, Times(p.g.sectorsPerCluster, i), j, lfn, held)
    ensures !Mistaken(es, k0)
  {
    hide Mistaken, Holding;
  }

  /** Reading from the beginning has passed `k`, if no end mark lies before it. */
  lemma {:induction false} ReadTo(es: seq<Entry>, i: nat, run: nat, j: nat, k: nat) returns (j': nat)
    requires Reading(es, i, run, j) && i <= k <= |es| && k % SLOTS == 0 && forall l :: i <= l < k ==> es[l][0] != 0
    ensures Reading(es, k, 0, j')
    decreases k - i
  {
    hide Reading, IsLong, IsDot;
    if i == k {
      ReadBoundary(es, k, run, j);
      j' := j;
    } else if es[i][0] == DELETED {
      ReadFree(es, i, run, j);
      j' := ReadTo(es, i + 1, 0, j, k);
    } else if IsLong(es[i]) {
      ReadLong(es, i, run, j);
      j' := ReadTo(es, i + 1, run + 1, j, k);
    } else if IsDot(es[i]) {
      ReadDot(es, i, run, j);
      j' := ReadTo(es, i + 1, 0, j, k);
    } else {
      ReadShort(es, i, run, j);
      j' := ReadTo(es, i + 1, 0, j + 1, k);
    }
  }

  /** Before the first entry is read, all that is held is stale. */
  lemma HoldFirst(es: seq<Entry>, k: nat, held: seq<Entry>) returns (j: nat)
    requires Tidy(es, 0, 0) && k <= |es| && k % SLOTS == 0 && held != []
    ensures OnHold(es, k, k, j, held)
  {
    j := 0;
    if k == |es| || es[k][0] == 0 {
      UsedAt(es, k, k);
    } else {
      forall z | 0 <= z < k
        ensures es[z][0] != 0
      {
        if es[z][0] == 0 {
          AnyZero(es, 0, 0, z, k);
        }
      }
      assert Reading(es, 0, 0, 0);
      j := ReadTo(es, 0, 0, 0, k);
      assert held + es[k..k] == held;
    }
  }

  lemma PendingFirst(p: Partition, s: seq<nat>, es: seq<Entry>, k: nat, held: seq<Entry>) returns (j: nat)
    requires p.Mounted() && Readable(p, s, es) && 0 < k <= |s| && held != []
    ensures var m := Times(p.g.sectorsPerCluster, k); Pending(p.g, es, SLOTS * m, m, j, held, held)
  {
    var spc := p.g.sectorsPerCluster;
    var m := Times(spc, k);
    ChainSlots(p, s, es, k);
    hide Partition.Fat, Partition.Data, Chain, Tidy, OnHold;
    j := HoldFirst(es, SLOTS * m, held);
    if p.g.written && SLOTS * m < |es| {
      var z :| 0 <= z < |es| && z < SLOTS * spc && es[z][0] == 0;
      AnyZero(es, 0, 0, z, SLOTS * m);
    }
  }

  lemma ChainSlots(p: Partition, s: seq<nat>, es: seq<Entry>, k: nat)
    requires p.Mounted() && Readable(p, s, es) && 0 < k <= |s|
    ensures p.g.sectorsPerCluster <= Times(p.g.sectorsPerCluster, k) <= Times(p.g.sectorsPerCluster, |s|)
    ensures |es| == SLOTS * Times(p.g.sectorsPerCluster, |s|)
  {
    if k < |s| {
      TimesGrows(p.g.sectorsPerCluster, k, |s|);
    }
  }

  /** In a directory whose items all have long names, and which has no dot entries behind `k`, nothing
      is taken for something else. The entries that this file system makes are like that. */
  lemma NamesProtect(es: seq<Entry>, k: nat)
    requires Tidy(es, 0, 0) && k % SLOTS == 0
    requires forall j :: 0 <= j < |Items(es, 0, 0)| ==> Items(es, 0, 0)[j].run > 0
    requires forall l :: k <= l < |es| ==> !IsDotEntry(es[l])
    ensures !Mistaken(es, k)
  {
    if Mistaken(es, k) {
      var i := FirstUsed(es, k);
      forall z | 0 <= z < k
        ensures es[z][0] != 0
      {
        if es[z][0] == 0 {
          AnyZero(es, 0, 0, z, i);
        }
      }
      assert Reading(es, 0, 0, 0);
      hide Reading, IsLong, IsDot, NameOf;
      var j := ReadTo(es, 0, 0, 0, k);
      ReadFreely(es, k, j, i);
      ReadShort(es, i, 0, j);
    }
  }

  lemma {:induction false} ReadFreely(es: seq<Entry>, k: nat, j: nat, i: nat)
    requires Reading(es, k, 0, j) && k <= i <= |es| && forall l :: k <= l < i ==> es[l][0] == DELETED
    ensures Reading(es, i, 0, j)
    decreases i - k
  {
    hide Reading;
    if k < i {
      ReadFree(es, k, 0, j);
      ReadFreely(es, k + 1, j, i);
    }
  }
}
