/** The compiled loops over a directory read one sector too many from every cluster. What the loops
    that look for items see of a directory (fat.c:442-496, 653-688, 703-756, 778-882, 899-1016,
    1096-1132, 1148-1184, 1245-1305), where the ones that look for room find it (fat.c:374-425,
    581-639), and when that is right. */
module Walks {
  import opened Bytes
  import opened Chains
  import opened FileData
  import opened WriteLoops
  import opened LongNames
  import opened Directories
  import opened Trees
  import opened SlotScan
  import opened Placement

  /** An item as a loop comes across it: its name, and where its short entry lies. */
  datatype Sight = Sight(name: Option<Name>, sector: nat, index: nat)

  /** The sector that a loop with the given lap reads in step `m`. */
  function SectorRead(d: seq<Sector>, spc: nat, lap: nat, s: seq<nat>, m: nat): Sector
    requires LapsFit(|d|, spc, lap, s) && m < Times(lap, |s|)
  {
    PlaceFits(|d|, spc, lap, s, m);
    d[PlaceAt(spc, lap, s, m)]
  }

  /** All entries in the order in which the loop reads them. */
  function Walked(d: seq<Sector>, spc: nat, lap: nat, s: seq<nat>): (es: seq<Entry>)
    requires LapsFit(|d|, spc, lap, s)
    ensures |es| == SLOTS * Times(lap, |s|)
  {
    AllSlots(seq(Times(lap, |s|), m requires 0 <= m < Times(lap, |s|) => SectorRead(d, spc, lap, s, m)))
  }

  function SightOf(spc: nat, lap: nat, s: seq<nat>, x: Item): Sight
    requires lap > 0 && (forall i :: 0 <= i < |s| ==> s[i] >= 2) && LapOf(lap, x.at / SLOTS) < |s|
  {
    Sight(x.name, PlaceAt(spc, lap, s, x.at / SLOTS), x.at % SLOTS)
  }

  lemma {:induction false} ItemWithin(es: seq<Entry>, i: nat, run: nat, k: nat)
    requires run <= i <= |es| && k < |Items(es, i, run)|
    ensures i <= Items(es, i, run)[k].at < |es|
    ensures var x := Items(es, i, run)[k]; Live(es[x.at])
    decreases |es| - i
  {
    hide NameOf;
    if Live(es[i]) && IsLong(es[i]) {
      ItemWithin(es, i + 1, run + 1, k);
    } else if es[i][0] == DELETED || IsDot(es[i]) {
      ItemWithin(es, i + 1, 0, k);
    } else if k > 0 {
      ItemWithin(es, i + 1, 0, k - 1);
    }
  }

  lemma SightPlaced(d: seq<Sector>, spc: nat, lap: nat, s: seq<nat>, k: nat)
    requires LapsFit(|d|, spc, lap, s) && k < |Items(Walked(d, spc, lap, s), 0, 0)|
    ensures var x := Items(Walked(d, spc, lap, s), 0, 0)[k];
      x.at / SLOTS < Times(lap, |s|) && LapOf(lap, x.at / SLOTS) < |s|
  {
    hide LapOf, Times, Items, Walked;
    ItemWithin(Walked(d, spc, lap, s), 0, 0, k);
    WalkedSize(d, spc, lap, s);
    LapWithin(lap, Items(Walked(d, spc, lap, s), 0, 0)[k].at / SLOTS, |s|);
  }

  lemma WalkedSize(d: seq<Sector>, spc: nat, lap: nat, s: seq<nat>)
    requires LapsFit(|d|, spc, lap, s)
    ensures |Walked(d, spc, lap, s)| == SLOTS * Times(lap, |s|)
  {
  }

  /** What a loop with the given lap sees of the directory with chain `s`, in order. */
  function Sights(d: seq<Sector>, spc: nat, lap: nat, s: seq<nat>): (r: seq<Sight>)
    requires LapsFit(|d|, spc, lap, s)
    ensures |r| == |Items(Walked(d, spc, lap, s), 0, 0)|
  {
    var xs := Items(Walked(d, spc, lap, s), 0, 0);
    seq(|xs|, k requires 0 <= k < |xs| => SightPlaced(d, spc, lap, s, k); SightOf(spc, lap, s, xs[k]))
  }

  /** The compiled loop sees what is there. */
  ghost predicate SeesRight(d: seq<Sector>, spc: nat, s: seq<nat>)
    requires spc > 0 && LapsFit(|d|, spc, spc + 1, s)
  {
    Sights(d, spc, spc + 1, s) == Sights(d, spc, spc, s)
  }

  /** The clusters of `s` are the same; what lies around them may be anything. */
  ghost predicate SameDirectory(d: seq<Sector>, d': seq<Sector>, spc: nat, s: seq<nat>)
    requires InArea(|d|, spc, s)
  {
    |d'| == |d| && forall i :: 0 <= i < |s| ==> Cluster(d', spc, s[i]) == Cluster(d, spc, s[i])
  }

  ghost predicate Directory(d: seq<Sector>, spc: nat, s: seq<nat>) {
    spc > 0 && s != [] && Distinct(s) && LapsFit(|d|, spc, spc + 1, s) && InArea(|d|, spc, s)
  }

  lemma BothLaps(n: nat, spc: nat, s: seq<nat>)
    requires spc > 0 && LapsFit(n, spc, spc + 1, s)
    ensures LapsFit(n, spc, spc, s)
  {
  }

  // ---- entries of a walk ----

  lemma WalkedAt(d: seq<Sector>, spc: nat, lap: nat, s: seq<nat>, m: nat, i: nat)
    requires LapsFit(|d|, spc, lap, s) && m < Times(lap, |s|) && i < SLOTS
    ensures SLOTS * m + i < |Walked(d, spc, lap, s)|
    ensures Walked(d, spc, lap, s)[SLOTS * m + i] == EntryAt(SectorRead(d, spc, lap, s, m), i)
  {
    assert (SLOTS * m + i) / SLOTS == m && (SLOTS * m + i) % SLOTS == i;
  }

  /** With one lap per cluster, a walk goes through the directory's entries. */
  lemma WalkedIsDir(d: seq<Sector>, spc: nat, s: seq<nat>)
    requires Directory(d, spc, s)
    ensures LapsFit(|d|, spc, spc, s) && Walked(d, spc, spc, s) == DirSlots(d, spc, s)
  {
    BothLaps(|d|, spc, s);
    var ss := ChainSectors(d, spc, s);
    var tt := seq(Times(spc, |s|), m requires 0 <= m < Times(spc, |s|) => SectorRead(d, spc, spc, s, m));
    forall m | 0 <= m < Times(spc, |s|)
      ensures tt[m] == ss[m]
    {
      PlaceFits(|d|, spc, spc, s, m);
      LapParts(spc, m);
      hide LapOf, InLap, Times, Base, ChainSectors;
      ChainSectorsAt(d, spc, s, LapOf(spc, m), InLap(spc, m));
    }
    assert tt == ss;
  }

  /** Two rows that agree up to a zero entry show the same items. */
  lemma {:induction false} SameUpTo(a: seq<Entry>, b: seq<Entry>, i: nat, run: nat, z: nat)
    requires run <= i <= z < |a| && z < |b| && a[z][0] == 0 && forall k :: 0 <= k <= z ==> a[k] == b[k]
    ensures Items(a, i, run) == Items(b, i, run)
    ensures forall k :: 0 <= k < |Items(a, i, run)| ==> Items(a, i, run)[k].at < z
    decreases z - i
  {
    hide NameOf;
    if a[i][0] != 0 {
      assert a[i - run..i] == b[i - run..i];
      SameUpTo(a, b, i + 1, if Live(a[i]) && IsLong(a[i]) then run + 1 else 0, z);
    }
  }

  /** With either lap, the first `n` steps of the loop lead to the same sectors. */
  ghost predicate SameSteps(spc: nat, s: seq<nat>, n: nat)
    requires spc > 0
  {
    forall m :: 0 <= m < n ==>
      LapOf(spc, m) < |s| && LapOf(spc + 1, m) < |s| && s[LapOf(spc, m)] >= 2 && s[LapOf(spc + 1, m)] >= 2
      && PlaceAt(spc, spc + 1, s, m) == PlaceAt(spc, spc, s, m)
  }

  lemma SameStep(spc: nat, s: seq<nat>, n: nat, m: nat)
    requires spc > 0 && SameSteps(spc, s, n) && m < n
    ensures LapOf(spc, m) < |s| && LapOf(spc + 1, m) < |s| && s[LapOf(spc, m)] >= 2 && s[LapOf(spc + 1, m)] >= 2
    ensures PlaceAt(spc, spc + 1, s, m) == PlaceAt(spc, spc, s, m)
  {
  }

  /** The first `n` sectors that both loops read are the same ones, and a zero entry is among theirs. */
  lemma EndedInTime(d: seq<Sector>, spc: nat, s: seq<nat>, n: nat, z: nat)
    requires spc > 0 && LapsFit(|d|, spc, spc + 1, s) && LapsFit(|d|, spc, spc, s)
    requires n <= Times(spc, |s|) && n <= Times(spc + 1, |s|)
    requires SameSteps(spc, s, n)
    requires z < SLOTS * n && z < |Walked(d, spc, spc, s)| && Walked(d, spc, spc, s)[z][0] == 0
    ensures SeesRight(d, spc, s)
  {
    hide LapOf, InLap, Times, Base, PlaceAt, Items, LapsFit, SameSteps;
    var a, b := Walked(d, spc, spc, s), Walked(d, spc, spc + 1, s);
    WalkedSize(d, spc, spc + 1, s);
    WalkedSize(d, spc, spc, s);
    forall k | 0 <= k <= z
      ensures k < |a| && k < |b| && a[k] == b[k]
    {
      SameStep(spc, s, n, k / SLOTS);
      WalkedAt(d, spc, spc, s, k / SLOTS, k % SLOTS);
      WalkedAt(d, spc, spc + 1, s, k / SLOTS, k % SLOTS);
      assert SLOTS * (k / SLOTS) + k % SLOTS == k;
    }
    hide Walked;
    SameUpTo(a, b, 0, 0, z);
    SightsSame(d, spc, s, n);
  }

  lemma SightsSame(d: seq<Sector>, spc: nat, s: seq<nat>, n: nat)
    requires spc > 0 && LapsFit(|d|, spc, spc + 1, s) && LapsFit(|d|, spc, spc, s)
    requires Items(Walked(d, spc, spc, s), 0, 0) == Items(Walked(d, spc, spc + 1, s), 0, 0)
    requires forall k :: 0 <= k < |Items(Walked(d, spc, spc, s), 0, 0)| ==>
      Items(Walked(d, spc, spc, s), 0, 0)[k].at < SLOTS * n
    requires SameSteps(spc, s, n)
    ensures SeesRight(d, spc, s)
  {
    hide LapOf, InLap, Times, Base, PlaceAt, Items, Walked, SameSteps;
    var xs := Items(Walked(d, spc, spc, s), 0, 0);
    forall k | 0 <= k < |xs|
      ensures Sights(d, spc, spc + 1, s)[k] == Sights(d, spc, spc, s)[k]
    {
      assert xs[k].at / SLOTS < n;
      SameStep(spc, s, n, xs[k].at / SLOTS);
    }
  }

  // ---- where the compiled loop is right ----

  /** A directory looks the same wherever its clusters are the same. */
  lemma SameEntries(d: seq<Sector>, d': seq<Sector>, spc: nat, s: seq<nat>)
    requires Directory(d, spc, s) && SameDirectory(d, d', spc, s)
    ensures Directory(d', spc, s) && DirSlots(d', spc, s) == DirSlots(d, spc, s)
  {
    ChainSectorsFrame(d, d', spc, s);
  }

  /** An end mark in the first cluster: the loop stops before it runs over. */
  lemma EarlyIsRight(d: seq<Sector>, spc: nat, s: seq<nat>)
    requires Directory(d, spc, s) && LapsFit(|d|, spc, spc + 1, s) && InArea(|d|, spc, s)
    requires EndsEarly(DirSlots(d, spc, s), spc)
    ensures SeesRight(d, spc, s)
  {
    hide *;
    DirectoryParts(d, spc, s);
    WalkedIsDir(d, spc, s);
    FirstCluster(spc, s);
    EndsEarlyIs(DirSlots(d, spc, s), spc);
    var z := EndWithin(DirSlots(d, spc, s), SLOTS * spc);
    EndedInTime(d, spc, s, spc, z);
  }

  /** ... or in the first sector of the next cluster, if that lies right behind the first one. */
  lemma NextIsRight(d: seq<Sector>, spc: nat, s: seq<nat>, z: nat)
    requires Directory(d, spc, s) && |s| > 1 && s[1] == s[0] + 1
    requires z < |DirSlots(d, spc, s)| && z < SLOTS * (spc + 1) && DirSlots(d, spc, s)[z][0] == 0
    ensures SeesRight(d, spc, s)
  {
    WalkedIsDir(d, spc, s);
    TwoLaps(spc, s);
    hide LapOf, InLap, Times, Base, DirSlots, Walked, Items, SameSteps, LapsFit;
    EndedInTime(d, spc, s, spc + 1, z);
  }

  lemma TwoLaps(spc: nat, s: seq<nat>)
    requires spc > 0 && |s| > 1 && s[1] == s[0] + 1 && s[0] >= 2
    ensures spc + 1 <= Times(spc, |s|) && spc + 1 < Times(spc + 1, |s|)
    ensures SameSteps(spc, s, spc + 1)
    ensures LapOf(spc, spc) == 1 && InLap(spc, spc) == 0 && LapOf(spc + 1, spc + 1) == 1 && InLap(spc + 1, spc + 1) == 0
  {
    FirstLaps(spc);
    FirstLaps(spc + 1);
    TimesGrows(spc, 1, |s|);
    TimesGrows(spc + 1, 1, |s|);
    hide LapOf, InLap;
  }

  // ---- and where it is not ----

  /** The places of a directory's own sectors are all different. */
  lemma PlacesDiffer(spc: nat, s: seq<nat>, m: nat, m': nat)
    requires spc > 0 && Distinct(s) && (forall i :: 0 <= i < |s| ==> s[i] >= 2) && m < Times(spc, |s|)
    requires m' < Times(spc, |s|) && m != m'
    ensures LapOf(spc, m) < |s| && LapOf(spc, m') < |s| && PlaceAt(spc, spc, s, m) != PlaceAt(spc, spc, s, m')
  {
    LapWithin(spc, m, |s|);
    LapWithin(spc, m', |s|);
    LapParts(spc, m);
    LapParts(spc, m');
    hide LapOf, InLap, Times, Base;
    if LapOf(spc, m) != LapOf(spc, m') {
      BaseApart(spc, s[LapOf(spc, m)], s[LapOf(spc, m')]);
    }
  }

  /** No item of the directory itself is come across twice, and none outside its clusters. */
  lemma SightsOfDir(d: seq<Sector>, spc: nat, s: seq<nat>, k: nat)
    requires Directory(d, spc, s) && LapsFit(|d|, spc, spc, s) && k < |Sights(d, spc, spc, s)|
    ensures forall j :: 0 <= j < |Sights(d, spc, spc, s)| && j != k ==>
      Sights(d, spc, spc, s)[j].sector != Sights(d, spc, spc, s)[k].sector ||
      Sights(d, spc, spc, s)[j].index != Sights(d, spc, spc, s)[k].index
    ensures forall c :: c >= 2 && c !in s ==> Sights(d, spc, spc, s)[k].sector != Base(spc, c)
  {
    hide LapOf, InLap, Times, Base, Walked, Items, PlaceAt, EndsEarly;
    var xs := Items(Walked(d, spc, spc, s), 0, 0);
    SightAt(d, spc, spc, s, k);
    forall j | 0 <= j < |Sights(d, spc, spc, s)| && j != k
      ensures Sights(d, spc, spc, s)[j].sector != Sights(d, spc, spc, s)[k].sector ||
      Sights(d, spc, spc, s)[j].index != Sights(d, spc, spc, s)[k].index
    {
      SightAt(d, spc, spc, s, j);
      SightsDiffer(Walked(d, spc, spc, s), j, k);
      if xs[j].at / SLOTS != xs[k].at / SLOTS {
        PlacesDiffer(spc, s, xs[j].at / SLOTS, xs[k].at / SLOTS);
      }
    }
    forall c | c >= 2 && c !in s
      ensures Sights(d, spc, spc, s)[k].sector != Base(spc, c)
    {
      PlaceInside(spc, s, xs[k].at / SLOTS, c);
    }
  }

  lemma PlaceInside(spc: nat, s: seq<nat>, m: nat, c: nat)
    requires spc > 0 && LapOf(spc, m) < |s| && s[LapOf(spc, m)] >= 2 && c >= 2 && c !in s
    ensures PlaceAt(spc, spc, s, m) != Base(spc, c)
  {
    LapParts(spc, m);
    hide LapOf, InLap, Times, Base;
    BaseApart(spc, s[LapOf(spc, m)], c);
  }

  lemma SightsDiffer(es: seq<Entry>, j: nat, k: nat)
    requires j < |Items(es, 0, 0)| && k < |Items(es, 0, 0)| && j != k
    ensures Items(es, 0, 0)[j].at != Items(es, 0, 0)[k].at
  {
    hide Items;
    if j < k {
      ItemsAscend(es, 0, 0, j, k);
    } else {
      ItemsAscend(es, 0, 0, k, j);
    }
  }

  lemma SightAt(d: seq<Sector>, spc: nat, lap: nat, s: seq<nat>, k: nat)
    requires LapsFit(|d|, spc, lap, s) && k < |Sights(d, spc, lap, s)|
    ensures var x := Items(Walked(d, spc, lap, s), 0, 0)[k];
      && x.at / SLOTS < Times(lap, |s|) && LapOf(lap, x.at / SLOTS) < |s| && s[LapOf(lap, x.at / SLOTS)] >= 2
      && Sights(d, spc, lap, s)[k] == Sight(x.name, PlaceAt(spc, lap, s, x.at / SLOTS), x.at % SLOTS)
  {
    hide LapOf, InLap, Times, Base, Walked, Items, PlaceAt;
    SightPlaced(d, spc, lap, s, k);
  }

  /** A short entry that the loop gets to is seen. */
  lemma Seen(d: seq<Sector>, spc: nat, lap: nat, s: seq<nat>, m: nat, i: nat) returns (k: nat)
    requires LapsFit(|d|, spc, lap, s) && m < Times(lap, |s|) && i < SLOTS && LapOf(lap, m) < |s|
    requires s[LapOf(lap, m)] >= 2
    requires |Walked(d, spc, lap, s)| == SLOTS * Times(lap, |s|)
    requires forall j :: 0 <= j < SLOTS * m + i ==> Walked(d, spc, lap, s)[j][0] != 0
    requires var e := Walked(d, spc, lap, s)[SLOTS * m + i]; Live(e) && !IsLong(e) && !IsDot(e)
    ensures k < |Sights(d, spc, lap, s)| && Items(Walked(d, spc, lap, s), 0, 0)[k].at == SLOTS * m + i
    ensures Sights(d, spc, lap, s)[k].sector == PlaceAt(spc, lap, s, m) && Sights(d, spc, lap, s)[k].index == i
  {
    hide LapOf, InLap, Times, Base, Walked, Items, PlaceAt, IsLong, IsDot;
    k := ShortIsItem(Walked(d, spc, lap, s), 0, 0, SLOTS * m + i);
    SightAt(d, spc, lap, s, k);
    assert (SLOTS * m + i) / SLOTS == m && (SLOTS * m + i) % SLOTS == i;
  }

  lemma {:induction false} FirstZero(es: seq<Entry>, i: nat) returns (z: nat)
    requires i <= |es|
    ensures i <= z <= |es| && (forall k :: i <= k < z ==> es[k][0] != 0) && (z < |es| ==> es[z][0] == 0)
    decreases |es| - i
  {
    z := i;
    if i < |es| && es[i][0] != 0 {
      z := FirstZero(es, i + 1);
    }
  }

  /** None of the first `n` entries ends the directory. */
  ghost predicate NoEndBefore(es: seq<Entry>, n: nat) {
    forall j :: 0 <= j < n && j < |es| ==> es[j][0] != 0
  }

  /** The first `n` + 1 entries are the same. */
  ghost predicate SameTo(a: seq<Entry>, b: seq<Entry>, n: nat) {
    |a| == |b| && forall k :: 0 <= k <= n && k < |a| ==> a[k] == b[k]
  }

  /** The loop gets to step `m`: no entry before it ends the directory. */
  ghost predicate Reached(d: seq<Sector>, spc: nat, s: seq<nat>, m: nat)
    requires LapsFit(|d|, spc, spc + 1, s)
  {
    m < Times(spc + 1, |s|) && NoEndBefore(Walked(d, spc, spc + 1, s), SLOTS * m)
  }

  /** Where the loop runs over a cluster before it ends, it runs into one of the directory's own. */
  ghost predicate StaysInside(d: seq<Sector>, spc: nat, s: seq<nat>)
    requires LapsFit(|d|, spc, spc + 1, s)
  {
    forall m: nat :: Reached(d, spc, s, m) && InLap(spc + 1, m) == spc && LapOf(spc + 1, m) < |s| ==>
      s[LapOf(spc + 1, m)] + 1 in s
  }

  /** One sector behind a cluster. */
  lemma BaseNext(spc: nat, c: nat)
    requires c >= 2
    ensures Base(spc, c + 1) == Base(spc, c) + spc
  {
  }

  /** A sector of the directory is the same wherever the directory is the same. */
  lemma SectorInside(d: seq<Sector>, d': seq<Sector>, spc: nat, s: seq<nat>, q: nat, o: nat)
    requires Directory(d, spc, s) && SameDirectory(d, d', spc, s) && q < |s| && o < spc
    ensures s[q] >= 2 && Base(spc, s[q]) + o < |d| && d'[Base(spc, s[q]) + o] == d[Base(spc, s[q]) + o]
  {
    hide Base, LapsFit, Times;
    assert Cluster(d', spc, s[q])[o] == Cluster(d, spc, s[q])[o];
  }

  lemma ReadInside(d: seq<Sector>, d': seq<Sector>, spc: nat, s: seq<nat>, m: nat)
    requires Directory(d, spc, s) && SameDirectory(d, d', spc, s) && m < Times(spc + 1, |s|)
    requires LapOf(spc + 1, m) < |s| && (InLap(spc + 1, m) == spc ==> s[LapOf(spc + 1, m)] + 1 in s)
    ensures LapsFit(|d'|, spc, spc + 1, s) && SectorRead(d', spc, spc + 1, s, m) == SectorRead(d, spc, spc + 1, s, m)
  {
    PlaceFits(|d|, spc, spc + 1, s, m);
    LapParts(spc + 1, m);
    hide LapOf, InLap, Times, Base, SameDirectory;
    var q, o := LapOf(spc + 1, m), InLap(spc + 1, m);
    if o < spc {
      SectorInside(d, d', spc, s, q, o);
    } else {
      BaseNext(spc, s[q]);
      var j :| 0 <= j < |s| && s[j] == s[q] + 1;
      SectorInside(d, d', spc, s, j, 0);
    }
  }

  /** As long as the loop stays inside, it reads the same entries. */
  lemma SameWalk(d: seq<Sector>, d': seq<Sector>, spc: nat, s: seq<nat>, z: nat, a: seq<Entry>, b: seq<Entry>)
    requires Directory(d, spc, s) && LapsFit(|d|, spc, spc + 1, s) && LapsFit(|d'|, spc, spc + 1, s)
    requires InArea(|d|, spc, s)
    requires SameDirectory(d, d', spc, s) && StaysInside(d, spc, s)
    requires a == Walked(d, spc, spc + 1, s) && b == Walked(d', spc, spc + 1, s) && NoEndBefore(a, z)
    ensures SameTo(a, b, z)
  {
    hide LapOf, InLap, Times, Base, SameDirectory, Walked, SectorRead, Directory, LapsFit, InArea;
    WalkedSize(d, spc, spc + 1, s);
    WalkedSize(d', spc, spc + 1, s);
    forall k | 0 <= k <= z && k < |a|
      ensures a[k] == b[k]
    {
      var m := k / SLOTS;
      LapExists(|d|, spc, s, m);
      assert Reached(d, spc, s, m);
      ReadInside(d, d', spc, s, m);
      WalkedAt(d, spc, spc + 1, s, m, k % SLOTS);
      WalkedAt(d', spc, spc + 1, s, m, k % SLOTS);
      assert SLOTS * m + k % SLOTS == k;
    }
  }

  lemma LapExists(n: nat, spc: nat, s: seq<nat>, m: nat)
    requires LapsFit(n, spc, spc + 1, s) && m < Times(spc + 1, |s|)
    ensures LapOf(spc + 1, m) < |s|
  {
    LapWithin(spc + 1, m, |s|);
  }

  lemma SameWalkItems(d: seq<Sector>, d': seq<Sector>, spc: nat, s: seq<nat>)
    requires Directory(d, spc, s) && LapsFit(|d|, spc, spc + 1, s) && LapsFit(|d'|, spc, spc + 1, s)
    requires InArea(|d|, spc, s)
    requires SameDirectory(d, d', spc, s) && StaysInside(d, spc, s)
    ensures Items(Walked(d', spc, spc + 1, s), 0, 0) == Items(Walked(d, spc, spc + 1, s), 0, 0)
  {
    hide LapOf, InLap, Times, Base, SameDirectory, Walked, Directory, LapsFit, InArea, StaysInside, Items;
    var a, b := Walked(d, spc, spc + 1, s), Walked(d', spc, spc + 1, s);
    var z := FirstZero(a, 0);
    SameWalk(d, d', spc, s, z, a, b);
    if z < |a| {
      SameUpTo(a, b, 0, 0, z);
    } else {
      assert a == b;
    }
  }

  /** Right once and inside means right whatever lies around the directory. */
  lemma InsideIsRight(d: seq<Sector>, d': seq<Sector>, spc: nat, s: seq<nat>)
    requires Directory(d, spc, s) && SameDirectory(d, d', spc, s) && StaysInside(d, spc, s) && SeesRight(d, spc, s)
    ensures Directory(d', spc, s) && SeesRight(d', spc, s)
  {
    hide LapOf, InLap, Times, Base, SameDirectory, Walked, StaysInside, Items, DirSlots;
    SameEntries(d, d', spc, s);
    WalkedIsDir(d, spc, s);
    WalkedIsDir(d', spc, s);
    SameWalkItems(d, d', spc, s);
    SameSights(d, d', spc, spc, s);
    SameSights(d, d', spc, spc + 1, s);
  }

  lemma SameSights(d: seq<Sector>, d': seq<Sector>, spc: nat, lap: nat, s: seq<nat>)
    requires LapsFit(|d|, spc, lap, s) && LapsFit(|d'|, spc, lap, s)
    requires Items(Walked(d', spc, lap, s), 0, 0) == Items(Walked(d, spc, lap, s), 0, 0)
    ensures Sights(d', spc, lap, s) == Sights(d, spc, lap, s)
  {
    hide LapOf, InLap, Times, Base, Walked, Items, PlaceAt;
    forall k | 0 <= k < |Sights(d, spc, lap, s)|
      ensures Sights(d', spc, lap, s)[k] == Sights(d, spc, lap, s)[k]
    {
      SightAt(d, spc, lap, s, k);
      SightAt(d', spc, lap, s, k);
    }
  }

  /** A sector that the loop can take for one of a directory's: sixteen short entries. */
  function Stranger(): (x: Sector)
    ensures forall i :: 0 <= i < SLOTS ==> EntryAt(x, i)[0] == 65 && EntryAt(x, i)[11] == 0
  {
    seq(SECTOR_SIZE, k => if k % ENTRY_SIZE == 0 then 65 else 0)
  }

  lemma AroundDir(d: seq<Sector>, spc: nat, s: seq<nat>, c: nat, x: Sector)
    requires Directory(d, spc, s) && c >= 2 && c !in s && Base(spc, c) < |d|
    ensures SameDirectory(d, d[Base(spc, c) := x], spc, s)
  {
    hide Base, Times, LapsFit;
    var d' := d[Base(spc, c) := x];
    forall i | 0 <= i < |s|
      ensures Cluster(d', spc, s[i]) == Cluster(d, spc, s[i])
    {
      BaseApart(spc, s[i], c);
    }
  }

  lemma StrangerRead(d: seq<Sector>, spc: nat, s: seq<nat>, m: nat, at: nat, m': nat)
    requires LapsFit(|d|, spc, spc + 1, s) && at < |d| && m' < Times(spc + 1, |s|)
    ensures LapOf(spc + 1, m') < |s| && s[LapOf(spc + 1, m')] >= 2
    ensures SectorRead(d[at := Stranger()], spc, spc + 1, s, m') ==
            if PlaceAt(spc, spc + 1, s, m') == at then Stranger() else SectorRead(d, spc, spc + 1, s, m')
  {
    hide LapOf, InLap, Times, Base, PlaceAt, LapsFit, Stranger;
    PlaceFits(|d|, spc, spc + 1, s, m');
  }

  lemma StrangerReached(d: seq<Sector>, spc: nat, s: seq<nat>, m: nat, at: nat)
    requires LapsFit(|d|, spc, spc + 1, s) && at < |d| && Reached(d, spc, s, m)
    ensures Reached(d[at := Stranger()], spc, s, m)
  {
    hide LapOf, InLap, Times, Base, PlaceAt, LapsFit, Stranger, SectorRead, Walked;
    var d' := d[at := Stranger()];
    var a, b := Walked(d, spc, spc + 1, s), Walked(d', spc, spc + 1, s);
    WalkedSize(d, spc, spc + 1, s);
    forall j | 0 <= j < SLOTS * m && j < |b|
      ensures b[j][0] != 0
    {
      var m', i := j / SLOTS, j % SLOTS;
      assert SLOTS * m' + i == j;
      WalkedAt(d, spc, spc + 1, s, m', i);
      WalkedAt(d', spc, spc + 1, s, m', i);
      StrangerRead(d, spc, s, m, at, m');
      StrangerEntries(i);
    }
  }

  lemma StrangerEntries(i: nat)
    requires i < SLOTS
    ensures var e := EntryAt(Stranger(), i); e[0] != 0 && Live(e) && !IsLong(e) && !IsDot(e)
  {
  }

  lemma StrangerSight(d: seq<Sector>, spc: nat, s: seq<nat>, m: nat) returns (k: nat)
    requires LapsFit(|d|, spc, spc + 1, s) && Reached(d, spc, s, m) && SectorRead(d, spc, spc + 1, s, m) == Stranger()
    ensures LapOf(spc + 1, m) < |s| && s[LapOf(spc + 1, m)] >= 2
    ensures k < |Sights(d, spc, spc + 1, s)| && Sights(d, spc, spc + 1, s)[k].sector == PlaceAt(spc, spc + 1, s, m)
  {
    hide LapOf, InLap, Times, Base, PlaceAt, LapsFit, Stranger, SectorRead, Walked, Items, IsLong, IsDot;
    PlaceFits(|d|, spc, spc + 1, s, m);
    WalkedSize(d, spc, spc + 1, s);
    WalkedAt(d, spc, spc + 1, s, m, 0);
    StrangerEntries(0);
    k := Seen(d, spc, spc + 1, s, m, 0);
  }

  lemma SeesRightIs(d: seq<Sector>, spc: nat, s: seq<nat>)
    requires spc > 0 && LapsFit(|d|, spc, spc + 1, s) && SeesRight(d, spc, s)
    ensures LapsFit(|d|, spc, spc, s) && Sights(d, spc, spc + 1, s) == Sights(d, spc, spc, s)
  {
    BothLaps(|d|, spc, s);
  }

  lemma DirectoryParts(d: seq<Sector>, spc: nat, s: seq<nat>)
    requires Directory(d, spc, s)
    ensures spc > 0 && s != [] && LapsFit(|d|, spc, spc + 1, s) && LapsFit(|d|, spc, spc, s)
    ensures forall i :: 0 <= i < |s| ==> s[i] >= 2
  {
    BothLaps(|d|, spc, s);
  }

  /** If the loop runs into a sector that is not the directory's, it sees what lies there. */
  lemma OutsideIsWrong(d: seq<Sector>, spc: nat, s: seq<nat>, m: nat) returns (d': seq<Sector>)
    requires Directory(d, spc, s) && LapsFit(|d|, spc, spc + 1, s) && Reached(d, spc, s, m)
    requires LapOf(spc + 1, m) < |s| && InLap(spc + 1, m) == spc && s[LapOf(spc + 1, m)] + 1 !in s
    ensures Directory(d', spc, s) && InArea(|d|, spc, s) && SameDirectory(d, d', spc, s) && !SeesRight(d', spc, s)
  {
    DirectoryParts(d, spc, s);
    hide LapOf, InLap, Times, Base, Walked, Items, SeesRight, LapsFit, Stranger, SectorRead, Sights, DirSlots;
    var c := s[LapOf(spc + 1, m)] + 1;
    var at := PlaceAt(spc, spc + 1, s, m);
    BaseNext(spc, c - 1);
    ReachedInside(d, spc, s, m);
    PlaceFits(|d|, spc, spc + 1, s, m);
    d' := d[at := Stranger()];
    AroundDir(d, spc, s, c, Stranger());
    SameEntries(d, d', spc, s);
    StrangerReached(d, spc, s, m, at);
    StrangerRead(d, spc, s, m, at, m);
    if SeesRight(d', spc, s) {
      SeesRightIs(d', spc, s);
      var k := StrangerSight(d', spc, s, m);
      SightsOfDir(d', spc, s, k);
      assert false;
    }
  }

  lemma ReachedInside(d: seq<Sector>, spc: nat, s: seq<nat>, m: nat)
    requires LapsFit(|d|, spc, spc + 1, s) && Reached(d, spc, s, m)
    ensures m < Times(spc + 1, |s|)
  {
  }

  /** For every directory: the compiled loop sees what is there, whatever lies around the directory,
      exactly when it never leaves it before the end and sees it right as it lies. */
  lemma RightAnywhereIff(d: seq<Sector>, spc: nat, s: seq<nat>)
    requires Directory(d, spc, s) && LapsFit(|d|, spc, spc + 1, s) && InArea(|d|, spc, s)
    ensures StaysInside(d, spc, s) && SeesRight(d, spc, s) <==>
            forall d' :: SameDirectory(d, d', spc, s) ==> SeesRight(d', spc, s)
  {
    hide LapOf, InLap, Times, Base, Walked, Items, SeesRight, LapsFit, InArea, Reached;
    ItselfSame(d, spc, s);
    if StaysInside(d, spc, s) && SeesRight(d, spc, s) {
      forall d' | SameDirectory(d, d', spc, s)
        ensures SeesRight(d', spc, s)
      {
        InsideIsRight(d, d', spc, s);
      }
    } else if !StaysInside(d, spc, s) {
      var m: nat :|
        Reached(d, spc, s, m) && InLap(spc + 1, m) == spc && LapOf(spc + 1, m) < |s| && s[LapOf(spc + 1, m)] + 1 !in s;
      var d' := OutsideIsWrong(d, spc, s, m);
    }
  }

  lemma ItselfSame(d: seq<Sector>, spc: nat, s: seq<nat>)
    requires InArea(|d|, spc, s)
    ensures SameDirectory(d, d, spc, s)
  {
  }

  // ---- the first cluster ----

  lemma EndsEarlyIs(es: seq<Entry>, spc: nat)
    ensures EndsEarly(es, spc) <==> !NoEndBefore(es, SLOTS * spc)
  {
    if !NoEndBefore(es, SLOTS * spc) {
      var z :| 0 <= z < SLOTS * spc && z < |es| && es[z][0] == 0;
    }
  }

  /** In the first `n` steps the loop reads the directory's own entries. */
  lemma FirstSteps(d: seq<Sector>, spc: nat, s: seq<nat>, n: nat, a: seq<Entry>, b: seq<Entry>)
    requires Directory(d, spc, s) && LapsFit(|d|, spc, spc + 1, s) && LapsFit(|d|, spc, spc, s) && InArea(|d|, spc, s)
    requires n <= Times(spc, |s|) && n <= Times(spc + 1, |s|)
    requires SameSteps(spc, s, n)
    requires a == DirSlots(d, spc, s) && b == Walked(d, spc, spc + 1, s)
    ensures SLOTS * n <= |a| && SLOTS * n <= |b| && a[..SLOTS * n] == b[..SLOTS * n]
  {
    WalkedIsDir(d, spc, s);
    hide LapOf, InLap, Times, Base, PlaceAt, LapsFit, DirSlots, Walked, SameSteps;
    WalkedSize(d, spc, spc + 1, s);
    WalkedSize(d, spc, spc, s);
    forall k | 0 <= k < SLOTS * n
      ensures a[k] == b[k]
    {
      SameStep(spc, s, n, k / SLOTS);
      WalkedAt(d, spc, spc, s, k / SLOTS, k % SLOTS);
      WalkedAt(d, spc, spc + 1, s, k / SLOTS, k % SLOTS);
      assert SLOTS * (k / SLOTS) + k % SLOTS == k;
    }
  }

  lemma SameBegin(a: seq<Entry>, b: seq<Entry>, n: nat)
    requires n <= |a| && n <= |b| && a[..n] == b[..n]
    ensures NoEndBefore(a, n) <==> NoEndBefore(b, n)
    ensures forall k :: 0 <= k < n ==> a[k] == b[k]
  {
    assert forall k :: 0 <= k < n ==> a[k] == a[..n][k] && b[k] == b[..n][k];
  }

  lemma FirstCluster(spc: nat, s: seq<nat>)
    requires spc > 0 && s != [] && forall i :: 0 <= i < |s| ==> s[i] >= 2
    ensures spc <= Times(spc, |s|) && spc < Times(spc + 1, |s|) && LapOf(spc + 1, spc) == 0
    ensures InLap(spc + 1, spc) == spc
    ensures SameSteps(spc, s, spc)
  {
    FirstLaps(spc);
    FirstLaps(spc + 1);
    TimesGrows(spc, 0, |s|);
    TimesGrows(spc + 1, 0, |s|);
  }

  /** Unless the cluster behind the first one is the directory's as well: the compiled loop sees what
      is there, whatever lies around, exactly when the first cluster holds an end mark. */
  lemma RightAnywhereAlone(d: seq<Sector>, spc: nat, s: seq<nat>)
    requires Directory(d, spc, s) && LapsFit(|d|, spc, spc + 1, s) && InArea(|d|, spc, s) && s[0] + 1 !in s
    ensures EndsEarly(DirSlots(d, spc, s), spc) <==> forall d' :: SameDirectory(d, d', spc, s) ==> SeesRight(d', spc, s)
  {
    DirectoryParts(d, spc, s);
    FirstCluster(spc, s);
    EndsEarlyIs(DirSlots(d, spc, s), spc);
    hide LapOf, InLap, Times, Base, Walked, Items, SeesRight, LapsFit, InArea, DirSlots, EndsEarly, NoEndBefore;
    hide PlaceAt;
    if EndsEarly(DirSlots(d, spc, s), spc) {
      forall d' | SameDirectory(d, d', spc, s)
        ensures SeesRight(d', spc, s)
      {
        SameEntries(d, d', spc, s);
        EarlyIsRight(d', spc, s);
      }
    } else {
      FirstSteps(d, spc, s, spc, DirSlots(d, spc, s), Walked(d, spc, spc + 1, s));
      SameBegin(DirSlots(d, spc, s), Walked(d, spc, spc + 1, s), SLOTS * spc);
      var d' := OutsideIsWrong(d, spc, s, spc);
    }
  }

  /** Entries from which an item starts or at which the directory ends. */
  predicate Speaks(e: Entry) {
    e[0] == 0 || (Live(e) && !IsLong(e) && !IsDot(e))
  }

  /** The first sector of the second cluster is read twice: its items are seen twice. */
  lemma SeenTwice(d: seq<Sector>, spc: nat, s: seq<nat>, i: nat)
    requires Directory(d, spc, s) && LapsFit(|d|, spc, spc + 1, s) && InArea(|d|, spc, s) && |s| > 1 && s[1] == s[0] + 1
    requires i < SLOTS && NoEndBefore(DirSlots(d, spc, s), SLOTS * (spc + 1)) && SLOTS * spc + i < |DirSlots(d, spc, s)|
    requires var e := DirSlots(d, spc, s)[SLOTS * spc + i]; Live(e) && !IsLong(e) && !IsDot(e)
    ensures !SeesRight(d, spc, s)
  {
    hide *;
    DirectoryParts(d, spc, s);
    var a, b := DirSlots(d, spc, s), Walked(d, spc, spc + 1, s);
    TwiceThere(d, spc, s, a, b);
    ReadAgain(d, spc, s, i, a, b);
    var k1 := Seen(d, spc, spc + 1, s, spc, i);
    var k2 := Seen(d, spc, spc + 1, s, spc + 1, i);
    PlacesOf(spc, k1, k2, i, Items(b, 0, 0));
    if SeesRight(d, spc, s) {
      SeesRightIs(d, spc, s);
      SightsOfDir(d, spc, s, k1);
      assert false;
    }
  }

  lemma PlacesOf(spc: nat, k1: nat, k2: nat, i: nat, xs: seq<Item>)
    requires k1 < |xs| && k2 < |xs| && xs[k1].at == SLOTS * spc + i && xs[k2].at == SLOTS * (spc + 1) + i
    ensures k1 != k2
  {
  }

  lemma TwiceThere(d: seq<Sector>, spc: nat, s: seq<nat>, a: seq<Entry>, b: seq<Entry>)
    requires Directory(d, spc, s) && LapsFit(|d|, spc, spc + 1, s) && InArea(|d|, spc, s) && |s| > 1 && s[1] == s[0] + 1
    requires a == DirSlots(d, spc, s) && b == Walked(d, spc, spc + 1, s) && NoEndBefore(a, SLOTS * (spc + 1))
    ensures SLOTS * (spc + 1) <= |a| && NoEndBefore(b, SLOTS * (spc + 1))
    ensures SLOTS * (spc + 1) <= |b| && forall k :: 0 <= k < SLOTS * (spc + 1) ==> a[k] == b[k]
  {
    DirectoryParts(d, spc, s);
    TwoLaps(spc, s);
    hide LapOf, InLap, Times, Base, PlaceAt, Walked, DirSlots, LapsFit, InArea, NoEndBefore, SameSteps;
    FirstSteps(d, spc, s, spc + 1, a, b);
    SameBegin(a, b, SLOTS * (spc + 1));
  }

  lemma ReadAgain(d: seq<Sector>, spc: nat, s: seq<nat>, i: nat, a: seq<Entry>, b: seq<Entry>)
    requires Directory(d, spc, s) && LapsFit(|d|, spc, spc + 1, s) && |s| > 1 && s[1] == s[0] + 1 && i < SLOTS
    requires b == Walked(d, spc, spc + 1, s) && SLOTS * (spc + 1) <= |a| && NoEndBefore(b, SLOTS * (spc + 1))
    requires SLOTS * (spc + 1) <= |b| && forall k :: 0 <= k < SLOTS * (spc + 1) ==> a[k] == b[k]
    ensures |b| == SLOTS * Times(spc + 1, |s|) && spc + 1 < Times(spc + 1, |s|)
    ensures forall k :: 0 <= k < SLOTS * (spc + 1) + i ==> b[k][0] != 0
    ensures b[SLOTS * spc + i] == b[SLOTS * (spc + 1) + i] == a[SLOTS * spc + i]
    ensures LapOf(spc + 1, spc) < |s| && LapOf(spc + 1, spc + 1) < |s| && s[LapOf(spc + 1, spc)] >= 2
    ensures s[LapOf(spc + 1, spc + 1)] >= 2
    ensures PlaceAt(spc, spc + 1, s, spc) == PlaceAt(spc, spc + 1, s, spc + 1)
  {
    AgainThere(d, spc, s);
    hide LapOf, InLap, Times, Base, Walked, SectorRead, PlaceAt, LapsFit, Directory, NoEndBefore;
    WalkedSize(d, spc, spc + 1, s);
    WalkedAt(d, spc, spc + 1, s, spc, i);
    WalkedAt(d, spc, spc + 1, s, spc + 1, i);
    NoEndFront(b, SLOTS * (spc + 1));
    forall k | 0 <= k < SLOTS * (spc + 1) + i
      ensures b[k][0] != 0
    {
      if k >= SLOTS * (spc + 1) {
        var l := k - SLOTS * (spc + 1);
        WalkedAt(d, spc, spc + 1, s, spc, l);
        WalkedAt(d, spc, spc + 1, s, spc + 1, l);
        assert b[SLOTS * spc + l][0] != 0;
      }
    }
  }

  lemma NoEndFront(es: seq<Entry>, n: nat)
    requires NoEndBefore(es, n) && n <= |es|
    ensures forall k :: 0 <= k < n ==> es[k][0] != 0
  {
  }

  lemma AgainThere(d: seq<Sector>, spc: nat, s: seq<nat>)
    requires Directory(d, spc, s) && LapsFit(|d|, spc, spc + 1, s) && |s| > 1 && s[1] == s[0] + 1
    ensures spc + 1 < Times(spc + 1, |s|)
    ensures LapOf(spc + 1, spc) < |s| && LapOf(spc + 1, spc + 1) < |s| && s[LapOf(spc + 1, spc)] >= 2
    ensures s[LapOf(spc + 1, spc + 1)] >= 2
    ensures PlaceAt(spc, spc + 1, s, spc) == PlaceAt(spc, spc + 1, s, spc + 1)
    ensures SectorRead(d, spc, spc + 1, s, spc) == SectorRead(d, spc, spc + 1, s, spc + 1)
  {
    TwoLaps(spc, s);
    FirstLaps(spc + 1);
    BaseNext(spc, s[0]);
    hide LapOf, InLap, Times, Base;
  }

  /** If the cluster behind the first one is the directory's second, the end mark may also lie in its
      first sector: the items there are then seen once, otherwise twice. */
  lemma RightAnywhereAdjacent(d: seq<Sector>, spc: nat, s: seq<nat>)
    requires Directory(d, spc, s) && LapsFit(|d|, spc, spc + 1, s) && InArea(|d|, spc, s) && |s| > 1 && s[1] == s[0] + 1
    requires exists k ::
               SLOTS * spc <= k < SLOTS * (spc + 1) && k < |DirSlots(d, spc, s)| && Speaks(DirSlots(d, spc, s)[k])
    ensures !NoEndBefore(DirSlots(d, spc, s), SLOTS * (spc + 1)) <==>
            forall d' :: SameDirectory(d, d', spc, s) ==> SeesRight(d', spc, s)
  {
    hide LapOf, InLap, Times, Base, Walked, Items, SeesRight, LapsFit, InArea, DirSlots, NoEndBefore, Speaks;
    var es := DirSlots(d, spc, s);
    if NoEndBefore(es, SLOTS * (spc + 1)) {
      var k :| SLOTS * spc <= k < SLOTS * (spc + 1) && k < |es| && Speaks(es[k]);
      NotTheEnd(es, SLOTS * (spc + 1), k);
      SeenTwice(d, spc, s, k - SLOTS * spc);
      ItselfSame(d, spc, s);
    } else {
      var z := EndWithin(es, SLOTS * (spc + 1));
      forall d' | SameDirectory(d, d', spc, s)
        ensures SeesRight(d', spc, s)
      {
        SameEntries(d, d', spc, s);
        NextIsRight(d', spc, s, z);
      }
    }
  }

  lemma NotTheEnd(es: seq<Entry>, n: nat, k: nat)
    requires NoEndBefore(es, n) && k < n && k < |es| && Speaks(es[k])
    ensures Live(es[k]) && !IsLong(es[k]) && !IsDot(es[k])
  {
  }

  lemma EndWithin(es: seq<Entry>, n: nat) returns (z: nat)
    requires !NoEndBefore(es, n)
    ensures z < n && z < |es| && es[z][0] == 0
  {
    z :| z < n && z < |es| && es[z][0] == 0;
  }

  // ---- looking for room ----

  /** The sector has room for a run of `n` + 1 entries, as the scan counts (SlotScan.FindSlot). */
  predicate Takes(x: Sector, n: nat) {
    RoomFrom(Slots(x), 0, 0, n) > n
  }

  /** The sector in which a search with the given lap ends, from step `m` on. */
  function SearchFrom(d: seq<Sector>, spc: nat, lap: nat, s: seq<nat>, n: nat, m: nat): (r: Option<nat>)
    requires LapsFit(|d|, spc, lap, s)
    decreases Times(lap, |s|) - m
  {
    if m >= Times(lap, |s|) then None
    else if Takes(SectorRead(d, spc, lap, s, m), n) then
      PlaceFits(|d|, spc, lap, s, m);
      Some(PlaceAt(spc, lap, s, m))
    else SearchFrom(d, spc, lap, s, n, m + 1)
  }

  /** The compiled search ends where it should, in the first sector with room or at the chain's end. */
  ghost predicate FindsRight(d: seq<Sector>, spc: nat, s: seq<nat>, n: nat)
    requires spc > 0 && LapsFit(|d|, spc, spc + 1, s)
  {
    SearchFrom(d, spc, spc + 1, s, n, 0) == SearchFrom(d, spc, spc, s, n, 0)
  }

  /** The search with the given lap gets to step `m`: no sector before it has room. */
  ghost predicate SearchReaches(d: seq<Sector>, spc: nat, lap: nat, s: seq<nat>, n: nat, m: nat)
    requires LapsFit(|d|, spc, lap, s)
  {
    m <= Times(lap, |s|) && forall k :: 0 <= k < m ==> !Takes(SectorRead(d, spc, lap, s, k), n)
  }

  lemma {:induction false} SearchedTo(d: seq<Sector>, spc: nat, lap: nat, s: seq<nat>, n: nat, m: nat)
    requires LapsFit(|d|, spc, lap, s) && SearchReaches(d, spc, lap, s, n, m)
    ensures SearchFrom(d, spc, lap, s, n, 0) == SearchFrom(d, spc, lap, s, n, m)
    decreases m
  {
    hide Takes, SectorRead, Times, LapsFit, PlaceAt;
    if m > 0 {
      assert !Takes(SectorRead(d, spc, lap, s, m - 1), n);
      SearchedTo(d, spc, lap, s, n, m - 1);
    }
  }

  /** A search ends at the first sector with room. */
  lemma {:induction false} SearchEnds(d: seq<Sector>, spc: nat, lap: nat, s: seq<nat>, n: nat, m: nat) returns (k: nat)
    requires LapsFit(|d|, spc, lap, s) && SearchReaches(d, spc, lap, s, n, m)
    ensures m <= k && SearchReaches(d, spc, lap, s, n, k)
    ensures k < Times(lap, |s|) ==> Takes(SectorRead(d, spc, lap, s, k), n)
    decreases Times(lap, |s|) - m
  {
    hide Takes, SectorRead, Times, LapsFit;
    k := m;
    if m < Times(lap, |s|) && !Takes(SectorRead(d, spc, lap, s, m), n) {
      k := SearchEnds(d, spc, lap, s, n, m + 1);
    }
  }

  lemma SearchResult(d: seq<Sector>, spc: nat, lap: nat, s: seq<nat>, n: nat, k: nat)
    requires LapsFit(|d|, spc, lap, s) && SearchReaches(d, spc, lap, s, n, k)
    requires k < Times(lap, |s|) ==> Takes(SectorRead(d, spc, lap, s, k), n)
    ensures k < Times(lap, |s|) ==> LapOf(lap, k) < |s| && s[LapOf(lap, k)] >= 2
    ensures SearchFrom(d, spc, lap, s, n, 0) == if k < Times(lap, |s|) then Some(PlaceAt(spc, lap, s, k)) else None
  {
    SearchedTo(d, spc, lap, s, n, k);
    if k < Times(lap, |s|) {
      PlaceFits(|d|, spc, lap, s, k);
    }
    hide Takes, SectorRead, Times, PlaceAt, LapOf, InLap;
  }

  ghost predicate SearchGets(d: seq<Sector>, spc: nat, s: seq<nat>, n: nat, m: nat)
    requires LapsFit(|d|, spc, spc + 1, s)
  {
    SearchReaches(d, spc, spc + 1, s, n, m) && m < Times(spc + 1, |s|)
  }

  /** Where the search runs over a cluster before it ends, it runs into one of the directory's own. */
  ghost predicate SearchStays(d: seq<Sector>, spc: nat, s: seq<nat>, n: nat)
    requires LapsFit(|d|, spc, spc + 1, s)
  {
    forall m: nat :: SearchGets(d, spc, s, n, m) && InLap(spc + 1, m) == spc && LapOf(spc + 1, m) < |s| ==>
      s[LapOf(spc + 1, m)] + 1 in s
  }

  lemma {:induction false} SameSearch(d: seq<Sector>, d': seq<Sector>, spc: nat, s: seq<nat>, n: nat, k: nat)
    requires Directory(d, spc, s) && LapsFit(|d|, spc, spc + 1, s) && LapsFit(|d'|, spc, spc + 1, s)
    requires InArea(|d|, spc, s)
    requires SameDirectory(d, d', spc, s) && SearchStays(d, spc, s, n) && SearchReaches(d, spc, spc + 1, s, n, k)
    ensures SearchReaches(d', spc, spc + 1, s, n, k)
    ensures k < Times(spc + 1, |s|) ==> SectorRead(d', spc, spc + 1, s, k) == SectorRead(d, spc, spc + 1, s, k)
    decreases k
  {
    hide Takes, Times, LapsFit, SectorRead, Directory, InArea, SameDirectory, LapOf, InLap;
    if k < Times(spc + 1, |s|) {
      LapExists(|d|, spc, s, k);
      assert SearchGets(d, spc, s, n, k);
      ReadInside(d, d', spc, s, k);
    }
    if k > 0 {
      assert !Takes(SectorRead(d, spc, spc + 1, s, k - 1), n);
      assert SearchReaches(d, spc, spc + 1, s, n, k - 1);
      SameSearch(d, d', spc, s, n, k - 1);
    }
  }

  lemma SearchInside(d: seq<Sector>, d': seq<Sector>, spc: nat, s: seq<nat>, n: nat)
    requires Directory(d, spc, s) && LapsFit(|d|, spc, spc + 1, s) && LapsFit(|d'|, spc, spc + 1, s)
    requires InArea(|d|, spc, s)
    requires SameDirectory(d, d', spc, s) && SearchStays(d, spc, s, n)
    ensures SearchFrom(d', spc, spc + 1, s, n, 0) == SearchFrom(d, spc, spc + 1, s, n, 0)
  {
    hide *;
    ReachesFirst(d, spc, spc + 1, s, n);
    var k := SearchEnds(d, spc, spc + 1, s, n, 0);
    SameSearch(d, d', spc, s, n, k);
    SearchResult(d, spc, spc + 1, s, n, k);
    SearchResult(d', spc, spc + 1, s, n, k);
  }

  lemma ReachesFirst(d: seq<Sector>, spc: nat, lap: nat, s: seq<nat>, n: nat)
    requires LapsFit(|d|, spc, lap, s)
    ensures SearchReaches(d, spc, lap, s, n, 0)
  {
  }

  /** With one lap per cluster the search only sees the directory. */
  lemma {:induction false} RightSearch(d: seq<Sector>, d': seq<Sector>, spc: nat, s: seq<nat>, n: nat, m: nat)
    requires Directory(d, spc, s) && LapsFit(|d|, spc, spc, s) && LapsFit(|d'|, spc, spc, s) && InArea(|d|, spc, s)
    requires SameDirectory(d, d', spc, s)
    ensures SearchFrom(d', spc, spc, s, n, m) == SearchFrom(d, spc, spc, s, n, m)
    ensures forall c :: c >= 2 && c !in s ==> SearchFrom(d, spc, spc, s, n, m) != Some(Base(spc, c))
    decreases Times(spc, |s|) - m
  {
    hide Takes, Times, LapsFit, Directory, InArea, SameDirectory, LapOf, InLap, PlaceAt, Base;
    if m < Times(spc, |s|) {
      RightRead(d, d', spc, s, m);
      forall c | c >= 2 && c !in s
        ensures PlaceAt(spc, spc, s, m) != Base(spc, c)
      {
        PlaceInside(spc, s, m, c);
      }
      hide SectorRead;
      RightSearch(d, d', spc, s, n, m + 1);
    }
  }

  lemma RightRead(d: seq<Sector>, d': seq<Sector>, spc: nat, s: seq<nat>, m: nat)
    requires Directory(d, spc, s) && LapsFit(|d|, spc, spc, s) && LapsFit(|d'|, spc, spc, s) && InArea(|d|, spc, s)
    requires SameDirectory(d, d', spc, s) && m < Times(spc, |s|)
    ensures spc > 0 && LapOf(spc, m) < |s| && s[LapOf(spc, m)] >= 2 && PlaceAt(spc, spc, s, m) < |d|
    ensures SectorRead(d', spc, spc, s, m) == SectorRead(d, spc, spc, s, m)
  {
    PlaceFits(|d|, spc, spc, s, m);
    LapParts(spc, m);
    hide LapOf, InLap, Times, Base, SameDirectory;
    SectorInside(d, d', spc, s, LapOf(spc, m), InLap(spc, m));
  }

  /** An empty sector has room for any name. */
  function EmptySector(): (x: Sector)
    ensures forall n :: 0 <= n < SLOTS ==> Takes(x, n)
  {
    var x: Sector := seq(SECTOR_SIZE, k => 0);
    assert forall i :: 0 <= i < SLOTS ==> Slots(x)[i][0] == 0;
    x
  }

  lemma EmptyTaken(n: nat)
    requires n < SLOTS
    ensures Takes(EmptySector(), n)
  {
  }

  /** If the search gets to a sector that is not the directory's, it can end there. */
  lemma SearchOutside(d: seq<Sector>, spc: nat, s: seq<nat>, n: nat, m: nat) returns (d': seq<Sector>)
    requires Directory(d, spc, s) && LapsFit(|d|, spc, spc + 1, s) && InArea(|d|, spc, s) && n < SLOTS
    requires SearchReaches(d, spc, spc + 1, s, n, m) && m < Times(spc + 1, |s|)
    requires LapOf(spc + 1, m) < |s| && InLap(spc + 1, m) == spc && s[LapOf(spc + 1, m)] + 1 !in s
    ensures |d'| == |d| && SameDirectory(d, d', spc, s) && !FindsRight(d', spc, s, n)
  {
    hide *;
    DirectoryParts(d, spc, s);
    var c := s[LapOf(spc + 1, m)] + 1;
    var at := PlaceAt(spc, spc + 1, s, m);
    OverrunPlace(spc, s, m);
    PlaceFits(|d|, spc, spc + 1, s, m);
    d' := d[at := EmptySector()];
    AroundDir(d, spc, s, c, EmptySector());
    SearchHits(d, spc, s, n, m, at);
    RightSearch(d, d', spc, s, n, 0);
    FindsRightIs(d', spc, s, n);
  }

  lemma OverrunPlace(spc: nat, s: seq<nat>, m: nat)
    requires LapOf(spc + 1, m) < |s| && InLap(spc + 1, m) == spc && s[LapOf(spc + 1, m)] >= 2
    ensures PlaceAt(spc, spc + 1, s, m) == Base(spc, s[LapOf(spc + 1, m)] + 1)
  {
    BaseNext(spc, s[LapOf(spc + 1, m)]);
    hide Base;
  }

  lemma FindsRightIs(d: seq<Sector>, spc: nat, s: seq<nat>, n: nat)
    requires spc > 0 && LapsFit(|d|, spc, spc + 1, s)
    ensures LapsFit(|d|, spc, spc, s)
    ensures FindsRight(d, spc, s, n) <==> SearchFrom(d, spc, spc + 1, s, n, 0) == SearchFrom(d, spc, spc, s, n, 0)
  {
    BothLaps(|d|, spc, s);
  }

  lemma SearchHits(d: seq<Sector>, spc: nat, s: seq<nat>, n: nat, m: nat, at: nat)
    requires LapsFit(|d|, spc, spc + 1, s) && n < SLOTS && at < |d|
    requires SearchReaches(d, spc, spc + 1, s, n, m) && m < Times(spc + 1, |s|)
    requires LapOf(spc + 1, m) < |s| && s[LapOf(spc + 1, m)] >= 2 && at == PlaceAt(spc, spc + 1, s, m)
    ensures SearchFrom(d[at := EmptySector()], spc, spc + 1, s, n, 0) == Some(at)
  {
    hide LapOf, InLap, Times, Base, LapsFit, EmptySector, Takes, SearchFrom, PlaceAt;
    var d' := d[at := EmptySector()];
    EmptyTaken(n);
    ReachesFirst(d', spc, spc + 1, s, n);
    var k := SearchEnds(d', spc, spc + 1, s, n, 0);
    assert Takes(SectorRead(d', spc, spc + 1, s, m), n);
    assert k <= m;
    PlaceFits(|d|, spc, spc + 1, s, k);
    SearchResult(d', spc, spc + 1, s, n, k);
    if k < m {
      TakenThere(d, spc, s, n, at, k);
    }
  }

  lemma TakenThere(d: seq<Sector>, spc: nat, s: seq<nat>, n: nat, at: nat, k: nat)
    requires LapsFit(|d|, spc, spc + 1, s) && at < |d| && k < Times(spc + 1, |s|)
    requires !Takes(SectorRead(d, spc, spc + 1, s, k), n)
    requires Takes(SectorRead(d[at := EmptySector()], spc, spc + 1, s, k), n)
    ensures LapOf(spc + 1, k) < |s| && s[LapOf(spc + 1, k)] >= 2 && PlaceAt(spc, spc + 1, s, k) == at
  {
    hide LapOf, InLap, Times, Base, LapsFit, EmptySector, Takes, PlaceAt;
    PlaceFits(|d|, spc, spc + 1, s, k);
  }

  /** For every directory and every name: the compiled search for room ends where it should, whatever
      lies around the directory, exactly when it never leaves it before it ends and ends right as
      the directory lies. */
  lemma FindsAnywhereIff(d: seq<Sector>, spc: nat, s: seq<nat>, n: nat)
    requires Directory(d, spc, s) && LapsFit(|d|, spc, spc + 1, s) && InArea(|d|, spc, s) && n < SLOTS
    ensures SearchStays(d, spc, s, n) && FindsRight(d, spc, s, n) <==>
            forall d' :: SameDirectory(d, d', spc, s) ==> FindsRight(d', spc, s, n)
  {
    DirectoryParts(d, spc, s);
    hide LapOf, InLap, Times, Base, LapsFit, InArea, SearchReaches, SearchFrom, Directory;
    ItselfSame(d, spc, s);
    if SearchStays(d, spc, s, n) && FindsRight(d, spc, s, n) {
      forall d' | SameDirectory(d, d', spc, s)
        ensures FindsRight(d', spc, s, n)
      {
        SearchInside(d, d', spc, s, n);
        RightSearch(d, d', spc, s, n, 0);
      }
    } else if !SearchStays(d, spc, s, n) {
      var m: nat :| SearchGets(d, spc, s, n, m) && InLap(spc + 1, m) == spc && LapOf(spc + 1, m) < |s|
                    && s[LapOf(spc + 1, m)] + 1 !in s;
      var d' := SearchOutside(d, spc, s, n, m);
    }
  }

  lemma SlotsRead(d: seq<Sector>, spc: nat, s: seq<nat>, m: nat)
    requires Directory(d, spc, s) && LapsFit(|d|, spc, spc, s) && InArea(|d|, spc, s) && m < Times(spc, |s|)
    ensures SLOTS * (m + 1) <= |DirSlots(d, spc, s)|
    ensures DirSlots(d, spc, s)[SLOTS * m..SLOTS * (m + 1)] == Slots(SectorRead(d, spc, spc, s, m))
  {
    WalkedIsDir(d, spc, s);
    var ss := seq(Times(spc, |s|), k requires 0 <= k < Times(spc, |s|) => SectorRead(d, spc, spc, s, k));
    hide SectorRead, DirSlots, Times, LapsFit;
    AllSlotsAt(ss, m);
  }

  /** No sector from `m` to `k` has room: the choice is made from `k` on. */
  lemma {:induction false} PickedBehind(d: seq<Sector>, spc: nat, s: seq<nat>, n: nat, k: nat)
    requires Directory(d, spc, s) && LapsFit(|d|, spc, spc, s) && InArea(|d|, spc, s)
    requires SearchReaches(d, spc, spc, s, n, k)
    ensures PickSlot(DirSlots(d, spc, s), n, 0) == PickSlot(DirSlots(d, spc, s), n, k)
    decreases k
  {
    hide SectorRead, DirSlots, Times, LapsFit, Directory, InArea, RoomFrom;
    if k > 0 {
      assert !Takes(SectorRead(d, spc, spc, s, k - 1), n);
      assert SearchReaches(d, spc, spc, s, n, k - 1);
      PickedBehind(d, spc, s, n, k - 1);
      SlotsRead(d, spc, s, k - 1);
    }
  }

  /** The choice falls into the first cluster exactly when a sector there has room. */
  lemma PickedFirst(d: seq<Sector>, spc: nat, s: seq<nat>, n: nat)
    requires Directory(d, spc, s) && LapsFit(|d|, spc, spc, s) && InArea(|d|, spc, s) && spc <= Times(spc, |s|)
    ensures (exists m :: 0 <= m < spc && m < Times(spc, |s|) && Takes(SectorRead(d, spc, spc, s, m), n)) <==>
            var p := PickSlot(DirSlots(d, spc, s), n, 0); p.Some? && p.value < SLOTS * spc
  {
    hide SectorRead, DirSlots, Times, LapsFit, Directory, InArea, RoomFrom, FreeIndex;
    ReachesFirst(d, spc, spc, s, n);
    var k := SearchEnds(d, spc, spc, s, n, 0);
    if k < spc {
      PickedBehind(d, spc, s, n, k);
      SlotsRead(d, spc, s, k);
      RoomMeansFree(Slots(SectorRead(d, spc, spc, s, k)), 0, 0, n);
    } else {
      assert SearchReaches(d, spc, spc, s, n, spc);
      PickedBehind(d, spc, s, n, spc);
      PickedLater(DirSlots(d, spc, s), n, spc);
    }
  }

  /** Unless the cluster behind the first one is the directory's as well, that is: exactly when the
      entry to be chosen lies in the first cluster. */
  lemma FindsAnywhereAlone(d: seq<Sector>, spc: nat, s: seq<nat>, n: nat)
    requires Directory(d, spc, s) && LapsFit(|d|, spc, spc + 1, s) && InArea(|d|, spc, s) && n < SLOTS && s[0] + 1 !in s
    ensures (var p := PickSlot(DirSlots(d, spc, s), n, 0); p.Some? && p.value < SLOTS * spc) <==>
            forall d' :: SameDirectory(d, d', spc, s) ==> FindsRight(d', spc, s, n)
  {
    hide LapOf, InLap, Times, Base, LapsFit, InArea, SearchReaches, SearchFrom, Directory, Takes, PlaceAt, SameSteps;
    hide DirSlots, PickSlot;
    DirectoryParts(d, spc, s);
    FirstCluster(spc, s);
    PickedFirst(d, spc, s, n);
    if m :| 0 <= m < spc && m < Times(spc, |s|) && Takes(SectorRead(d, spc, spc, s, m), n) {
      forall d' | SameDirectory(d, d', spc, s)
        ensures FindsRight(d', spc, s, n)
      {
        RightRead(d, d', spc, s, m);
        FoundInTime(d', spc, s, n, m);
      }
    } else {
      NoneInTime(d, spc, s, n);
      var d' := SearchOutside(d, spc, s, n, spc);
    }
  }

  lemma FoundInTime(d: seq<Sector>, spc: nat, s: seq<nat>, n: nat, m: nat)
    requires spc > 0 && LapsFit(|d|, spc, spc + 1, s) && LapsFit(|d|, spc, spc, s) && SameSteps(spc, s, spc)
    requires m < spc <= Times(spc, |s|) && spc < Times(spc + 1, |s|) && Takes(SectorRead(d, spc, spc, s, m), n)
    ensures FindsRight(d, spc, s, n)
  {
    hide LapOf, InLap, Times, Base, LapsFit, Takes, SearchFrom, PlaceAt, SameSteps;
    ReachesFirst(d, spc, spc, s, n);
    var k := SearchEnds(d, spc, spc, s, n, 0);
    assert k <= m;
    SearchResult(d, spc, spc, s, n, k);
    SameReads(d, spc, s, n, k);
    SearchResult(d, spc, spc + 1, s, n, k);
    SameStep(spc, s, spc, k);
  }

  /** Up to step `k` of the first cluster, the two searches go the same way. */
  lemma {:induction false} SameReads(d: seq<Sector>, spc: nat, s: seq<nat>, n: nat, k: nat)
    requires spc > 0 && LapsFit(|d|, spc, spc + 1, s) && LapsFit(|d|, spc, spc, s) && SameSteps(spc, s, spc)
    requires k <= spc <= Times(spc, |s|) && spc < Times(spc + 1, |s|) && SearchReaches(d, spc, spc, s, n, k)
    ensures SearchReaches(d, spc, spc + 1, s, n, k)
    ensures k < spc ==> SectorRead(d, spc, spc + 1, s, k) == SectorRead(d, spc, spc, s, k)
    decreases k
  {
    hide LapOf, InLap, Times, Base, LapsFit, Takes, PlaceAt, SameSteps;
    if k < spc {
      SameStep(spc, s, spc, k);
    }
    hide SectorRead;
    if k > 0 {
      assert !Takes(SectorRead(d, spc, spc, s, k - 1), n);
      assert SearchReaches(d, spc, spc, s, n, k - 1);
      SameReads(d, spc, s, n, k - 1);
    }
  }

  lemma NoneInTime(d: seq<Sector>, spc: nat, s: seq<nat>, n: nat)
    requires spc > 0 && LapsFit(|d|, spc, spc + 1, s) && LapsFit(|d|, spc, spc, s) && SameSteps(spc, s, spc)
    requires spc <= Times(spc, |s|) && spc < Times(spc + 1, |s|)
    requires forall m :: 0 <= m < spc ==> !Takes(SectorRead(d, spc, spc, s, m), n)
    ensures SearchReaches(d, spc, spc + 1, s, n, spc)
  {
    hide LapOf, InLap, Times, Base, LapsFit, Takes, PlaceAt, SameSteps, SectorRead;
    SameReads(d, spc, s, n, spc);
  }
}
