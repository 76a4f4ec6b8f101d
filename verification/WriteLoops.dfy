/** What the two write loops leave in the data area: rewriting (fat.c:851-876) is appending to
    nothing (fat.c:972-1010). A lap is the number of sectors written to one cluster. */
module WriteLoops {
  import opened Bytes
  import opened Chains
  import opened FileData

  // ---- where a loop puts sector `m` of a file ----

  /** The lap in which sector `m` is written, that is, which cluster of the chain gets it. */
  function LapOf(lap: nat, m: nat): nat
    requires lap > 0
  {
    if m < lap then 0 else 1 + LapOf(lap, m - lap)
  }

  function InLap(lap: nat, m: nat): nat
    requires lap > 0
  {
    if m < lap then m else InLap(lap, m - lap)
  }

  lemma {:induction false} LapParts(lap: nat, m: nat)
    requires lap > 0
    ensures m == Times(lap, LapOf(lap, m)) + InLap(lap, m) && InLap(lap, m) < lap
    decreases m
  {
    if m >= lap {
      LapParts(lap, m - lap);
    }
  }

  lemma {:induction false} LapUnique(lap: nat, q: nat, o: nat, m: nat)
    requires o < lap && m == Times(lap, q) + o
    ensures LapOf(lap, m) == q && InLap(lap, m) == o
    decreases q
  {
    if q > 0 {
      LapUnique(lap, q - 1, o, m - lap);
    }
  }

  lemma LapWithin(lap: nat, m: nat, k: nat)
    requires lap > 0 && m < Times(lap, k)
    ensures LapOf(lap, m) < k
  {
    LapParts(lap, m);
    if k <= LapOf(lap, m) {
      if k < LapOf(lap, m) {
        TimesGrows(lap, k, LapOf(lap, m));
      }
    }
  }

  /** A longer lap needs no more clusters. */
  lemma {:induction false} TimesMore(n: nat, k: nat)
    ensures Times(n, k) + k == Times(n + 1, k)
    decreases k
  {
    if k > 0 {
      TimesMore(n, k - 1);
    }
  }

  /** The clusters of `s` and the sectors of one lap from each of them exist. */
  ghost predicate LapsFit(n: nat, spc: nat, lap: nat, s: seq<nat>) {
    lap > 0 && forall i :: 0 <= i < |s| ==> s[i] >= 2 && Base(spc, s[i]) + lap <= n
  }

  function PlaceAt(spc: nat, lap: nat, s: seq<nat>, m: nat): nat
    requires lap > 0 && LapOf(lap, m) < |s| && s[LapOf(lap, m)] >= 2
  {
    Base(spc, s[LapOf(lap, m)]) + InLap(lap, m)
  }

  lemma PlaceFits(n: nat, spc: nat, lap: nat, s: seq<nat>, m: nat)
    requires LapsFit(n, spc, lap, s) && m < Times(lap, |s|)
    ensures LapOf(lap, m) < |s| && s[LapOf(lap, m)] >= 2 && PlaceAt(spc, lap, s, m) < n
  {
    LapWithin(lap, m, |s|);
    LapParts(lap, m);
  }

  // ---- what becomes of one sector ----

  /** Sector `m` of a file of `w` bytes that get `data` behind them: untouched if it lies before
      the old end, else its old front, new bytes, and zeros. */
  function SectorAfter(cur: Sector, w: nat, data: seq<byte>, m: nat): Sector
    requires SECTOR_SIZE * m < w + |data|
  {
    if SECTOR_SIZE * (m + 1) <= w then cur
    else
      var keep := if SECTOR_SIZE * m < w then w - SECTOR_SIZE * m else 0;
      var from := SECTOR_SIZE * m + keep - w;
      Padded(cur[..keep] + data[from..from + Min(SECTOR_SIZE, w + |data| - SECTOR_SIZE * m) - keep])
  }

  lemma SectorByte(cur: Sector, w: nat, data: seq<byte>, m: nat, j: nat)
    requires SECTOR_SIZE * m < w + |data| && j < SECTOR_SIZE && SECTOR_SIZE * m + j < w + |data|
    ensures SectorAfter(cur, w, data, m)[j] == if SECTOR_SIZE * m + j < w then cur[j] else data[SECTOR_SIZE * m + j - w]
  {
    hide Padded;
    if SECTOR_SIZE * (m + 1) > w {
      var keep := if SECTOR_SIZE * m < w then w - SECTOR_SIZE * m else 0;
      var from := SECTOR_SIZE * m + keep - w;
      var n := Min(SECTOR_SIZE, w + |data| - SECTOR_SIZE * m) - keep;
      PaddedByte(cur[..keep], data[from..from + n], j);
    }
  }

  lemma PaddedByte(a: seq<byte>, b: seq<byte>, j: nat)
    requires |a| + |b| <= SECTOR_SIZE && j < |a| + |b|
    ensures Padded(a + b)[j] == if j < |a| then a[j] else b[j - |a|]
  {
  }

  /** How many sectors a file of `n` bytes has. */
  function SectorsOf(n: nat): nat {
    Ceil(n, SECTOR_SIZE)
  }

  lemma SectorCount(n: nat, m: nat)
    ensures m < SectorsOf(n) <==> SECTOR_SIZE * m < n
  {
  }

  /** The data area after a loop with the given lap has come past the first `m` sectors of the file. */
  function Appended(d: seq<Sector>, spc: nat, lap: nat, s: seq<nat>, w: nat, data: seq<byte>, m: nat): (r: seq<Sector>)
    requires LapsFit(|d|, spc, lap, s) && m <= Times(lap, |s|) && m <= SectorsOf(w + |data|)
    ensures |r| == |d|
    decreases m
  {
    if m == 0 then d
    else
      PlaceFits(|d|, spc, lap, s, m - 1);
      SectorCount(w + |data|, m - 1);
      var r := Appended(d, spc, lap, s, w, data, m - 1);
      var at := PlaceAt(spc, lap, s, m - 1);
      r[at := SectorAfter(r[at], w, data, m - 1)]
  }

  /** What the loop leaves: it ends behind the last sector of the file or of the chain's laps. */
  function AfterLoop(d: seq<Sector>, spc: nat, lap: nat, s: seq<nat>, w: nat, data: seq<byte>): (r: seq<Sector>)
    requires LapsFit(|d|, spc, lap, s)
    ensures |r| == |d|
  {
    Appended(d, spc, lap, s, w, data, Min(SectorsOf(w + |data|), Times(lap, |s|)))
  }

  lemma AfterLoopIs(d: seq<Sector>, spc: nat, lap: nat, s: seq<nat>, w: nat, data: seq<byte>)
    requires LapsFit(|d|, spc, lap, s) && spc <= lap && w + |data| <= SECTOR_SIZE * Times(spc, |s|)
    ensures SectorsOf(w + |data|) <= Times(lap, |s|)
    ensures AfterLoop(d, spc, lap, s, w, data) == Appended(d, spc, lap, s, w, data, SectorsOf(w + |data|))
  {
    EnoughSectors(spc, lap, |s|, w + |data|);
  }

  // ---- when that is right ----

  /** From byte `w` to byte `n`, the loop writes every sector of the file where it belongs. */
  ghost predicate InPlace(spc: nat, lap: nat, s: seq<nat>, w: nat, n: nat)
    requires spc > 0 && lap > 0
  {
    forall m: nat :: w / SECTOR_SIZE <= m < SectorsOf(n) ==>
      && LapOf(lap, m) < |s| && LapOf(spc, m) < |s| && s[LapOf(lap, m)] >= 2 && s[LapOf(spc, m)] >= 2
      && PlaceAt(spc, lap, s, m) == PlaceAt(spc, spc, s, m)
  }

  lemma InPlaceAt(spc: nat, lap: nat, s: seq<nat>, w: nat, n: nat, m: nat)
    requires spc > 0 && lap > 0 && InPlace(spc, lap, s, w, n) && w / SECTOR_SIZE <= m < SectorsOf(n)
    ensures LapOf(lap, m) < |s| && LapOf(spc, m) < |s| && s[LapOf(lap, m)] >= 2 && s[LapOf(spc, m)] >= 2
    ensures PlaceAt(spc, lap, s, m) == PlaceAt(spc, spc, s, m)
  {
  }

  /** With one lap per cluster, every sector goes where it belongs. */
  lemma AlwaysInPlace(spc: nat, s: seq<nat>, w: nat, n: nat)
    requires spc > 0 && n <= SECTOR_SIZE * Times(spc, |s|) && forall i :: 0 <= i < |s| ==> s[i] >= 2
    ensures InPlace(spc, spc, s, w, n)
  {
    hide LapOf, InLap, Times, Base;
    forall m: nat | w / SECTOR_SIZE <= m < SectorsOf(n)
      ensures LapOf(spc, m) < |s|
    {
      SectorCount(n, m);
      LapWithin(spc, m, |s|);
    }
  }

  /** The same on the row of the chain's sectors. */
  function RowAppended(row: seq<Sector>, w: nat, data: seq<byte>, m: nat): (r: seq<Sector>)
    requires m <= |row| && m <= SectorsOf(w + |data|)
    ensures |r| == |row|
    decreases m
  {
    if m == 0 then row
    else
      SectorCount(w + |data|, m - 1);
      var r := RowAppended(row, w, data, m - 1);
      r[m - 1 := SectorAfter(r[m - 1], w, data, m - 1)]
  }

  lemma {:induction false} RowAt(row: seq<Sector>, w: nat, data: seq<byte>, m: nat, k: nat)
    requires m <= |row| && m <= SectorsOf(w + |data|) && k < |row|
    ensures SectorsOf(w + |data|) <= k || SECTOR_SIZE * k < w + |data|
    ensures k < m ==> RowAppended(row, w, data, m)[k] == SectorAfter(row[k], w, data, k)
    ensures k >= m ==> RowAppended(row, w, data, m)[k] == row[k]
    decreases m
  {
    hide SectorAfter, SectorsOf;
    SectorCount(w + |data|, k);
    if m > 0 {
      SectorCount(w + |data|, m - 1);
      var r := RowAppended(row, w, data, m - 1);
      assert RowAppended(row, w, data, m) == r[m - 1 := SectorAfter(r[m - 1], w, data, m - 1)];
      hide RowAppended;
      RowAt(row, w, data, m - 1, k);
    }
  }

  /** One step of the loop, seen on the row of the chain's sectors and on other clusters. */
  lemma StepInPlace(d: seq<Sector>, spc: nat, s: seq<nat>, m: nat, at: nat, x: Sector)
    requires InArea(|d|, spc, s) && Distinct(s) && spc > 0 && LapOf(spc, m) < |s|
    requires s[LapOf(spc, m)] >= 2 && at == PlaceAt(spc, spc, s, m)
    ensures at < |d| && m < Times(spc, |s|) && ChainSectors(d, spc, s)[m] == d[at]
    ensures ChainSectors(d[at := x], spc, s) == ChainSectors(d, spc, s)[m := x]
    ensures forall c :: c >= 2 && c !in s && Base(spc, c) + spc <= |d| ==>
      Cluster(d[at := x], spc, c) == Cluster(d, spc, c)
  {
    hide LapOf, InLap, Times, Base, ChainSectors, Cluster;
    var q, o := LapOf(spc, m), InLap(spc, m);
    LapParts(spc, m);
    ChainSectorsAt(d, spc, s, q, o);
    ChainSectorsUpdate(d, spc, s, q, o, x);
    forall c | c >= 2 && c !in s && Base(spc, c) + spc <= |d|
      ensures Cluster(d[at := x], spc, c) == Cluster(d, spc, c)
    {
      ClusterUpdate(d, spc, s[q], o, x, c);
    }
  }

  lemma Untouched(cur: Sector, w: nat, data: seq<byte>, m: nat)
    requires SECTOR_SIZE * m < w + |data| && m < w / SECTOR_SIZE
    ensures SectorAfter(cur, w, data, m) == cur
  {
  }

  lemma AppendedStep(d: seq<Sector>, spc: nat, lap: nat, s: seq<nat>, w: nat, data: seq<byte>, m: nat, r: seq<Sector>,
                     at: nat)
    requires LapsFit(|d|, spc, lap, s) && m < Times(lap, |s|) && m < SectorsOf(w + |data|)
    requires r == Appended(d, spc, lap, s, w, data, m)
    requires LapOf(lap, m) < |s| && s[LapOf(lap, m)] >= 2 && at == PlaceAt(spc, lap, s, m)
    ensures at < |d| == |r| && SECTOR_SIZE * m < w + |data|
    ensures Appended(d, spc, lap, s, w, data, m + 1) == r[at := SectorAfter(r[at], w, data, m)]
  {
    PlaceFits(|d|, spc, lap, s, m);
    SectorCount(w + |data|, m);
  }

  lemma {:induction false} AppendedRow(d: seq<Sector>, spc: nat, lap: nat, s: seq<nat>, w: nat, data: seq<byte>, m: nat)
    requires LapsFit(|d|, spc, lap, s) && m <= Times(lap, |s|) && m <= SectorsOf(w + |data|)
    requires InArea(|d|, spc, s) && Distinct(s) && spc > 0 && InPlace(spc, lap, s, w, w + |data|)
    requires m <= Times(spc, |s|)
    ensures ChainSectors(Appended(d, spc, lap, s, w, data, m), spc, s) ==
            RowAppended(ChainSectors(d, spc, s), w, data, m)
    ensures forall c :: c >= 2 && c !in s && Base(spc, c) + spc <= |d| ==>
      Cluster(Appended(d, spc, lap, s, w, data, m), spc, c) == Cluster(d, spc, c)
    decreases m
  {
    hide LapOf, InLap, Times, Base, ChainSectors, Cluster, SectorAfter, PlaceAt, SectorsOf, InPlace;
    if m > 0 {
      AppendedRow(d, spc, lap, s, w, data, m - 1);
      var r := Appended(d, spc, lap, s, w, data, m - 1);
      PlaceFits(|d|, spc, lap, s, m - 1);
      var at := PlaceAt(spc, lap, s, m - 1);
      AppendedStep(d, spc, lap, s, w, data, m - 1, r, at);
      var row := RowAppended(ChainSectors(d, spc, s), w, data, m - 1);
      RowStep(ChainSectors(d, spc, s), w, data, m - 1);
      if m - 1 < w / SECTOR_SIZE {
        Untouched(r[at], w, data, m - 1);
        Untouched(row[m - 1], w, data, m - 1);
        assert r[at := r[at]] == r && row[m - 1 := row[m - 1]] == row;
      } else {
        InPlaceAt(spc, lap, s, w, w + |data|, m - 1);
        StepInPlace(r, spc, s, m - 1, at, SectorAfter(r[at], w, data, m - 1));
      }
    }
  }

  lemma RowStep(row: seq<Sector>, w: nat, data: seq<byte>, m: nat)
    requires m < |row| && m < SectorsOf(w + |data|)
    ensures SECTOR_SIZE * m < w + |data|
    ensures var r := RowAppended(row, w, data, m);
      RowAppended(row, w, data, m + 1) == r[m := SectorAfter(r[m], w, data, m)]
  {
    SectorCount(w + |data|, m);
  }

  lemma RowBytes(row: seq<Sector>, w: nat, data: seq<byte>)
    requires w + |data| <= SECTOR_SIZE * |row| && SectorsOf(w + |data|) <= |row|
    ensures Join(RowAppended(row, w, data, SectorsOf(w + |data|)))[..w + |data|] == Join(row)[..w] + data
  {
    hide Join, RowAppended, SectorsOf;
    var r := RowAppended(row, w, data, SectorsOf(w + |data|));
    forall i | 0 <= i < w + |data|
      ensures |r| == |row| && Join(r)[i] == if i < w then Join(row)[i] else data[i - w]
    {
      RowByte(row, w, data, i);
    }
    RowSize(row, w, data, SectorsOf(w + |data|));
    JoinSize(r);
    JoinSize(row);
  }

  lemma JoinSize(ss: seq<Sector>)
    ensures |Join(ss)| == SECTOR_SIZE * |ss|
  {
  }

  lemma RowSize(row: seq<Sector>, w: nat, data: seq<byte>, m: nat)
    requires m <= |row| && m <= SectorsOf(w + |data|)
    ensures |RowAppended(row, w, data, m)| == |row|
  {
  }

  lemma RowByte(row: seq<Sector>, w: nat, data: seq<byte>, i: nat)
    requires w + |data| <= SECTOR_SIZE * |row| && SectorsOf(w + |data|) <= |row| && i < w + |data|
    ensures var r := RowAppended(row, w, data, SectorsOf(w + |data|));
      |r| == |row| && Join(r)[i] == if i < w then Join(row)[i] else data[i - w]
  {
    var k, j := i / SECTOR_SIZE, i % SECTOR_SIZE;
    SectorCount(w + |data|, k);
    hide SectorAfter, SectorsOf, RowAppended, Join;
    RowSize(row, w, data, SectorsOf(w + |data|));
    RowAt(row, w, data, SectorsOf(w + |data|), k);
    assert i == SECTOR_SIZE * k + j;
    SectorByte(row[k], w, data, k, j);
    JoinAt(row, k, j);
    JoinAt(RowAppended(row, w, data, SectorsOf(w + |data|)), k, j);
  }

  /** No cluster outside `s` has changed. */
  ghost predicate OthersSame(d: seq<Sector>, spc: nat, s: seq<nat>, d': seq<Sector>) {
    |d'| == |d| &&
    forall c :: c >= 2 && c !in s && Base(spc, c) + spc <= |d| ==> Cluster(d', spc, c) == Cluster(d, spc, c)
  }

  /** Where everything is in place, the file reads as its old bytes and then the data, and no other
      cluster changes. */
  lemma AppendedReadsBack(d: seq<Sector>, spc: nat, lap: nat, s: seq<nat>, w: nat, data: seq<byte>)
    requires LapsFit(|d|, spc, lap, s) && InArea(|d|, spc, s) && Distinct(s) && 0 < spc <= lap
    requires w + |data| <= SECTOR_SIZE * Times(spc, |s|) && InPlace(spc, lap, s, w, w + |data|)
    ensures var r := AfterLoop(d, spc, lap, s, w, data);
      && Contents(r, spc, s, w + |data|) == Contents(d, spc, s, w) + data
      && OthersSame(d, spc, s, r)
  {
    var m := SectorsOf(w + |data|);
    EnoughSectors(spc, lap, |s|, w + |data|);
    AfterLoopIs(d, spc, lap, s, w, data);
    hide LapOf, InLap, Times, Base, ChainSectors, Cluster, Appended, AfterLoop, RowAppended, Join, SectorsOf, InPlace;
    AppendedRow(d, spc, lap, s, w, data, m);
    RowBytes(ChainSectors(d, spc, s), w, data);
  }

  lemma EnoughSectors(spc: nat, lap: nat, k: nat, n: nat)
    requires spc <= lap && n <= SECTOR_SIZE * Times(spc, k)
    ensures SectorsOf(n) <= Times(spc, k) <= Times(lap, k)
  {
    TimesMonotone(spc, lap, k);
    hide Times;
  }

  lemma {:induction false} TimesMonotone(a: nat, b: nat, k: nat)
    requires a <= b
    ensures Times(a, k) <= Times(b, k)
    decreases k
  {
    if k > 0 {
      TimesMonotone(a, b, k - 1);
    }
  }

  // ---- and that it is right only then ----

  ghost predicate ReadsBack(d: seq<Sector>, spc: nat, lap: nat, s: seq<nat>, w: nat, data: seq<byte>)
    requires LapsFit(|d|, spc, lap, s) && InArea(|d|, spc, s) && spc <= lap
    requires w + |data| <= SECTOR_SIZE * Times(spc, |s|)
  {
    ReadAfter(d, spc, lap, s, w, data) == Contents(d, spc, s, w) + data
  }

  /** Two kinds of data that differ only within sector `m0` of the file. */
  ghost predicate DifferIn(a: seq<byte>, b: seq<byte>, w: nat, m0: nat) {
    |a| == |b| && forall i :: 0 <= i < |a| && (w + i) / SECTOR_SIZE != m0 ==> a[i] == b[i]
  }

  lemma SameElsewhere(cur: Sector, w: nat, a: seq<byte>, b: seq<byte>, m0: nat, m: nat)
    requires DifferIn(a, b, w, m0) && m != m0 && SECTOR_SIZE * m < w + |a|
    ensures SectorAfter(cur, w, a, m) == SectorAfter(cur, w, b, m)
  {
    if SECTOR_SIZE * (m + 1) > w {
      var keep := if SECTOR_SIZE * m < w then w - SECTOR_SIZE * m else 0;
      var from := SECTOR_SIZE * m + keep - w;
      var n := Min(SECTOR_SIZE, w + |a| - SECTOR_SIZE * m) - keep;
      forall i | from <= i < from + n
        ensures a[i] == b[i]
      {
        assert (w + i) / SECTOR_SIZE == m;
      }
      assert a[from..from + n] == b[from..from + n];
    }
  }

  /** A sector in which sector `m0` is not written does not see the difference. */
  lemma {:induction false} Blind(d: seq<Sector>, spc: nat, lap: nat, s: seq<nat>, w: nat, a: seq<byte>, b: seq<byte>,
                                 m0: nat, m: nat, t: nat)
    requires LapsFit(|d|, spc, lap, s) && m <= Times(lap, |s|) && m <= SectorsOf(w + |a|) && DifferIn(a, b, w, m0)
    requires t < |d|
    requires m0 < Times(lap, |s|) ==> LapOf(lap, m0) < |s| && s[LapOf(lap, m0)] >= 2 && PlaceAt(spc, lap, s, m0) != t
    ensures Appended(d, spc, lap, s, w, a, m)[t] == Appended(d, spc, lap, s, w, b, m)[t]
    decreases m
  {
    hide LapOf, InLap, Times, Base, SectorAfter, PlaceAt, SectorsOf;
    if m > 0 {
      Blind(d, spc, lap, s, w, a, b, m0, m - 1, t);
      PlaceFits(|d|, spc, lap, s, m - 1);
      var at := PlaceAt(spc, lap, s, m - 1);
      var ra, rb := Appended(d, spc, lap, s, w, a, m - 1), Appended(d, spc, lap, s, w, b, m - 1);
      AppendedStep(d, spc, lap, s, w, a, m - 1, ra, at);
      AppendedStep(d, spc, lap, s, w, b, m - 1, rb, at);
      if at == t {
        SameElsewhere(ra[t], w, a, b, m0, m - 1);
      }
    }
  }

  /** Zeros, but for one byte. */
  function OneByte(n: nat, at: nat, x: byte): (r: seq<byte>)
    ensures |r| == n
  {
    seq(n, i => if i == at then x else 0)
  }

  lemma BlindByte(d: seq<Sector>, spc: nat, lap: nat, s: seq<nat>, w: nat, k: nat, m0: nat, i: nat)
    requires LapsFit(|d|, spc, lap, s) && InArea(|d|, spc, s) && 0 < spc <= lap
    requires w + k <= SECTOR_SIZE * Times(spc, |s|)
    requires i < k && (w + i) / SECTOR_SIZE == m0 && m0 < Times(lap, |s|) && m0 < Times(spc, |s|)
    requires LapOf(lap, m0) < |s| && LapOf(spc, m0) < |s| && s[LapOf(lap, m0)] >= 2 && s[LapOf(spc, m0)] >= 2
    requires PlaceAt(spc, lap, s, m0) != PlaceAt(spc, spc, s, m0)
    ensures exists x: byte :: !ReadsBack(d, spc, lap, s, w, OneByte(k, i, x))
  {
    hide LapOf, InLap, Times, Base, Appended, Contents, PlaceAt, SectorsOf, InArea, LapsFit, OneByte, ReadsBack;
    BlindPlace(d, spc, lap, s, w, k, m0, i);
    OneByteIs(d, spc, s, w, k, i);
    if ReadsBack(d, spc, lap, s, w, OneByte(k, i, 0)) {
      ReadIs(d, spc, lap, s, w, OneByte(k, i, 0));
      if ReadsBack(d, spc, lap, s, w, OneByte(k, i, 1)) {
        ReadIs(d, spc, lap, s, w, OneByte(k, i, 1));
        assert false;
      }
    }
  }

  /** What is read back of a file of `w` + |data| bytes. */
  function ReadAfter(d: seq<Sector>, spc: nat, lap: nat, s: seq<nat>, w: nat, data: seq<byte>): (r: seq<byte>)
    requires LapsFit(|d|, spc, lap, s) && InArea(|d|, spc, s) && spc <= lap
    requires w + |data| <= SECTOR_SIZE * Times(spc, |s|)
    ensures |r| == w + |data|
  {
    Contents(AfterLoop(d, spc, lap, s, w, data), spc, s, w + |data|)
  }

  lemma ReadIs(d: seq<Sector>, spc: nat, lap: nat, s: seq<nat>, w: nat, data: seq<byte>)
    requires LapsFit(|d|, spc, lap, s) && InArea(|d|, spc, s) && spc <= lap
    requires w + |data| <= SECTOR_SIZE * Times(spc, |s|)
    requires ReadsBack(d, spc, lap, s, w, data)
    ensures ReadAfter(d, spc, lap, s, w, data) == Contents(d, spc, s, w) + data
  {
  }

  /** The byte read back at `w` + `i` does not depend on what was to be written there. */
  lemma BlindPlace(d: seq<Sector>, spc: nat, lap: nat, s: seq<nat>, w: nat, k: nat, m0: nat, i: nat)
    requires LapsFit(|d|, spc, lap, s) && InArea(|d|, spc, s) && 0 < spc <= lap
    requires w + k <= SECTOR_SIZE * Times(spc, |s|)
    requires i < k && (w + i) / SECTOR_SIZE == m0 && m0 < Times(lap, |s|) && m0 < Times(spc, |s|)
    requires LapOf(lap, m0) < |s| && LapOf(spc, m0) < |s| && s[LapOf(lap, m0)] >= 2 && s[LapOf(spc, m0)] >= 2
    requires PlaceAt(spc, lap, s, m0) != PlaceAt(spc, spc, s, m0)
    ensures ReadAfter(d, spc, lap, s, w, OneByte(k, i, 0))[w + i] ==
            ReadAfter(d, spc, lap, s, w, OneByte(k, i, 1))[w + i]
  {
    hide LapOf, InLap, Times, Base, Appended, AfterLoop, Contents, PlaceAt, SectorsOf, InArea, LapsFit;
    var a, b := OneByte(k, i, 0), OneByte(k, i, 1);
    AfterLoopIs(d, spc, lap, s, w, a);
    AfterLoopIs(d, spc, lap, s, w, b);
    var m, t := SectorsOf(w + k), PlaceAt(spc, spc, s, m0);
    EnoughSectors(spc, lap, |s|, w + k);
    OneByteDiffers(w, k, i, m0);
    assert SECTOR_SIZE * m0 + (w + i) % SECTOR_SIZE == w + i;
    var ra, rb := Appended(d, spc, lap, s, w, a, m), Appended(d, spc, lap, s, w, b, m);
    AppendedSize(d, spc, lap, s, w, a, m);
    AppendedSize(d, spc, lap, s, w, b, m);
    ByteOfPlace(ra, spc, s, w + k, m0, (w + i) % SECTOR_SIZE, t);
    ByteOfPlace(rb, spc, s, w + k, m0, (w + i) % SECTOR_SIZE, t);
    Blind(d, spc, lap, s, w, a, b, m0, m, t);
  }

  lemma AppendedSize(d: seq<Sector>, spc: nat, lap: nat, s: seq<nat>, w: nat, data: seq<byte>, m: nat)
    requires LapsFit(|d|, spc, lap, s) && m <= Times(lap, |s|) && m <= SectorsOf(w + |data|)
    ensures |Appended(d, spc, lap, s, w, data, m)| == |d|
  {
  }

  lemma OneByteDiffers(w: nat, k: nat, i: nat, m0: nat)
    requires i < k && (w + i) / SECTOR_SIZE == m0
    ensures |OneByte(k, i, 0)| == |OneByte(k, i, 1)| == k && DifferIn(OneByte(k, i, 0), OneByte(k, i, 1), w, m0)
  {
  }

  lemma OneByteIs(d: seq<Sector>, spc: nat, s: seq<nat>, w: nat, k: nat, i: nat)
    requires InArea(|d|, spc, s) && w + k <= SECTOR_SIZE * Times(spc, |s|) && i < k
    ensures (Contents(d, spc, s, w) + OneByte(k, i, 0))[w + i] == 0
    ensures (Contents(d, spc, s, w) + OneByte(k, i, 1))[w + i] == 1
  {
    hide Times, Join, ChainSectors;
  }

  lemma ByteOfPlace(d: seq<Sector>, spc: nat, s: seq<nat>, n: nat, m: nat, k: nat, t: nat)
    requires InArea(|d|, spc, s) && spc > 0 && n <= SECTOR_SIZE * Times(spc, |s|)
    requires LapOf(spc, m) < |s| && s[LapOf(spc, m)] >= 2 && t == PlaceAt(spc, spc, s, m)
    requires k < SECTOR_SIZE && SECTOR_SIZE * m + k < n
    ensures t < |d| && Contents(d, spc, s, n)[SECTOR_SIZE * m + k] == d[t][k]
  {
    hide LapOf, InLap, Times, Base, Contents;
    LapParts(spc, m);
    ContentsAt(d, spc, s, n, LapOf(spc, m), InLap(spc, m), k);
  }

  /** For a chain and two sizes, appending any data reads back exactly when the loop writes every
      sector it touches where it belongs. With `w` == 0 this is rewriting. */
  lemma ReadsBackIff(d: seq<Sector>, spc: nat, lap: nat, s: seq<nat>, w: nat, k: nat)
    requires LapsFit(|d|, spc, lap, s) && InArea(|d|, spc, s) && Distinct(s) && 0 < spc <= lap && k > 0
    requires w + k <= SECTOR_SIZE * Times(spc, |s|)
    ensures InPlace(spc, lap, s, w, w + k) <==>
      forall data: seq<byte> :: |data| == k ==> ReadsBack(d, spc, lap, s, w, data)
  {
    if InPlace(spc, lap, s, w, w + k) {
      forall data: seq<byte> | |data| == k
        ensures ReadsBack(d, spc, lap, s, w, data)
      {
        AppendedReadsBack(d, spc, lap, s, w, data);
      }
    } else {
      hide LapOf, InLap, Times, Base, PlaceAt, LapsFit, ReadsBack;
      var m0: nat :| w / SECTOR_SIZE <= m0 < SectorsOf(w + k) && !(
        && LapOf(lap, m0) < |s| && LapOf(spc, m0) < |s| && s[LapOf(lap, m0)] >= 2 && s[LapOf(spc, m0)] >= 2
        && PlaceAt(spc, lap, s, m0) == PlaceAt(spc, spc, s, m0));
      EnoughSectors(spc, lap, |s|, w + k);
      PlaceFits(|d|, spc, lap, s, m0);
      LapWithin(spc, m0, |s|);
      var i := if SECTOR_SIZE * m0 < w then 0 else SECTOR_SIZE * m0 - w;
      SectorCount(w + k, m0);
      BlindByte(d, spc, lap, s, w, k, m0, i);
      var x: byte :| !ReadsBack(d, spc, lap, s, w, OneByte(k, i, x));
      assert |OneByte(k, i, x)| == k;
    }
  }

  // ---- the compiled loop: one sector too many per cluster (fat.c:869, 1003) ----

  /** `n` bytes fit the first cluster, or run over by at most one sector while the next cluster of
      the chain lies right behind. */
  ghost predicate OneLap(spc: nat, s: seq<nat>, n: nat) {
    n <= SECTOR_SIZE * spc || (n <= SECTOR_SIZE * (spc + 1) && |s| > 1 && s[1] == s[0] + 1)
  }

  lemma FirstLaps(lap: nat)
    requires lap > 0
    ensures forall m :: 0 <= m < lap ==> LapOf(lap, m) == 0 && InLap(lap, m) == m
    ensures LapOf(lap, lap) == 1 && InLap(lap, lap) == 0
    ensures lap > 1 ==> LapOf(lap, lap + 1) == 1 && InLap(lap, lap + 1) == 1
    ensures lap == 1 ==> LapOf(lap, 2) == 2 && InLap(lap, 2) == 0
  {
    if lap == 1 {
      assert LapOf(1, 2) == 1 + LapOf(1, 1);
      assert InLap(1, 2) == InLap(1, 1);
    }
  }

  /** For a whole file, everything is in place exactly when one lap is all that matters. */
  lemma OneLapIff(spc: nat, s: seq<nat>, n: nat)
    requires spc > 0 && s != [] && Distinct(s) && n <= SECTOR_SIZE * Times(spc, |s|)
    requires forall i :: 0 <= i < |s| ==> s[i] >= 2
    ensures InPlace(spc, spc + 1, s, 0, n) <==> OneLap(spc, s, n)
  {
    if OneLap(spc, s, n) {
      OneLapPlaces(spc, s, n);
    } else {
      NotOneLap(spc, s, n);
    }
  }

  lemma OneLapPlaces(spc: nat, s: seq<nat>, n: nat)
    requires spc > 0 && s != [] && OneLap(spc, s, n) && forall i :: 0 <= i < |s| ==> s[i] >= 2
    ensures InPlace(spc, spc + 1, s, 0, n)
  {
    FirstLaps(spc);
    FirstLaps(spc + 1);
    hide LapOf, InLap;
    forall m: nat | m < SectorsOf(n)
      ensures LapOf(spc + 1, m) < |s| && LapOf(spc, m) < |s| && PlaceAt(spc, spc + 1, s, m) == PlaceAt(spc, spc, s, m)
    {
      SectorCount(n, m);
      assert m <= spc;
    }
  }

  lemma NotOneLap(spc: nat, s: seq<nat>, n: nat)
    requires spc > 0 && s != [] && Distinct(s) && n <= SECTOR_SIZE * Times(spc, |s|)
    requires forall i :: 0 <= i < |s| ==> s[i] >= 2
    requires !OneLap(spc, s, n)
    ensures !InPlace(spc, spc + 1, s, 0, n)
  {
    FirstLaps(spc);
    FirstLaps(spc + 1);
    SectorCount(n, spc);
    SectorCount(n, spc + 1);
    LapWithin(spc, spc, |s|);
    if InPlace(spc, spc + 1, s, 0, n) {
      InPlaceAt(spc, spc + 1, s, 0, n, spc);
      hide LapOf, InLap, InPlace;
      assert Base(spc, s[0]) + spc == Base(spc, s[1]);
      if s[1] != s[0] + 1 {
        BaseBehind(spc, s[0], s[1]);
      }
      InPlaceAt(spc, spc + 1, s, 0, n, spc + 1);
      if spc == 1 {
        BaseApart(spc, s[1], s[2]);
      }
    }
  }

  lemma BaseBehind(spc: nat, c: nat, c': nat)
    requires c >= 2 && c' >= 2 && spc > 0 && Base(spc, c) + spc == Base(spc, c')
    ensures c' == c + 1
  {
    if c' < c + 1 {
      if c' < c {
        TimesGrows(spc, c' - 2, c - 2);
      }
    } else if c + 1 < c' {
      TimesGrows(spc, c + 1 - 2, c' - 2);
    }
  }
}
