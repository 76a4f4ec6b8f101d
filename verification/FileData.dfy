/** Bytes of files in the data area `data`, a row of sectors in which cluster c starts at
    sectorsPerCluster * (c - 2). */
module FileData {
  import opened Bytes
  import opened Chains

  /** n * k as repeated addition, which keeps the solver out of non-linear arithmetic. */
  function Times(n: nat, k: nat): nat {
    if k == 0 then 0 else Times(n, k - 1) + n
  }

  lemma {:induction false} TimesIsProduct(n: nat, k: nat)
    ensures Times(n, k) == n * k
  {
    if k > 0 {
      TimesIsProduct(n, k - 1);
    }
  }

  lemma {:induction false} TimesGrows(n: nat, j: nat, k: nat)
    requires j < k
    ensures Times(n, j) + n <= Times(n, k)
    decreases k
  {
    if j < k - 1 {
      TimesGrows(n, j, k - 1);
    }
  }

  /** Where cluster `c` starts in the data area; fat.c:125, 376, 857, 1204 and the other loops. */
  function Base(spc: nat, c: nat): nat
    requires c >= 2
  {
    Times(spc, c - 2)
  }

  /** Different clusters have different sectors. */
  /** Clusters are numbered from 2 (fat.c:127). */
  lemma BaseIs(spc: nat, c: nat)
    requires c >= 2
    ensures Base(spc, c) == spc * (c - 2)
  {
    TimesIsProduct(spc, c - 2);
  }

  lemma BaseApart(spc: nat, c: nat, c': nat)
    requires 2 <= c && 2 <= c' && c != c'
    ensures Base(spc, c) + spc <= Base(spc, c') || Base(spc, c') + spc <= Base(spc, c)
  {
    if c < c' {
      TimesGrows(spc, c - 2, c' - 2);
    } else {
      TimesGrows(spc, c' - 2, c - 2);
    }
  }

  /** The clusters of `s` lie in a data area of `n` sectors. */
  ghost predicate InArea(n: nat, spc: nat, s: seq<nat>) {
    forall i :: 0 <= i < |s| ==> s[i] >= 2 && Base(spc, s[i]) + spc <= n
  }

  /** And one more sector behind each of them, which the compiled loops read. */
  ghost predicate ReadArea(n: nat, spc: nat, s: seq<nat>) {
    forall i :: 0 <= i < |s| ==> s[i] >= 2 && Base(spc, s[i]) + spc + 1 <= n
  }

  function Cluster(data: seq<Sector>, spc: nat, c: nat): (r: seq<Sector>)
    requires c >= 2 && Base(spc, c) + spc <= |data|
    ensures |r| == spc
  {
    data[Base(spc, c)..Base(spc, c) + spc]
  }

  /** The sectors of a chain in file order. */
  function ChainSectors(data: seq<Sector>, spc: nat, s: seq<nat>): (r: seq<Sector>)
    requires InArea(|data|, spc, s)
    ensures |r| == Times(spc, |s|)
    decreases |s|
  {
    if s == [] then []
    else
      var n := |s| - 1;
      ChainSectors(data, spc, s[..n]) + Cluster(data, spc, s[n])
  }

  lemma {:induction false} ChainSectorsAt(data: seq<Sector>, spc: nat, s: seq<nat>, q: nat, o: nat)
    requires InArea(|data|, spc, s) && q < |s| && o < spc
    ensures Times(spc, q) + o < Times(spc, |s|)
    ensures ChainSectors(data, spc, s)[Times(spc, q) + o] == data[Base(spc, s[q]) + o]
    decreases |s|
  {
    TimesGrows(spc, q, |s|);
    var n := |s| - 1;
    if q < n {
      TimesGrows(spc, q, n);
      ChainSectorsAt(data, spc, s[..n], q, o);
    }
  }

  lemma {:induction false} ChainSectorsPrefix(data: seq<Sector>, spc: nat, s: seq<nat>, q: nat)
    requires InArea(|data|, spc, s) && q <= |s|
    ensures Times(spc, q) <= Times(spc, |s|)
    ensures ChainSectors(data, spc, s[..q]) == ChainSectors(data, spc, s)[..Times(spc, q)]
    decreases |s|
  {
    if q < |s| {
      TimesGrows(spc, q, |s|);
      var n := |s| - 1;
      ChainSectorsPrefix(data, spc, s[..n], q);
      assert s[..n][..q] == s[..q];
    } else {
      assert s[..q] == s;
    }
  }

  lemma {:induction false} ChainSectorsFrame(data: seq<Sector>, data': seq<Sector>, spc: nat, s: seq<nat>)
    requires |data| == |data'| && InArea(|data|, spc, s)
    requires forall i :: 0 <= i < |s| ==> Cluster(data, spc, s[i]) == Cluster(data', spc, s[i])
    ensures ChainSectors(data, spc, s) == ChainSectors(data', spc, s)
    decreases |s|
  {
    if s != [] {
      ChainSectorsFrame(data, data', spc, s[..|s| - 1]);
    }
  }

  /** A store into one sector is seen by its own cluster only. */
  lemma ClusterUpdate(data: seq<Sector>, spc: nat, c: nat, o: nat, x: Sector, c': nat)
    requires c >= 2 && Base(spc, c) + spc <= |data| && o < spc
    requires c' >= 2 && Base(spc, c') + spc <= |data|
    ensures Cluster(data[Base(spc, c) + o := x], spc, c') ==
            if c == c' then Cluster(data, spc, c)[o := x] else Cluster(data, spc, c')
  {
    if c != c' {
      BaseApart(spc, c, c');
    }
  }

  lemma ChainSectorsElsewhere(data: seq<Sector>, spc: nat, s: seq<nat>, c: nat, o: nat, x: Sector)
    requires InArea(|data|, spc, s) && c >= 2 && Base(spc, c) + spc <= |data| && o < spc
    requires c !in s
    ensures ChainSectors(data[Base(spc, c) + o := x], spc, s) == ChainSectors(data, spc, s)
  {
    var data' := data[Base(spc, c) + o := x];
    forall i | 0 <= i < |s|
      ensures Cluster(data, spc, s[i]) == Cluster(data', spc, s[i])
    {
      ClusterUpdate(data, spc, c, o, x, s[i]);
    }
    ChainSectorsFrame(data, data', spc, s);
  }

  lemma UpdateLeft<T>(a: seq<T>, b: seq<T>, m: nat, x: T)
    requires m < |a|
    ensures (a + b)[m := x] == a[m := x] + b
  {
  }

  lemma UpdateRight<T>(a: seq<T>, b: seq<T>, o: nat, x: T)
    requires o < |b|
    ensures (a + b)[|a| + o := x] == a + b[o := x]
  {
  }

  lemma LastClusterUpdate(data: seq<Sector>, spc: nat, s: seq<nat>, o: nat, x: Sector)
    requires s != [] && InArea(|data|, spc, s) && s[|s| - 1] !in s[..|s| - 1] && o < spc
    ensures ChainSectors(data[Base(spc, s[|s| - 1]) + o := x], spc, s) ==
            ChainSectors(data, spc, s)[Times(spc, |s| - 1) + o := x]
  {
    var n := |s| - 1;
    ClusterUpdate(data, spc, s[n], o, x, s[n]);
    ChainSectorsElsewhere(data, spc, s[..n], s[n], o, x);
    UpdateRight(ChainSectors(data, spc, s[..n]), Cluster(data, spc, s[n]), o, x);
  }

  lemma ChainSectorsSnoc(data: seq<Sector>, spc: nat, s: seq<nat>)
    requires s != [] && InArea(|data|, spc, s)
    ensures InArea(|data|, spc, s[..|s| - 1]) && Base(spc, s[|s| - 1]) + spc <= |data| && s[|s| - 1] >= 2
    ensures ChainSectors(data, spc, s) == ChainSectors(data, spc, s[..|s| - 1]) + Cluster(data, spc, s[|s| - 1])
    ensures |ChainSectors(data, spc, s[..|s| - 1])| == Times(spc, |s| - 1)
  {
  }

  lemma {:induction false} ChainSectorsUpdate(data: seq<Sector>, spc: nat, s: seq<nat>, q: nat, o: nat, x: Sector)
    requires InArea(|data|, spc, s) && Distinct(s) && q < |s| && o < spc
    ensures Times(spc, q) + o < Times(spc, |s|)
    ensures ChainSectors(data[Base(spc, s[q]) + o := x], spc, s) ==
            ChainSectors(data, spc, s)[Times(spc, q) + o := x]
    decreases |s|
  {
    hide ChainSectors, Cluster, Times, Base;
    TimesGrows(spc, q, |s|);
    var n := |s| - 1;
    if q < n {
      TimesGrows(spc, q, n);
      ChainSectorsSnoc(data, spc, s);
      ChainSectorsSnoc(data[Base(spc, s[q]) + o := x], spc, s);
      ClusterUpdate(data, spc, s[q], o, x, s[n]);
      assert s[..n][q] == s[q];
      ChainSectorsUpdate(data, spc, s[..n], q, o, x);
      UpdateLeft(ChainSectors(data, spc, s[..n]), Cluster(data, spc, s[n]), Times(spc, q) + o, x);
    } else {
      LastClusterUpdate(data, spc, s, o, x);
    }
  }

  /** All bytes of a row of sectors. */
  function Join(ss: seq<Sector>): (r: seq<byte>)
    ensures |r| == SECTOR_SIZE * |ss|
  {
    seq(SECTOR_SIZE * |ss|, k requires 0 <= k < SECTOR_SIZE * |ss| => ss[k / SECTOR_SIZE][k % SECTOR_SIZE])
  }

  lemma JoinAt(ss: seq<Sector>, m: nat, k: nat)
    requires m < |ss| && k < SECTOR_SIZE
    ensures Join(ss)[SECTOR_SIZE * m + k] == ss[m][k]
  {
    assert (SECTOR_SIZE * m + k) / SECTOR_SIZE == m && (SECTOR_SIZE * m + k) % SECTOR_SIZE == k;
  }

  /** How many sectors (or clusters, for unit = bytes of a cluster) `size` bytes need. */
  function Ceil(size: nat, unit: nat): nat
    requires unit > 0
  {
    size / unit + if size % unit != 0 then 1 else 0
  }

  lemma JoinPrefix(ss: seq<Sector>, tt: seq<Sector>, n: nat)
    requires |ss| <= |tt| && tt[..|ss|] == ss && n <= SECTOR_SIZE * |ss|
    ensures Join(ss)[..n] == Join(tt)[..n]
  {
    forall k | 0 <= k < n
      ensures Join(ss)[k] == Join(tt)[k]
    {
      assert tt[..|ss|][k / SECTOR_SIZE] == tt[k / SECTOR_SIZE];
    }
  }

  /** `ss` stored from sector `at` on. */
  function PutRun(data: seq<Sector>, at: nat, ss: seq<Sector>): (r: seq<Sector>)
    requires at + |ss| <= |data|
    ensures |r| == |data|
  {
    data[..at] + ss + data[at + |ss|..]
  }

  lemma ClusterPutRun(data: seq<Sector>, spc: nat, c: nat, run: seq<Sector>, c': nat)
    requires c >= 2 && Base(spc, c) + spc <= |data| && |run| <= spc
    requires c' >= 2 && Base(spc, c') + spc <= |data|
    ensures Cluster(PutRun(data, Base(spc, c), run), spc, c') ==
            if c == c' then run + Cluster(data, spc, c)[|run|..] else Cluster(data, spc, c')
  {
    var r := PutRun(data, Base(spc, c), run);
    if c != c' {
      BaseApart(spc, c, c');
      assert Cluster(r, spc, c') == Cluster(data, spc, c');
    } else {
      assert Cluster(r, spc, c) == run + Cluster(data, spc, c)[|run|..];
    }
  }

  /** What the read loop delivers of a file of `n` bytes (fat.c:1192-1221). */
  function Contents(data: seq<Sector>, spc: nat, s: seq<nat>, n: nat): (r: seq<byte>)
    requires InArea(|data|, spc, s) && n <= SECTOR_SIZE * Times(spc, |s|)
    ensures |r| == n
  {
    Join(ChainSectors(data, spc, s))[..n]
  }

  lemma ContentsAt(data: seq<Sector>, spc: nat, s: seq<nat>, n: nat, q: nat, o: nat, k: nat)
    requires InArea(|data|, spc, s) && n <= SECTOR_SIZE * Times(spc, |s|)
    requires q < |s| && o < spc && k < SECTOR_SIZE && SECTOR_SIZE * (Times(spc, q) + o) + k < n
    ensures Contents(data, spc, s, n)[SECTOR_SIZE * (Times(spc, q) + o) + k] == data[Base(spc, s[q]) + o][k]
  {
    hide Contents, Join, ChainSectors, Times, Base;
    ChainSectorsAt(data, spc, s, q, o);
    ContentsByte(data, spc, s, n, Times(spc, q) + o, k);
  }

  lemma ContentsByte(data: seq<Sector>, spc: nat, s: seq<nat>, n: nat, m: nat, k: nat)
    requires InArea(|data|, spc, s) && n <= SECTOR_SIZE * Times(spc, |s|)
    requires m < Times(spc, |s|) && k < SECTOR_SIZE && SECTOR_SIZE * m + k < n
    ensures Contents(data, spc, s, n)[SECTOR_SIZE * m + k] == ChainSectors(data, spc, s)[m][k]
  {
    hide Join, ChainSectors, Times, InArea;
    JoinAt(ChainSectors(data, spc, s), m, k);
  }
}
