/** A partition that stores a tree, and how changes to one directory carry over to the whole. */
module Volumes {
  import opened Bytes
  import opened FatTable
  import opened Chains
  import opened FileData
  import opened Partitions
  import opened LongNames
  import opened Directories
  import opened Trees
  import opened Lookup

  /** The partition stores `t`: chains are disjoint, acyclic and ended, sizes round up to chain
      lengths, the free count and the FSInfo sector tell the truth, both table copies agree, and
      every directory lists its kids. */
  ghost predicate Holds(p: Partition, t: Node)
    reads p, p.hd.sectors
  {
    && p.Sound() && p.InfoSynced()
    && VolumeOk(p.g, p.Fat(), p.Data(), p.freeClusterCount, t)
  }

  lemma HoldsParts(p: Partition, t: Node)
    requires Holds(p, t)
    ensures p.Sound() && p.Mounted() && p.InfoSynced() && p.freeClusterCount < END_OF_CHAIN < 0x1000_0000
    ensures VolumeOk(p.g, p.Fat(), p.Data(), p.freeClusterCount, t)
    ensures p.freeClusterCount == |Free(p.Fat())|
  {
    FreeBound(p.Fat());
  }

  lemma {:induction false} FreeBound(f: seq<nat>)
    ensures |Free(f)| <= |f|
    decreases |f|
  {
    if f == [] {
      assert Free(f) == {};
    } else {
      var n := |f| - 1;
      FreeBound(f[..n]);
      SubsetSize(Free(f), Free(f[..n]) + {n});
    }
  }

  lemma {:induction false} SubsetSize(a: set<nat>, b: set<nat>)
    requires a <= b
    ensures |a| <= |b|
    decreases |a|
  {
    if a != {} {
      var x :| x in a;
      SubsetSize(a - {x}, b - {x});
    }
  }

  lemma HoldsNow(p: Partition, t: Node)
    requires p.Sound() && p.InfoSynced()
    requires VolumeOk(p.g, p.Fat(), p.Data(), p.freeClusterCount, t)
    ensures Holds(p, t)
  {
  }

  /** The partition has lost its consistency. */
  ghost predicate StoresNoTree(p: Partition)
    reads p, p.hd.sectors
  {
    forall u :: !Holds(p, u)
  }

  /** `dirCluster` is where the directory at `path` starts. */
  ghost predicate DirAt(t: Node, path: seq<Name>, dirCluster: nat) {
    At(t, path).Some? && FirstOf(At(t, path).value) == dirCluster
  }

  ghost function EntriesOf(p: Partition, n: Node): seq<Entry>
    requires p.Mounted() && InArea(|p.Data()|, p.g.sectorsPerCluster, n.chain)
    reads p.hd.sectors
  {
    DirSlots(p.Data(), p.g.sectorsPerCluster, n.chain)
  }

  /** `es` are the entries of the directory `n`. */
  ghost predicate HasEntries(p: Partition, n: Node, es: seq<Entry>)
    requires p.Mounted()
    reads p.hd.sectors
  {
    n.Dir? && InArea(|p.Data()|, p.g.sectorsPerCluster, n.chain) && es == EntriesOf(p, n)
  }

  lemma EntriesReadable(p: Partition, t0: Node, es: seq<Entry>)
    requires p.Mounted() && HasEntries(p, t0, es)
    requires Readable(p, t0.chain, DirSlots(p.Data(), p.g.sectorsPerCluster, t0.chain))
    ensures t0.Dir? && t0.chain != [] && Readable(p, t0.chain, es) && FirstOf(t0) == t0.chain[0]
    ensures InArea(|p.Data()|, p.g.sectorsPerCluster, t0.chain)
    ensures es == DirSlots(p.Data(), p.g.sectorsPerCluster, t0.chain)
  {
  }

  predicate HasName(kids: seq<Kid>, name: Name) {
    exists k :: 0 <= k < |kids| && kids[k].name == Some(name)
  }

  /** A stored directory can be read by the lookup loops. */
  lemma DirReadable(p: Partition, t: Node, path: seq<Name>)
    requires Holds(p, t) && At(t, path).Some?
    ensures var t0 := At(t, path).value;
      && t0.chain != [] && InArea(|p.Data()|, p.g.sectorsPerCluster, t0.chain)
      && Readable(p, t0.chain, EntriesOf(p, t0))
      && Stored(p.g, p.Fat(), p.Data(), t0, UpAt(t, path, 0))
      && Proper(t0) && Clusters(t0) <= Clusters(t)
  {
    AtStored(p.g, p.Fat(), p.Data(), t, 0, path);
  }

  lemma VolumeBasics(g: Geometry, f: seq<nat>, d: seq<Sector>, free: nat, t: Node, path: seq<Name>, t0: Node)
    requires VolumeOk(g, f, d, free, t) && At(t, path) == Some(t0)
    ensures free == |Free(f)| && |f| > 2 && f[0] >= END_OF_CHAIN
    ensures t0.Dir? && t0.chain != [] && Chain(f, t0.chain) && 2 <= t0.chain[0] < |f| && Distinct(t0.chain)
    ensures InArea(|d|, g.sectorsPerCluster, t0.chain)
    ensures Clusters(t0) <= Clusters(t) && KidClusters(t0) <= Clusters(t) - Elems(t0.chain)
    ensures Listed(g, DirSlots(d, g.sectorsPerCluster, t0.chain), t0.chain[0], t0.kids, UpAt(t, path, 0))
  {
    hide Listed;
    AtStored(g, f, d, t, 0, path);
  }

  /** What a lookup's answer says about the tree. */
  lemma AbsentMeans(g: Geometry, es: seq<Entry>, first: nat, kids: seq<Kid>, up: nat, name: Name, dirsOnly: bool)
    requires Listed(g, es, first, kids, up)
    ensures Absent(es, name, false) <==> !HasName(kids, name)
    ensures Absent(es, name, true) ==> SubIndex(kids, name) == |kids|
  {
    hide Items, Tidy;
    if !Absent(es, name, false) {
      var l :| 0 <= l < |Items(es, 0, 0)| && Wanted(es, Items(es, 0, 0)[l], name, false);
      assert kids[l].name == Some(name);
    }
  }

  lemma FoundMeans(g: Geometry, es: seq<Entry>, first: nat, kids: seq<Kid>, up: nat, name: Name, dirsOnly: bool, j: nat)
    requires Listed(g, es, first, kids, up) && FirstWanted(es, j, name, dirsOnly)
    ensures j < |kids| && kids[j].name == Some(name) && (dirsOnly ==> SubIndex(kids, name) == j)
    ensures Describes(es[Items(es, 0, 0)[j].at], Items(es, 0, 0)[j], kids[j])
  {
    hide Items, Tidy;
    if dirsOnly {
      assert IsSub(kids, name, j);
      assert forall l: nat :: l < j ==> !IsSub(kids, name, l);
    }
  }

  /** Owned clusters are not free. */
  lemma {:induction false} OwnedNotFree(g: Geometry, f: seq<nat>, d: seq<Sector>, n: Node, up: nat)
    requires Stored(g, f, d, n, up)
    ensures Clusters(n) !! Free(f)
    ensures forall c :: c in Clusters(n) ==> 2 <= c < |f|
    decreases n
  {
    if n.chain != [] {
      ChainNotFree(f, n.chain);
    }
    if n.Dir? {
      forall k | 0 <= k < |n.kids|
        ensures Clusters(n.kids[k].node) !! Free(f)
        ensures forall c :: c in Clusters(n.kids[k].node) ==> 2 <= c < |f|
      {
        OwnedNotFree(g, f, d, n.kids[k].node, n.chain[0]);
      }
    }
  }

  /** A freshly formatted volume stores the empty tree. */
  lemma EmptyVolume(g: Geometry, f: seq<nat>, d: seq<Sector>)
    requires 2 <= g.rootCluster < |f| <= END_OF_CHAIN && f[0] >= END_OF_CHAIN && f[g.rootCluster] >= END_OF_CHAIN
    requires g.sectorsPerCluster > 0 && Base(g.sectorsPerCluster, g.rootCluster) + g.sectorsPerCluster <= |d|
    requires forall o :: 0 <= o < g.sectorsPerCluster ==>
      Cluster(d, g.sectorsPerCluster, g.rootCluster)[o] == Zeros(SECTOR_SIZE)
    ensures VolumeOk(g, f, d, |Free(f)|, Dir([g.rootCluster], []))
  {
    var c, ss := g.rootCluster, ChainSectors(d, g.sectorsPerCluster, [g.rootCluster]);
    assert [c][..0] == [] && Times(g.sectorsPerCluster, 1) == g.sectorsPerCluster;
    assert ss == ChainSectors(d, g.sectorsPerCluster, []) + Cluster(d, g.sectorsPerCluster, c);
    var es := DirSlots(d, g.sectorsPerCluster, [c]);
    forall k | 0 <= k < |es|
      ensures es[k][0] == 0
    {
      assert es[k][0] == ss[k / SLOTS][ENTRY_SIZE * (k % SLOTS)];
    }
    assert es[0][0] == 0;
    assert Chain(f, [c]);
  }

  // ---- one more kid ----

  lemma InsertAt<T>(s: seq<T>, j: nat, x: T, a: nat)
    requires j <= |s| && a <= |s|
    ensures |Insert(s, j, x)| == |s| + 1
    ensures Insert(s, j, x)[a] == if a < j then s[a] else if a == j then x else s[a - 1]
  {
  }

  lemma InsertUnique(kids: seq<Kid>, j: nat, kid: Kid)
    requires UniqueNames(kids) && j <= |kids|
    requires kid.name.Some? ==> !HasName(kids, kid.name.value)
    ensures UniqueNames(Insert(kids, j, kid))
  {
    var ks := Insert(kids, j, kid);
    forall a, b | 0 <= a < b < |ks| && ks[a].name.Some?
      ensures ks[a].name != ks[b].name
    {
      InsertAt(kids, j, kid, a);
      InsertAt(kids, j, kid, b);
    }
  }

  lemma InsertProper(chain: seq<nat>, kids: seq<Kid>, j: nat, kid: Kid)
    requires Proper(Dir(chain, kids)) && j <= |kids| && Proper(kid.node)
    requires Clusters(kid.node) !! Clusters(Dir(chain, kids))
    requires kid.name.Some? ==> !HasName(kids, kid.name.value)
    ensures Proper(Dir(chain, Insert(kids, j, kid)))
  {
    var n, ks := Dir(chain, kids), Insert(kids, j, kid);
    InsertUnique(kids, j, kid);
    forall a | 0 <= a < |ks|
      ensures Proper(ks[a].node) && Elems(chain) !! Clusters(ks[a].node)
    {
      InsertAt(kids, j, kid, a);
    }
    forall a, b | 0 <= a < b < |ks|
      ensures Clusters(ks[a].node) !! Clusters(ks[b].node)
    {
      InsertAt(kids, j, kid, a);
      InsertAt(kids, j, kid, b);
      assert forall c :: 0 <= c < |kids| ==> Clusters(kids[c].node) <= Clusters(n);
    }
  }

  lemma KidClustersIn(n: Node, k: nat)
    requires n.Dir? && k < |n.kids|
    ensures Clusters(n.kids[k].node) <= KidClusters(n) <= Clusters(n)
  {
  }

  lemma InsertClusters(chain: seq<nat>, kids: seq<Kid>, j: nat, kid: Kid)
    requires j <= |kids|
    ensures Clusters(Dir(chain, Insert(kids, j, kid))) == Clusters(Dir(chain, kids)) + Clusters(kid.node)
  {
    var ks, n, n' := Insert(kids, j, kid), Dir(chain, kids), Dir(chain, Insert(kids, j, kid));
    forall c | c in KidClusters(n')
      ensures c in KidClusters(n) + Clusters(kid.node)
    {
      var a: nat :| a < |ks| && c in Clusters(ks[a].node);
      InsertAt(kids, j, kid, a);
    }
    forall c | c in KidClusters(n)
      ensures c in KidClusters(n')
    {
      var a: nat :| a < |kids| && c in Clusters(kids[a].node);
      InsertAt(kids, j, kid, if a < j then a else a + 1);
    }
    InsertAt(kids, j, kid, j);
    KidClustersIn(n', j);
    assert Clusters(n') == Elems(chain) + KidClusters(n');
  }

  /** `es'` is `es` with the run of one more kid at `p`, where readers get to. */
  ghost predicate Added(g: Geometry, es: seq<Entry>, es': seq<Entry>, p: nat, n: nat, kid: Kid) {
    && Created(es, es', p, n)
    && (forall k :: 0 <= k < p ==> es[k][0] != 0)
    && Describes(es'[p + n], Item(NameOf(es'[p..p + n]), p + n, n), kid)
    && (g.written ==> EndsEarly(es', g.sectorsPerCluster))
  }

  /** The new entry list describes the old kids and the new one. */
  lemma InsertListed(g: Geometry, es: seq<Entry>, es': seq<Entry>, first: nat, kids: seq<Kid>, up: nat,
                     p: nat, n: nat, kid: Kid) returns (j: nat)
    requires Listed(g, es, first, kids, up) && Added(g, es, es', p, n, kid)
    ensures j <= |kids| && Listed(g, es', first, Insert(kids, j, kid), up)
  {
    hide NameOf, Tidy, Items, First, Size;
    TidyAt(es, 0, 0, p);
    j := CreatedItems(es, es', p, n, 0, 0);
    var xs, xs' := Items(es, 0, 0), Items(es', 0, 0);
    var x := Item(NameOf(es'[p..p + n]), p + n, n);
    assert xs' == Insert(xs, j, x);
    var ks := Insert(kids, j, kid);
    forall k | 0 <= k < |ks|
      ensures 0 <= xs'[k].at < |es'| && Describes(es'[xs'[k].at], xs'[k], ks[k])
    {
      InsertAt(xs, j, x, k);
      InsertAt(kids, j, kid, k);
      if k != j {
        ItemPlaced(es, if k < j then k else k - 1);
      }
    }
  }

  lemma ItemPlaced(es: seq<Entry>, k: nat)
    requires Tidy(es, 0, 0) && k < |Items(es, 0, 0)|
    ensures ItemPlace(es, Items(es, 0, 0)[k])
  {
    ItemShape(es, 0, 0, k);
  }

  lemma ItemsDistinct(es: seq<Entry>, j: nat, k: nat)
    requires j < |Items(es, 0, 0)| && k < |Items(es, 0, 0)| && j != k
    ensures Items(es, 0, 0)[j].at != Items(es, 0, 0)[k].at
  {
    if j < k {
      ItemsAscend(es, 0, 0, j, k);
    } else {
      ItemsAscend(es, 0, 0, k, j);
    }
  }

  /** Reading reaches `p`, a free entry, with nothing in hand. */
  lemma {:induction false} TidyAt(es: seq<Entry>, i: nat, run: nat, p: nat)
    requires run <= i <= p < |es| && Tidy(es, i, run)
    requires !Live(es[p]) && forall k :: i <= k < p ==> es[k][0] != 0
    ensures Tidy(es, p, 0)
    decreases p - i
  {
    if i < p {
      TidyAt(es, i + 1, if Live(es[i]) && IsLong(es[i]) then run + 1 else 0, p);
    }
  }

  /** The kids of a directory are stored as before if their clusters are what they were. */
  lemma KidsSame(g: Geometry, f: seq<nat>, d: seq<Sector>, f': seq<nat>, d': seq<Sector>, n: Node, up: nat, k: nat)
    requires n.Dir? && k < |n.kids| && Stored(g, f, d, n, up)
    requires SameAt(g.sectorsPerCluster, f, d, f', d', Clusters(n.kids[k].node))
    ensures Stored(g, f', d', n.kids[k].node, n.chain[0])
  {
    StoredFrame(g, f, d, f', d', n.kids[k].node, n.chain[0]);
  }

  lemma InsertStored(g: Geometry, f: seq<nat>, d: seq<Sector>, f': seq<nat>, d': seq<Sector>, n: Node, up: nat,
                     j: nat, kid: Kid)
    requires n.Dir? && n.chain != [] && j <= |n.kids| && Stored(g, f, d, n, up)
    requires SameAt(g.sectorsPerCluster, f, d, f', d', KidClusters(n))
    requires DirStored(g, f', d', n.chain, Insert(n.kids, j, kid), up) && Stored(g, f', d', kid.node, n.chain[0])
    ensures Stored(g, f', d', Dir(n.chain, Insert(n.kids, j, kid)), up)
  {
    hide DirStored;
    var ks := Insert(n.kids, j, kid);
    forall k | 0 <= k < |ks|
      ensures Stored(g, f', d', ks[k].node, n.chain[0])
    {
      InsertAt(n.kids, j, kid, k);
      if k != j {
        KidClustersIn(n, if k < j then k else k - 1);
        KidsSame(g, f, d, f', d', n, up, if k < j then k else k - 1);
      }
    }
  }

  /** What a step leaves of the volume around the directory `t0`. */
  ghost predicate Around(g: Geometry, f: seq<nat>, d: seq<Sector>, f': seq<nat>, d': seq<Sector>, free': nat, t: Node,
                         t0: Node) {
    && |f'| == |f| > 0 && |d'| == |d| && f'[0] >= END_OF_CHAIN && free' == |Free(f')|
    && InArea(|d|, g.sectorsPerCluster, t0.chain) && Chain(f', t0.chain)
    && SameAt(g.sectorsPerCluster, f, d, f', d', Clusters(t) - Elems(t0.chain))
  }

  /** A directory gets one more kid, whose clusters nobody owned. */
  lemma KidAdded(g: Geometry, f: seq<nat>, d: seq<Sector>, free: nat, t: Node, path: seq<Name>, t0: Node,
                 f': seq<nat>, d': seq<Sector>, free': nat, p: nat, n: nat, kid: Kid) returns (j: nat)
    requires VolumeOk(g, f, d, free, t) && At(t, path) == Some(t0)
    requires Around(g, f, d, f', d', free', t, t0)
    requires Added(g, DirSlots(d, g.sectorsPerCluster, t0.chain), DirSlots(d', g.sectorsPerCluster, t0.chain), p, n,
                   kid)
    requires kid.name.Some? ==> !HasName(t0.kids, kid.name.value)
    requires Stored(g, f', d', kid.node, t0.chain[0]) && Proper(kid.node) && Clusters(kid.node) !! Clusters(t)
    ensures j <= |t0.kids| && VolumeOk(g, f', d', free', Put(t, path, Dir(t0.chain, Insert(t0.kids, j, kid))))
  {
    hide Listed, Added, Items, NameOf;
    var up, spc := UpAt(t, path, 0), g.sectorsPerCluster;
    AtStored(g, f, d, t, 0, path);
    j := InsertListed(g, DirSlots(d, spc, t0.chain), DirSlots(d', spc, t0.chain), t0.chain[0], t0.kids, up, p, n, kid);
    InsertProper(t0.chain, t0.kids, j, kid);
    InsertClusters(t0.chain, t0.kids, j, kid);
    assert KidClusters(t0) <= Clusters(t) - Elems(t0.chain);
    InsertStored(g, f, d, f', d', t0, up, j, kid);
    DirChanged(g, f, d, free, t, f', d', free', path, Dir(t0.chain, Insert(t0.kids, j, kid)));
  }

  /** All there is to know of a directory in the tree. */
  lemma DirHere(g: Geometry, f: seq<nat>, d: seq<Sector>, free: nat, t: Node, path: seq<Name>, t0: Node)
    requires VolumeOk(g, f, d, free, t) && At(t, path) == Some(t0)
    ensures t0.Dir? && t0.chain != [] && Stored(g, f, d, t0, UpAt(t, path, 0)) && Proper(t0)
    ensures Clusters(t0) <= Clusters(t)
    ensures KidClusters(t0) <= Clusters(t) - Elems(t0.chain) && Clusters(t0) == Elems(t0.chain) + KidClusters(t0)
    ensures InArea(|d|, g.sectorsPerCluster, t0.chain)
    ensures Listed(g, DirSlots(d, g.sectorsPerCluster, t0.chain), t0.chain[0], t0.kids, UpAt(t, path, 0))
  {
    VolumeBasics(g, f, d, free, t, path, t0);
    AtStored(g, f, d, t, 0, path);
  }

  lemma SameLess(spc: nat, f: seq<nat>, d: seq<Sector>, f': seq<nat>, d': seq<Sector>, cs: set<nat>, less: set<nat>)
    requires SameAt(spc, f, d, f', d', cs) && less <= cs
    ensures SameAt(spc, f, d, f', d', less) && |f'| == |f| && |d'| == |d|
  {
  }

  lemma DirListed(g: Geometry, f: seq<nat>, d: seq<Sector>, chain: seq<nat>, kids: seq<Kid>, up: nat)
    requires chain != [] && Chain(f, chain) && InArea(|d|, g.sectorsPerCluster, chain)
    requires Listed(g, DirSlots(d, g.sectorsPerCluster, chain), chain[0], kids, up)
    ensures DirStored(g, f, d, chain, kids, up)
  {
  }

  lemma FitsNow(t: Node, t0: Node, m: Node)
    requires m.Dir? && m.chain == t0.chain && Proper(m) && Clusters(m) - Clusters(t0) !! Clusters(t)
    ensures Suits(t, t0, m)
  {
  }

  lemma AroundKidParts(g: Geometry, f: seq<nat>, d: seq<Sector>, f': seq<nat>, d': seq<Sector>, free': nat, t: Node,
                       t0: Node, j: nat)
    requires AroundKid(g, f, d, f', d', free', t, t0, j)
    ensures t0.Dir? && j < |t0.kids| && t0.chain != [] && |f'| == |f| > 0 && |d'| == |d| && f'[0] >= END_OF_CHAIN
    ensures free' == |Free(f')|
    ensures InArea(|d|, g.sectorsPerCluster, t0.chain) && Chain(f', t0.chain)
    ensures SameAt(g.sectorsPerCluster, f, d, f', d', Clusters(t) - Elems(t0.chain) - Clusters(t0.kids[j].node))
  {
  }

  // ---- one kid less ----

  lemma RemoveAt<T>(s: seq<T>, j: nat, a: nat)
    requires j < |s| && a < |s| - 1
    ensures |Remove(s, j)| == |s| - 1
    ensures Remove(s, j)[a] == if a < j then s[a] else s[a + 1]
  {
  }

  lemma RemoveProper(n: Node, j: nat)
    requires n.Dir? && Proper(n) && j < |n.kids|
    ensures Proper(Dir(n.chain, Remove(n.kids, j)))
  {
    var ks := Remove(n.kids, j);
    forall a | 0 <= a < |ks|
      ensures Proper(ks[a].node) && Elems(n.chain) !! Clusters(ks[a].node)
    {
      RemoveAt(n.kids, j, a);
    }
    forall a, b | 0 <= a < b < |ks|
      ensures Clusters(ks[a].node) !! Clusters(ks[b].node) && (ks[a].name.Some? ==> ks[a].name != ks[b].name)
    {
      RemoveAt(n.kids, j, a);
      RemoveAt(n.kids, j, b);
    }
  }

  /** A cluster of one of the kids. */
  lemma KidOf(n: Node, c: nat) returns (a: nat)
    requires n.Dir? && c in KidClusters(n)
    ensures a < |n.kids| && c in Clusters(n.kids[a].node)
  {
    a :| a < |n.kids| && c in Clusters(n.kids[a].node);
  }

  lemma ClustersOf(n: Node)
    ensures Clusters(n) == Elems(n.chain) + KidClusters(n)
  {
  }

  lemma StillOwned(n: Node, j: nat, c: nat)
    requires n.Dir? && Proper(n) && j < |n.kids| && c in KidClusters(Dir(n.chain, Remove(n.kids, j)))
    ensures c in KidClusters(n) && c !in Clusters(n.kids[j].node)
  {
    hide Clusters, KidClusters, Proper, Remove;
    var a := KidOf(Dir(n.chain, Remove(n.kids, j)), c);
    OwnChainApart(n, j);
    RemoveAt(n.kids, j, a);
    OtherKidsApart(n, j, if a < j then a else a + 1);
  }

  lemma OwnedStill(n: Node, j: nat, c: nat)
    requires n.Dir? && Proper(n) && j < |n.kids| && c in KidClusters(n) && c !in Clusters(n.kids[j].node)
    ensures c in KidClusters(Dir(n.chain, Remove(n.kids, j)))
  {
    hide Clusters, KidClusters, Proper, Remove;
    var a := KidOf(n, c);
    OwnChainApart(n, j);
    RemoveAt(n.kids, j, if a < j then a else a - 1);
    KidClustersIn(Dir(n.chain, Remove(n.kids, j)), if a < j then a else a - 1);
  }

  lemma RemoveClusters(n: Node, j: nat)
    requires n.Dir? && Proper(n) && j < |n.kids|
    ensures Clusters(Dir(n.chain, Remove(n.kids, j))) == Clusters(n) - Clusters(n.kids[j].node)
  {
    var n' := Dir(n.chain, Remove(n.kids, j));
    OwnChainApart(n, j);
    ClustersOf(n);
    ClustersOf(n');
    hide Clusters, KidClusters, Proper, Remove;
    forall c | c in KidClusters(n')
      ensures c in KidClusters(n) && c !in Clusters(n.kids[j].node)
    {
      StillOwned(n, j, c);
    }
    forall c | c in KidClusters(n) && c !in Clusters(n.kids[j].node)
      ensures c in KidClusters(n')
    {
      OwnedStill(n, j, c);
    }
  }

  lemma OwnChainApart(n: Node, j: nat)
    requires n.Dir? && Proper(n) && j < |n.kids|
    ensures Elems(n.chain) !! Clusters(n.kids[j].node) && |Remove(n.kids, j)| == |n.kids| - 1
  {
  }

  lemma OtherKidsApart(n: Node, j: nat, k: nat)
    requires n.Dir? && Proper(n) && j < |n.kids| && k < |n.kids| && j != k
    ensures Clusters(n.kids[j].node) !! Clusters(n.kids[k].node)
    ensures Elems(n.chain) !! Clusters(n.kids[k].node)
    ensures Clusters(n.kids[k].node) <= KidClusters(n)
  {
  }

  lemma RemoveListed(g: Geometry, es: seq<Entry>, es': seq<Entry>, first: nat, kids: seq<Kid>, up: nat, j: nat)
    requires Listed(g, es, first, kids, up) && j < |kids|
    requires Erased(es, es', Items(es, 0, 0)[j].at, Items(es, 0, 0)[j].run)
    ensures Listed(g, es', first, Remove(kids, j), up)
  {
    hide NameOf, Tidy, Run, Items, Erased, Describes, ItemPlace;
    ItemShape(es, 0, 0, j);
    ErasedItems(es, es', 0, 0, j);
    ItemPlaced(es, j);
    var xs, xs', ks := Items(es, 0, 0), Items(es', 0, 0), Remove(kids, j);
    forall k | 0 <= k < |ks|
      ensures 0 <= xs'[k].at < |es'| && Describes(es'[xs'[k].at], xs'[k], ks[k])
    {
      RemoveAt(xs, j, k);
      RemoveAt(kids, j, k);
      var k0 := if k < j then k else k + 1;
      ItemPlaced(es, k0);
      ItemsDistinct(es, j, k0);
      OtherItemKept(es, es', xs[j], xs[k0]);
    }
    if up != 0 {
      ErasedLive(es, es', xs[j], 0);
      ErasedLive(es, es', xs[j], 1);
    }
    if g.written {
      var z :| 0 <= z < |es| && z < SLOTS * g.sectorsPerCluster && es[z][0] == 0;
      ErasedLive(es, es', xs[j], z);
    }
  }

  /** The entries that an item takes are in use and are not dot entries. */
  lemma ErasedLive(es: seq<Entry>, es': seq<Entry>, x: Item, k: nat)
    requires ItemPlace(es, x) && Erased(es, es', x.at, x.run) && k < |es|
    ensures |es'| == |es| && (es[k][0] == 0 ==> es'[k] == es[k])
    ensures IsDot(es[k]) && !IsLong(es[k]) ==> es'[k] == es[k]
  {
  }

  /** An item's short entry lies outside every other item's entries. */
  lemma OtherItemKept(es: seq<Entry>, es': seq<Entry>, x: Item, y: Item)
    requires ItemPlace(es, x) && ItemPlace(es, y) && x.at != y.at && Erased(es, es', x.at, x.run)
    ensures |es'| == |es| && es'[y.at] == es[y.at]
  {
  }

  lemma RemoveStored(g: Geometry, f: seq<nat>, d: seq<Sector>, f': seq<nat>, d': seq<Sector>, n: Node, up: nat, j: nat)
    requires n.Dir? && n.chain != [] && j < |n.kids| && Stored(g, f, d, n, up) && Proper(n)
    requires SameAt(g.sectorsPerCluster, f, d, f', d', KidClusters(n) - Clusters(n.kids[j].node))
    requires DirStored(g, f', d', n.chain, Remove(n.kids, j), up)
    ensures Stored(g, f', d', Dir(n.chain, Remove(n.kids, j)), up)
  {
    hide DirStored;
    var ks := Remove(n.kids, j);
    forall k | 0 <= k < |ks|
      ensures Stored(g, f', d', ks[k].node, n.chain[0])
    {
      RemoveAt(n.kids, j, k);
      var k0 := if k < j then k else k + 1;
      KidClustersIn(n, k0);
      KidsSame(g, f, d, f', d', n, up, k0);
    }
  }

  /** The volume around the directory `t0` and its kid `j` is left as it was. */
  ghost predicate AroundKid(g: Geometry, f: seq<nat>, d: seq<Sector>, f': seq<nat>, d': seq<Sector>, free': nat,
                            t: Node, t0: Node, j: nat) {
    && t0.Dir? && j < |t0.kids| && t0.chain != []
    && |f'| == |f| > 0 && |d'| == |d| && f'[0] >= END_OF_CHAIN && free' == |Free(f')|
    && InArea(|d|, g.sectorsPerCluster, t0.chain) && Chain(f', t0.chain)
    && SameAt(g.sectorsPerCluster, f, d, f', d', Clusters(t) - Elems(t0.chain) - Clusters(t0.kids[j].node))
  }

  /** A directory loses kid `j` with everything below it. */
  lemma KidRemoved(g: Geometry, f: seq<nat>, d: seq<Sector>, free: nat, t: Node, path: seq<Name>, t0: Node,
                   f': seq<nat>, d': seq<Sector>, free': nat, j: nat, es: seq<Entry>, es': seq<Entry>)
    requires VolumeOk(g, f, d, free, t) && At(t, path) == Some(t0)
    requires AroundKid(g, f, d, f', d', free', t, t0, j)
    requires es == DirSlots(d, g.sectorsPerCluster, t0.chain) && es' == DirSlots(d', g.sectorsPerCluster, t0.chain)
    requires j < |Items(es, 0, 0)| && Erased(es, es', Items(es, 0, 0)[j].at, Items(es, 0, 0)[j].run)
    ensures VolumeOk(g, f', d', free', Put(t, path, Dir(t0.chain, Remove(t0.kids, j))))
  {
    hide *;
    DirHere(g, f, d, free, t, path, t0);
    AroundKidParts(g, f, d, f', d', free', t, t0, j);
    var spc, up, cs := g.sectorsPerCluster, UpAt(t, path, 0), Clusters(t) - Elems(t0.chain) - Clusters(t0.kids[j].node);
    KidClustersIn(t0, j);
    RemoveListed(g, es, es', t0.chain[0], t0.kids, up, j);
    DirListed(g, f', d', t0.chain, Remove(t0.kids, j), up);
    RemoveProper(t0, j);
    RemoveClusters(t0, j);
    SameLess(spc, f, d, f', d', cs, KidClusters(t0) - Clusters(t0.kids[j].node));
    SameLess(spc, f, d, f', d', cs, Clusters(t) - Clusters(t0));
    RemoveStored(g, f, d, f', d', t0, up, j);
    FitsNow(t, t0, Dir(t0.chain, Remove(t0.kids, j)));
    DirChanged(g, f, d, free, t, f', d', free', path, Dir(t0.chain, Remove(t0.kids, j)));
  }

  // ---- a kid with new contents ----

  /** Entry `e` has taken the place of item `x`'s short entry `was`. */
  ghost predicate Rewritten(es: seq<Entry>, es': seq<Entry>, x: Item, e: Entry) {
    x.at < |es| && es' == es[x.at := e] && e[0] == es[x.at][0] && e[11] == es[x.at][11]
  }

  lemma UpdateListed(g: Geometry, es: seq<Entry>, es': seq<Entry>, first: nat, kids: seq<Kid>, up: nat, j: nat,
                     e: Entry, x: Node)
    requires Listed(g, es, first, kids, up) && j < |kids| && Rewritten(es, es', Items(es, 0, 0)[j], e)
    requires Describes(e, Items(es, 0, 0)[j], Kid(kids[j].name, x))
    ensures Listed(g, es', first, kids[j := Kid(kids[j].name, x)], up)
  {
    ItemPlaced(es, j);
    var xs, xs', ks := Items(es, 0, 0), Items(es', 0, 0), kids[j := Kid(kids[j].name, x)];
    UpdatedItems(es, xs[j].at, e, 0, 0);
    hide NameOf, Tidy, Items, Run, Describes;
    forall k | 0 <= k < |kids|
      ensures xs'[k].at < |es'| && Describes(es'[xs'[k].at], xs'[k], ks[k])
    {
      if k != j {
        ItemsDistinct(es, j, k);
      }
    }
    if g.written {
      var z :| 0 <= z < |es| && z < SLOTS * g.sectorsPerCluster && es[z][0] == 0;
      assert es'[z][0] == 0;
    }
  }

  lemma UpdateStored(g: Geometry, f: seq<nat>, d: seq<Sector>, f': seq<nat>, d': seq<Sector>, n: Node, up: nat,
                     j: nat, x: Node)
    requires n.Dir? && n.chain != [] && j < |n.kids| && Stored(g, f, d, n, up) && Proper(n)
    requires SameAt(g.sectorsPerCluster, f, d, f', d', KidClusters(n) - Clusters(n.kids[j].node))
    requires DirStored(g, f', d', n.chain, n.kids[j := Kid(n.kids[j].name, x)], up) && Stored(g, f', d', x, n.chain[0])
    ensures Stored(g, f', d', Dir(n.chain, n.kids[j := Kid(n.kids[j].name, x)]), up)
  {
    hide DirStored;
    forall k | 0 <= k < |n.kids| && k != j
      ensures Stored(g, f', d', n.kids[k].node, n.chain[0])
    {
      KidClustersIn(n, k);
      KidsSame(g, f, d, f', d', n, up, k);
    }
  }

  /** Kid `j` gets new contents, on clusters of its own or ones that nobody owned. */
  lemma KidUpdated(g: Geometry, f: seq<nat>, d: seq<Sector>, free: nat, t: Node, path: seq<Name>, t0: Node,
                   f': seq<nat>, d': seq<Sector>, free': nat, j: nat, es: seq<Entry>, e: Entry, x: Node)
    requires VolumeOk(g, f, d, free, t) && At(t, path) == Some(t0)
    requires AroundKid(g, f, d, f', d', free', t, t0, j)
    requires es == DirSlots(d, g.sectorsPerCluster, t0.chain) && j < |Items(es, 0, 0)|
    requires Rewritten(es, DirSlots(d', g.sectorsPerCluster, t0.chain), Items(es, 0, 0)[j], e)
    requires Describes(e, Items(es, 0, 0)[j], Kid(t0.kids[j].name, x))
    requires Stored(g, f', d', x, t0.chain[0]) && Proper(x)
    requires Clusters(x) - Clusters(t0.kids[j].node) !! Clusters(t)
    ensures VolumeOk(g, f', d', free', Put(t, path, Dir(t0.chain, t0.kids[j := Kid(t0.kids[j].name, x)])))
  {
    hide *;
    DirHere(g, f, d, free, t, path, t0);
    AroundKidParts(g, f, d, f', d', free', t, t0, j);
    var spc, up, cs := g.sectorsPerCluster, UpAt(t, path, 0), Clusters(t) - Elems(t0.chain) - Clusters(t0.kids[j].node);
    KidClustersIn(t0, j);
    UpdateListed(g, es, DirSlots(d', spc, t0.chain), t0.chain[0], t0.kids, up, j, e, x);
    DirListed(g, f', d', t0.chain, t0.kids[j := Kid(t0.kids[j].name, x)], up);
    KidReplaced(t0, j, x);
    SameLess(spc, f, d, f', d', cs, KidClusters(t0) - Clusters(t0.kids[j].node));
    SameLess(spc, f, d, f', d', cs, Clusters(t) - Clusters(t0));
    UpdateStored(g, f, d, f', d', t0, up, j, x);
    FitsNow(t, t0, Dir(t0.chain, t0.kids[j := Kid(t0.kids[j].name, x)]));
    DirChanged(g, f, d, free, t, f', d', free', path, Dir(t0.chain, t0.kids[j := Kid(t0.kids[j].name, x)]));
  }
}
