/** The file system as a user sees it, a tree of named files and directories, and what it means
    that a table `f` and a data area `d` store such a tree. */
module Trees {
  import opened Bytes
  import opened FatTable
  import opened Chains
  import opened FileData
  import opened LongNames
  import opened Directories

  type Name = seq<byte>

  /** A node and the cluster chain it owns. */
  datatype Node =
    | File(chain: seq<nat>, bytes: seq<byte>)
    | Dir(chain: seq<nat>, kids: seq<Kid>)

  /** Kids stand in the order of their entries; None is an entry without a long name. */
  datatype Kid = Kid(name: Option<Name>, node: Node)

  function FirstOf(n: Node): nat {
    if n.chain == [] then 0 else n.chain[0]
  }

  /** All clusters that a node and everything below it own. */
  ghost function Clusters(n: Node): set<nat> {
    Elems(n.chain) + KidClusters(n)
  }

  ghost function KidClusters(n: Node): set<nat>
    decreases n, 0
  {
    match n
    case File(_, _) => {}
    case Dir(_, kids) => set k, c | 0 <= k < |kids| && c in Clusters(kids[k].node) :: c
  }

  /** No cluster is owned twice, and no name is used twice in a directory. */
  ghost predicate Proper(n: Node) {
    Distinct(n.chain) &&
    match n
    case File(_, _) => true
    case Dir(chain, kids) =>
      && (forall k :: 0 <= k < |kids| ==> Proper(kids[k].node) && Elems(chain) !! Clusters(kids[k].node))
      && (forall j, k :: 0 <= j < k < |kids| ==> Clusters(kids[j].node) !! Clusters(kids[k].node))
      && UniqueNames(kids)
  }

  ghost predicate UniqueNames(kids: seq<Kid>) {
    forall j, k :: 0 <= j < k < |kids| && kids[j].name.Some? ==> kids[j].name != kids[k].name
  }

  /** `size` bytes fill all but the last of `k` clusters: `size` rounds up to `k`. */
  predicate RoundsUp(size: nat, spc: nat, k: nat) {
    size <= SECTOR_SIZE * Times(spc, k) && (k > 0 ==> SECTOR_SIZE * Times(spc, k - 1) < size)
  }

  /** The entries of a directory. */
  function DirSlots(d: seq<Sector>, spc: nat, s: seq<nat>): (es: seq<Entry>)
    requires InArea(|d|, spc, s)
    ensures |es| == SLOTS * Times(spc, |s|)
  {
    AllSlots(ChainSectors(d, spc, s))
  }

  /** An entry describes a kid. */
  ghost predicate Describes(e: Entry, x: Item, kid: Kid) {
    && x.name == kid.name
    && (IsDir(e) <==> kid.node.Dir?)
    && First(e) == FirstOf(kid.node)
    && Size(e) == if kid.node.File? then |kid.node.bytes| else 0
  }

  /** `es` are the entries of a directory with kids `kids` that starts at cluster `first`; `up` is
      where its parent starts, or 0 for the root. As compiled, the loops over a directory run
      into a foreign sector unless the first cluster holds an end mark. */
  ghost predicate Listed(g: Geometry, es: seq<Entry>, first: nat, kids: seq<Kid>, up: nat) {
    && Tidy(es, 0, 0)
    && |Items(es, 0, 0)| == |kids|
    && (forall k :: 0 <= k < |kids| ==>
          0 <= Items(es, 0, 0)[k].at < |es| && Describes(es[Items(es, 0, 0)[k].at], Items(es, 0, 0)[k], kids[k]))
    && (up != 0 ==> DotPair(es, first, up))
    && (g.written ==> EndsEarly(es, g.sectorsPerCluster))
  }

  /** The first two entries are `.` and `..`. */
  ghost predicate DotPair(es: seq<Entry>, first: nat, up: nat) {
    && |es| > 1
    && IsDot(es[0]) && !IsLong(es[0]) && First(es[0]) == first
    && IsDot(es[1]) && !IsLong(es[1]) && First(es[1]) == up
  }

  ghost predicate EndsEarly(es: seq<Entry>, spc: nat) {
    exists z :: 0 <= z < |es| && z < SLOTS * spc && es[z][0] == 0
  }

  ghost predicate FileStored(g: Geometry, f: seq<nat>, d: seq<Sector>, chain: seq<nat>, bytes: seq<byte>) {
    && |bytes| < 0x8000_0000
    && RoundsUp(|bytes|, g.sectorsPerCluster, |chain|)
    && InArea(|d|, g.sectorsPerCluster, chain)
    && (chain != [] ==> Chain(f, chain))
    && Contents(d, g.sectorsPerCluster, chain, |bytes|) == bytes
  }

  ghost predicate DirStored(g: Geometry, f: seq<nat>, d: seq<Sector>, chain: seq<nat>, kids: seq<Kid>, up: nat) {
    && Chain(f, chain)
    && InArea(|d|, g.sectorsPerCluster, chain)
    && Listed(g, DirSlots(d, g.sectorsPerCluster, chain), chain[0], kids, up)
  }

  ghost predicate Stored(g: Geometry, f: seq<nat>, d: seq<Sector>, n: Node, up: nat)
    decreases n
  {
    match n
    case File(chain, bytes) => FileStored(g, f, d, chain, bytes)
    case Dir(chain, kids) =>
      && DirStored(g, f, d, chain, kids, up)
      && forall k :: 0 <= k < |kids| ==> Stored(g, f, d, kids[k].node, chain[0])
  }

  /** Table and data agree on the clusters `cs`. */
  ghost predicate SameAt(spc: nat, f: seq<nat>, d: seq<Sector>, f': seq<nat>, d': seq<Sector>, cs: set<nat>) {
    && |f'| == |f| && |d'| == |d|
    && (forall c :: c in cs && c < |f| ==> f'[c] == f[c])
    && (forall c :: c in cs && 2 <= c && Base(spc, c) + spc <= |d| ==> Cluster(d', spc, c) == Cluster(d, spc, c))
  }

  lemma ChainSame(spc: nat, f: seq<nat>, d: seq<Sector>, f': seq<nat>, d': seq<Sector>, s: seq<nat>)
    requires SameAt(spc, f, d, f', d', Elems(s)) && InArea(|d|, spc, s)
    ensures s != [] && Chain(f, s) ==> Chain(f', s)
    ensures ChainSectors(d', spc, s) == ChainSectors(d, spc, s)
  {
    assert forall c :: c in s ==> c in Elems(s);
    if s != [] && Chain(f, s) {
      assert forall i :: 0 <= i < |s| ==> s[i] in s;
      ChainFrame(f, f', s);
    }
    forall i | 0 <= i < |s|
      ensures Cluster(d, spc, s[i]) == Cluster(d', spc, s[i])
    {
      assert s[i] in Elems(s);
    }
    ChainSectorsFrame(d, d', spc, s);
  }

  /** A node is stored as before if its own clusters and those below it are what they were. */
  lemma {:induction false} StoredFrame(g: Geometry, f: seq<nat>, d: seq<Sector>, f': seq<nat>, d': seq<Sector>, n: Node,
                                       up: nat)
    requires Stored(g, f, d, n, up) && SameAt(g.sectorsPerCluster, f, d, f', d', Clusters(n))
    ensures Stored(g, f', d', n, up)
    decreases n
  {
    ChainSame(g.sectorsPerCluster, f, d, f', d', n.chain);
    if n.Dir? {
      forall k | 0 <= k < |n.kids|
        ensures Stored(g, f', d', n.kids[k].node, n.chain[0])
      {
        assert Clusters(n.kids[k].node) <= Clusters(n);
        StoredFrame(g, f, d, f', d', n.kids[k].node, n.chain[0]);
      }
    }
  }

  // ---- paths ----

  /** The subdirectory of the given name. */
  predicate IsSub(kids: seq<Kid>, name: Name, k: nat) {
    k < |kids| && kids[k].name == Some(name) && kids[k].node.Dir?
  }

  function SubIndex(kids: seq<Kid>, name: Name): (k: nat)
    ensures k <= |kids|
    ensures k < |kids| ==> IsSub(kids, name, k)
    ensures forall j: nat :: j < k ==> !IsSub(kids, name, j)
  {
    if kids == [] || IsSub(kids, name, 0) then 0 else
      assert forall j: nat :: 0 < j < |kids| ==> IsSub(kids, name, j) == IsSub(kids[1..], name, j - 1);
      1 + SubIndex(kids[1..], name)
  }

  /** The directory that the names of `path` lead to from `n`. */
  function At(n: Node, path: seq<Name>): (t: Option<Node>)
    ensures t.Some? ==> n.Dir? && t.value.Dir?
    decreases |path|
  {
    if n.File? then None
    else if path == [] then Some(n)
    else
      var k := SubIndex(n.kids, path[0]);
      if k == |n.kids| then None else At(n.kids[k].node, path[1..])
  }

  /** `n` with the directory at `path` replaced by `m`. */
  function Put(n: Node, path: seq<Name>, m: Node): (n': Node)
    requires At(n, path).Some?
    ensures path != [] ==> n'.Dir? && n'.chain == n.chain
    decreases |path|
  {
    if path == [] then m
    else
      var k := SubIndex(n.kids, path[0]);
      Dir(n.chain, n.kids[k := Kid(n.kids[k].name, Put(n.kids[k].node, path[1..], m))])
  }

  lemma ReplacedSub(kids: seq<Kid>, k: nat, x: Node, name: Name)
    requires k < |kids| && kids[k].node.Dir? && x.Dir?
    ensures SubIndex(kids[k := Kid(kids[k].name, x)], name) == SubIndex(kids, name)
  {
    var ks := kids[k := Kid(kids[k].name, x)];
    assert forall j: nat :: IsSub(ks, name, j) == IsSub(kids, name, j);
    var a, b := SubIndex(kids, name), SubIndex(ks, name);
    assert a < |kids| ==> IsSub(ks, name, a);
    assert b < |kids| ==> IsSub(kids, name, b);
  }

  /** What was put is found. */
  lemma {:induction false} PutHere(n: Node, path: seq<Name>, m: Node)
    requires At(n, path).Some? && m.Dir?
    ensures At(Put(n, path, m), path) == Some(m)
    decreases |path|
  {
    if path != [] {
      var k := SubIndex(n.kids, path[0]);
      PutHere(n.kids[k].node, path[1..], m);
      ReplacedSub(n.kids, k, Put(n.kids[k].node, path[1..], m), path[0]);
    }
  }

  /** Where the parent of the directory at `path` starts. */
  function UpAt(n: Node, path: seq<Name>, up: nat): nat
    requires At(n, path).Some?
    decreases |path|
  {
    if path == [] then up else UpAt(n.kids[SubIndex(n.kids, path[0])].node, path[1..], FirstOf(n))
  }

  lemma {:induction false} AtStored(g: Geometry, f: seq<nat>, d: seq<Sector>, n: Node, up: nat, path: seq<Name>)
    requires Stored(g, f, d, n, up) && At(n, path).Some?
    ensures Stored(g, f, d, At(n, path).value, UpAt(n, path, up))
    ensures Clusters(At(n, path).value) <= Clusters(n)
    ensures Proper(n) ==> Proper(At(n, path).value)
    decreases |path|
  {
    if path != [] {
      var k := SubIndex(n.kids, path[0]);
      assert Clusters(n.kids[k].node) <= Clusters(n);
      AtStored(g, f, d, n.kids[k].node, n.chain[0], path[1..]);
    }
  }

  /** The new directory brings only clusters that nobody owned. */
  ghost predicate Suits(n: Node, t: Node, m: Node) {
    m.Dir? && m.chain == t.chain && Proper(m) && Clusters(m) - Clusters(t) !! Clusters(n)
  }

  lemma KidReplaced(n: Node, k: nat, x: Node)
    requires n.Dir? && k < |n.kids| && Proper(n)
    requires Proper(x) && Clusters(x) - Clusters(n.kids[k].node) !! Clusters(n)
    ensures var n' := Dir(n.chain, n.kids[k := Kid(n.kids[k].name, x)]);
      Proper(n') && Clusters(n') == Clusters(n) - Clusters(n.kids[k].node) + Clusters(x)
  {
    KidsWithin(n);
    KidReplacedOwns(n, k, x);
    hide Clusters, KidClusters;
  }

  lemma KidsWithin(n: Node)
    requires n.Dir?
    ensures forall j :: 0 <= j < |n.kids| ==> Clusters(n.kids[j].node) <= Clusters(n)
  {
  }

  /** The kid that a cluster below a directory belongs to. */
  lemma OwnerOf(n: Node, c: nat) returns (j: nat)
    requires n.Dir? && c in Clusters(n) && c !in Elems(n.chain)
    ensures j < |n.kids| && c in Clusters(n.kids[j].node)
  {
    j :| j < |n.kids| && c in Clusters(n.kids[j].node);
  }

  lemma OwnChain(n: Node)
    ensures Elems(n.chain) <= Clusters(n)
  {
  }

  lemma ProperKids(n: Node)
    requires n.Dir? && Proper(n)
    ensures forall j, k :: 0 <= j < |n.kids| && 0 <= k < |n.kids| && j != k ==>
      Clusters(n.kids[j].node) !! Clusters(n.kids[k].node)
    ensures forall j :: 0 <= j < |n.kids| ==> Elems(n.chain) !! Clusters(n.kids[j].node)
  {
    hide Clusters;
    assert forall j, k :: 0 <= j < k < |n.kids| ==> Clusters(n.kids[j].node) !! Clusters(n.kids[k].node);
  }

  lemma KidReplacedOwns(n: Node, k: nat, x: Node)
    requires n.Dir? && k < |n.kids| && Proper(n)
    ensures Clusters(Dir(n.chain, n.kids[k := Kid(n.kids[k].name, x)])) ==
            Clusters(n) - Clusters(n.kids[k].node) + Clusters(x)
  {
    var was, kids' := n.kids[k].node, n.kids[k := Kid(n.kids[k].name, x)];
    var n' := Dir(n.chain, kids');
    ProperKids(n);
    KidsWithin(n);
    KidsWithin(n');
    OwnChain(n);
    OwnChain(n');
    hide Clusters, KidClusters, Proper, Elems;
    forall c
      ensures c in Clusters(n') <==> c in Clusters(n) - Clusters(was) + Clusters(x)
    {
      if c in Clusters(n') && c !in Elems(n.chain) {
        var j := OwnerOf(n', c);
        assert j != k ==> c in Clusters(n.kids[j].node);
      }
      if c in Clusters(n) - Clusters(was) && c !in Elems(n.chain) {
        var j := OwnerOf(n, c);
        assert c in Clusters(kids'[j].node);
      }
      if c in Clusters(x) {
        assert c in Clusters(kids'[k].node);
      }
    }
  }

  lemma {:induction false} PutProper(n: Node, path: seq<Name>, m: Node)
    requires Proper(n) && At(n, path).Some? && Suits(n, At(n, path).value, m)
    ensures Proper(Put(n, path, m))
    ensures Clusters(At(n, path).value) <= Clusters(n)
    ensures Clusters(Put(n, path, m)) == Clusters(n) - Clusters(At(n, path).value) + Clusters(m)
    decreases |path|
  {
    if path != [] {
      var k := SubIndex(n.kids, path[0]);
      assert Clusters(n.kids[k].node) <= Clusters(n);
      PutProper(n.kids[k].node, path[1..], m);
      KidReplaced(n, k, Put(n.kids[k].node, path[1..], m));
    }
  }

  /** One kid replaced by a directory that starts at the same place. */
  lemma KidStored(g: Geometry, f: seq<nat>, d: seq<Sector>, n: Node, up: nat, k: nat, x: Node)
    requires n.Dir? && k < |n.kids| && n.kids[k].node.Dir? && n.chain != []
    requires DirStored(g, f, d, n.chain, n.kids, up)
    requires forall j :: 0 <= j < |n.kids| && j != k ==> Stored(g, f, d, n.kids[j].node, n.chain[0])
    requires x.Dir? && x.chain == n.kids[k].node.chain && Stored(g, f, d, x, n.chain[0])
    ensures Stored(g, f, d, Dir(n.chain, n.kids[k := Kid(n.kids[k].name, x)]), up)
  {
    hide Items, Tidy;
    var es := DirSlots(d, g.sectorsPerCluster, n.chain);
    assert Listed(g, es, n.chain[0], n.kids[k := Kid(n.kids[k].name, x)], up);
  }

  /** Replacing one directory: everything outside it is stored as before. */
  lemma {:induction false} PutStored(g: Geometry, f: seq<nat>, d: seq<Sector>, f': seq<nat>, d': seq<Sector>,
                                     n: Node, up: nat, path: seq<Name>, m: Node)
    requires Stored(g, f, d, n, up) && Proper(n) && At(n, path).Some?
    requires m.Dir? && m.chain == At(n, path).value.chain
    requires Stored(g, f', d', m, UpAt(n, path, up))
    requires SameAt(g.sectorsPerCluster, f, d, f', d', Clusters(n) - Clusters(At(n, path).value))
    ensures Stored(g, f', d', Put(n, path, m), up)
    decreases |path|
  {
    hide Listed;
    if path != [] {
      var k := SubIndex(n.kids, path[0]);
      var kid, t := n.kids[k].node, At(n, path).value;
      AtStored(g, f, d, kid, n.chain[0], path[1..]);
      assert Clusters(kid) <= Clusters(n) && Clusters(t) <= Clusters(kid);
      PutStored(g, f, d, f', d', kid, n.chain[0], path[1..], m);
      ChainSame(g.sectorsPerCluster, f, d, f', d', n.chain);
      forall j | 0 <= j < |n.kids| && j != k
        ensures Stored(g, f', d', n.kids[j].node, n.chain[0])
      {
        assert Clusters(n.kids[j].node) <= Clusters(n) - Clusters(t);
        StoredFrame(g, f, d, f', d', n.kids[j].node, n.chain[0]);
      }
      KidStored(g, f', d', n, up, k, Put(kid, path[1..], m));
    }
  }

  // ---- a stored volume ----

  /** The table, the data area and the free count hold the tree `t`. */
  ghost predicate VolumeOk(g: Geometry, f: seq<nat>, d: seq<Sector>, free: nat, t: Node) {
    && |f| > 2 && f[0] >= END_OF_CHAIN
    && free == |Free(f)|
    && t.Dir? && FirstOf(t) == g.rootCluster
    && Proper(t) && Stored(g, f, d, t, 0)
  }

  /** A step that changes what the directory at `path` holds, and touches nothing else. */
  lemma DirChanged(g: Geometry, f: seq<nat>, d: seq<Sector>, free: nat, t: Node,
                   f': seq<nat>, d': seq<Sector>, free': nat, path: seq<Name>, m: Node)
    requires VolumeOk(g, f, d, free, t) && At(t, path).Some? && Suits(t, At(t, path).value, m)
    requires |f'| == |f| && f'[0] >= END_OF_CHAIN && free' == |Free(f')|
    requires SameAt(g.sectorsPerCluster, f, d, f', d', Clusters(t) - Clusters(At(t, path).value))
    requires Stored(g, f', d', m, UpAt(t, path, 0))
    ensures VolumeOk(g, f', d', free', Put(t, path, m))
  {
    PutProper(t, path, m);
    PutStored(g, f, d, f', d', t, 0, path, m);
  }

  lemma SectorSame(spc: nat, f: seq<nat>, d: seq<Sector>, c: nat, o: nat, x: Sector, cs: set<nat>)
    requires c >= 2 && Base(spc, c) + spc <= |d| && o < spc && c !in cs
    ensures SameAt(spc, f, d, f, d[Base(spc, c) + o := x], cs)
  {
    var d' := d[Base(spc, c) + o := x];
    forall c' | c' in cs && 2 <= c' && Base(spc, c') + spc <= |d|
      ensures Cluster(d', spc, c') == Cluster(d, spc, c')
    {
      ClusterUpdate(d, spc, c, o, x, c');
    }
  }

  /** Storing sixteen entries back changes those entries of the directory and no others. */
  lemma DirSlotsUpdate(d: seq<Sector>, spc: nat, s: seq<nat>, q: nat, o: nat, m: nat, es: seq<Entry>)
    requires InArea(|d|, spc, s) && Distinct(s) && q < |s| && o < spc && m == Times(spc, q) + o && |es| == SLOTS
    ensures m < Times(spc, |s|)
    ensures var d' := d[Base(spc, s[q]) + o := Pack(es)];
      forall k :: 0 <= k < SLOTS * Times(spc, |s|) ==>
        DirSlots(d', spc, s)[k] ==
            if SLOTS * m <= k < SLOTS * m + SLOTS then es[k - SLOTS * m] else DirSlots(d, spc, s)[k]
  {
    ChainSectorsUpdate(d, spc, s, q, o, Pack(es));
    SlotsOfPack(es);
    var d' := d[Base(spc, s[q]) + o := Pack(es)];
    AllSlotsUpdate(ChainSectors(d, spc, s), ChainSectors(d', spc, s), m);
  }
}
