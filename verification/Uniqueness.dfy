/** The disk determines the tree: what is stored can be read in one way only. */
module Uniqueness {
  import opened Bytes
  import opened FatTable
  import opened Chains
  import opened FileData
  import opened LongNames
  import opened Directories
  import opened Trees

  /** Two lists of kids that a lookup by name cannot tell apart. */
  ghost predicate Alike(kids: seq<Kid>, kids': seq<Kid>) {
    |kids| == |kids'| &&
    forall k :: 0 <= k < |kids| ==>
      && kids[k].name == kids'[k].name && (kids[k].node.Dir? <==> kids'[k].node.Dir?)
      && FirstOf(kids[k].node) == FirstOf(kids'[k].node)
      && (kids[k].node.File? && kids'[k].node.File? ==> |kids[k].node.bytes| == |kids'[k].node.bytes|)
  }

  lemma ListedAlike(g: Geometry, es: seq<Entry>, first: nat, kids: seq<Kid>, up: nat, kids': seq<Kid>, up': nat)
    requires Listed(g, es, first, kids, up) && Listed(g, es, first, kids', up')
    ensures Alike(kids, kids')
  {
    hide Tidy, Items;
    var xs := Items(es, 0, 0);
    forall k | 0 <= k < |kids|
      ensures kids[k].name == kids'[k].name && (kids[k].node.Dir? <==> kids'[k].node.Dir?)
      ensures FirstOf(kids[k].node) == FirstOf(kids'[k].node)
      ensures kids[k].node.File? && kids'[k].node.File? ==> |kids[k].node.bytes| == |kids'[k].node.bytes|
    {
      assert Describes(es[xs[k].at], xs[k], kids[k]) && Describes(es[xs[k].at], xs[k], kids'[k]);
    }
  }

  lemma AlikeSub(kids: seq<Kid>, kids': seq<Kid>, name: Name)
    requires Alike(kids, kids')
    ensures SubIndex(kids, name) == SubIndex(kids', name)
  {
    var a, b := SubIndex(kids, name), SubIndex(kids', name);
    assert forall k: nat :: IsSub(kids, name, k) == IsSub(kids', name, k);
    assert a < |kids| ==> IsSub(kids', name, a);
    assert b < |kids| ==> IsSub(kids, name, b);
  }

  lemma DirStoredParts(g: Geometry, f: seq<nat>, d: seq<Sector>, n: Node, up: nat)
    requires n.Dir? && Stored(g, f, d, n, up)
    ensures Chain(f, n.chain) && n.chain != [] && FirstOf(n) == n.chain[0] && InArea(|d|, g.sectorsPerCluster, n.chain)
    ensures Listed(g, DirSlots(d, g.sectorsPerCluster, n.chain), n.chain[0], n.kids, up)
    ensures forall k :: 0 <= k < |n.kids| ==> Stored(g, f, d, n.kids[k].node, n.chain[0])
  {
    hide Listed;
  }

  /** Two directories with the same first cluster have the same chain and look alike. */
  lemma DirUnique(g: Geometry, f: seq<nat>, d: seq<Sector>, n: Node, up: nat, n': Node, up': nat)
    requires n.Dir? && n'.Dir? && FirstOf(n) == FirstOf(n')
    requires Stored(g, f, d, n, up) && Stored(g, f, d, n', up')
    ensures n.chain == n'.chain && Alike(n.kids, n'.kids)
  {
    DirStoredParts(g, f, d, n, up);
    DirStoredParts(g, f, d, n', up');
    WalkUnique(f, n.chain, n'.chain);
    hide Stored, Listed, DirSlots;
    ListedAlike(g, DirSlots(d, g.sectorsPerCluster, n.chain), n.chain[0], n.kids, up, n'.kids, up');
  }

  lemma SameFile(g: Geometry, f: seq<nat>, d: seq<Sector>, n: Node, up: nat, n': Node, up': nat)
    requires n.File? && n'.File? && FirstOf(n) == FirstOf(n') && |n.bytes| == |n'.bytes|
    requires Stored(g, f, d, n, up) && Stored(g, f, d, n', up')
    ensures n == n'
  {
    if n.chain != [] && n'.chain != [] {
      WalkUnique(f, n.chain, n'.chain);
    }
  }

  /** A disk stores at most one tree. */
  lemma {:induction false} TreeUnique(g: Geometry, f: seq<nat>, d: seq<Sector>, n: Node, up: nat, n': Node, up': nat)
    requires Stored(g, f, d, n, up) && Stored(g, f, d, n', up')
    requires FirstOf(n) == FirstOf(n') && (n.Dir? <==> n'.Dir?) && (n.File? && n'.File? ==> |n.bytes| == |n'.bytes|)
    ensures n == n'
    decreases n
  {
    if n.File? {
      SameFile(g, f, d, n, up, n', up');
    } else {
      DirUnique(g, f, d, n, up, n', up');
      DirStoredParts(g, f, d, n, up);
      DirStoredParts(g, f, d, n', up');
      hide Stored, Listed;
      forall k | 0 <= k < |n.kids|
        ensures n.kids[k] == n'.kids[k]
      {
        TreeUnique(g, f, d, n.kids[k].node, n.chain[0], n'.kids[k].node, n'.chain[0]);
        assert n.kids[k] == Kid(n.kids[k].name, n.kids[k].node);
      }
      assert n.kids == n'.kids;
    }
  }

  lemma VolumeUnique(g: Geometry, f: seq<nat>, d: seq<Sector>, free: nat, t: Node, free': nat, t': Node)
    requires VolumeOk(g, f, d, free, t) && VolumeOk(g, f, d, free', t')
    ensures t == t' && free == free'
  {
    hide Stored;
    TreeUnique(g, f, d, t, 0, t', 0);
  }

  /** Whatever tree a changed disk stores, the directories above an unchanged way are found again. */
  lemma {:induction false} SameWay(g: Geometry, f: seq<nat>, d: seq<Sector>, n: Node, up: nat,
                                   f': seq<nat>, d': seq<Sector>, n': Node, up': nat, path: seq<Name>)
    requires Stored(g, f, d, n, up) && Proper(n) && Stored(g, f', d', n', up')
    requires n.Dir? && n'.Dir? && FirstOf(n) == FirstOf(n') && At(n, path).Some?
    requires SameAt(g.sectorsPerCluster, f, d, f', d', Clusters(n) - Clusters(At(n, path).value))
    ensures At(n', path).Some? && FirstOf(At(n', path).value) == FirstOf(At(n, path).value)
    decreases |path|
  {
    if path != [] {
      var k := SubIndex(n.kids, path[0]);
      var kid, t := n.kids[k].node, At(n, path).value;
      AtStored(g, f, d, kid, n.chain[0], path[1..]);
      OtherChainApart(n, k);
      assert Clusters(t) <= Clusters(kid);
      DirsAlike(g, f, d, n, up, f', d', n', up', Clusters(n) - Clusters(t));
      AlikeSub(n.kids, n'.kids, path[0]);
      SameWay(g, f, d, kid, n.chain[0], f', d', n'.kids[k].node, n'.chain[0], path[1..]);
    }
  }

  lemma OtherChainApart(n: Node, k: nat)
    requires n.Dir? && k < |n.kids| && Proper(n)
    ensures Elems(n.chain) !! Clusters(n.kids[k].node) && Clusters(n.kids[k].node) <= Clusters(n)
    ensures Elems(n.chain) <= Clusters(n)
    ensures Proper(n.kids[k].node)
  {
  }

  lemma DirsAlike(g: Geometry, f: seq<nat>, d: seq<Sector>, n: Node, up: nat, f': seq<nat>, d': seq<Sector>, n': Node,
                  up': nat, cs: set<nat>)
    requires Stored(g, f, d, n, up) && Stored(g, f', d', n', up') && n.Dir? && n'.Dir? && FirstOf(n) == FirstOf(n')
    requires SameAt(g.sectorsPerCluster, f, d, f', d', cs) && Elems(n.chain) <= cs
    ensures n'.chain == n.chain && Alike(n.kids, n'.kids)
  {
    DirStoredParts(g, f, d, n, up);
    DirStoredParts(g, f', d', n', up');
    hide Stored, Listed;
    assert SameAt(g.sectorsPerCluster, f, d, f', d', Elems(n.chain));
    ChainSame(g.sectorsPerCluster, f, d, f', d', n.chain);
    WalkUnique(f', n.chain, n'.chain);
    ListedAlike(g, DirSlots(d, g.sectorsPerCluster, n.chain), n.chain[0], n.kids, up, n'.kids, up');
  }

  /** The entry of a file without bytes gives no cluster. */
  lemma NoDanglingEntry(g: Geometry, f: seq<nat>, d: seq<Sector>, n: Node, up: nat, es: seq<Entry>, j: nat)
    requires n.Dir? && Stored(g, f, d, n, up) && InArea(|d|, g.sectorsPerCluster, n.chain)
    requires es == DirSlots(d, g.sectorsPerCluster, n.chain) && j < |Items(es, 0, 0)| && Items(es, 0, 0)[j].at < |es|
    ensures var e := es[Items(es, 0, 0)[j].at]; !IsDir(e) && Size(e) == 0 ==> First(e) == 0
  {
    DirStoredParts(g, f, d, n, up);
    var x := n.kids[j].node;
    assert Describes(es[Items(es, 0, 0)[j].at], Items(es, 0, 0)[j], n.kids[j]);
    hide Items, Tidy, Contents;
    assert Stored(g, f, d, x, n.chain[0]);
  }
}
