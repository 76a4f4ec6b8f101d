/** Whether every cluster is owned or free. Nothing in the file system needs this, and the operations
    keep it, with one exception. */
module Leaks {
  import opened Bytes
  import opened FatTable
  import opened Chains
  import opened Directories
  import opened Trees
  import opened Volumes
  import opened Removal
  import opened Rechaining
  import opened Rewriting

  /** No cluster is lost: each belongs to a file or a directory, or is free. */
  ghost predicate NoLeaks(f: seq<nat>, t: Node) {
    forall c :: 2 <= c < |f| ==> c in Clusters(t) || c in Free(f)
  }

  /** What a directory's change does to what the tree owns. */
  lemma PutOwns(t: Node, path: seq<Name>, t0: Node, m: Node)
    requires Proper(t) && At(t, path) == Some(t0) && m.Dir? && m.chain == t0.chain && Proper(m)
    requires Clusters(m) - Clusters(t0) !! Clusters(t)
    ensures Clusters(Put(t, path, m)) == Clusters(t) - Clusters(t0) + Clusters(m) && Clusters(t0) <= Clusters(t)
  {
    PutProper(t, path, m);
  }

  lemma DirProper(g: Geometry, f: seq<nat>, d: seq<Sector>, free: nat, t: Node, path: seq<Name>, t0: Node)
    requires VolumeOk(g, f, d, free, t) && At(t, path) == Some(t0)
    ensures Proper(t) && t0.Dir? && Proper(t0) && Clusters(t0) <= Clusters(t) && Clusters(t) !! Free(f)
    ensures forall c :: c in Clusters(t) ==> 2 <= c < |f|
    ensures forall c :: c in Free(f) <==> 2 <= c < |f| && f[c] == 0
  {
    AtStored(g, f, d, t, 0, path);
    OwnedNotFree(g, f, d, t, 0);
  }

  /** Creating: what the new entry owns was free. */
  lemma CreatedNoLeaks(g: Geometry, f: seq<nat>, d: seq<Sector>, free: nat, t: Node, path: seq<Name>, t0: Node, j: nat,
                       kid: Kid, f': seq<nat>)
    requires VolumeOk(g, f, d, free, t) && At(t, path) == Some(t0) && t0.Dir? && j <= |t0.kids| && NoLeaks(f, t)
    requires kid.name.Some? ==> !HasName(t0.kids, kid.name.value)
    requires Proper(kid.node) && Clusters(kid.node) <= Free(f) && |f'| == |f|
    requires Free(f') == Free(f) - Clusters(kid.node)
    ensures NoLeaks(f', Put(t, path, Dir(t0.chain, Insert(t0.kids, j, kid))))
  {
    DirProper(g, f, d, free, t, path, t0);
    hide VolumeOk, Proper, Clusters, Free, At, Insert, HasName, Put;
    InsertProper(t0.chain, t0.kids, j, kid);
    InsertClusters(t0.chain, t0.kids, j, kid);
    PutOwns(t, path, t0, Dir(t0.chain, Insert(t0.kids, j, kid)));
  }

  /** Deleting: nothing is lost exactly if everything that the entry owned is released. */
  lemma RemovedNoLeaksIff(g: Geometry, f: seq<nat>, d: seq<Sector>, free: nat, t: Node, path: seq<Name>, t0: Node,
                          j: nat, rs: set<nat>)
    requires VolumeOk(g, f, d, free, t) && At(t, path) == Some(t0) && t0.Dir? && j < |t0.kids| && NoLeaks(f, t)
    requires rs <= Clusters(t0.kids[j].node)
    ensures NoLeaks(Released(f, rs), Put(t, path, Dir(t0.chain, Remove(t0.kids, j)))) <==>
      rs == Clusters(t0.kids[j].node)
  {
    hide *;
    DirProper(g, f, d, free, t, path, t0);
    var x, m := t0.kids[j].node, Dir(t0.chain, Remove(t0.kids, j));
    KidClustersIn(t0, j);
    RemoveProper(t0, j);
    RemoveClusters(t0, j);
    PutOwns(t, path, t0, m);
    ReleasedFree(f, rs);
    Balance(Clusters(t), Clusters(t0), Clusters(x), Free(f), rs);
    LeaksAre(f, t, Released(f, rs), Put(t, path, m), Clusters(x) - rs);
  }

  /** The clusters that are neither owned nor free any more. */
  lemma LeaksAre(f: seq<nat>, t: Node, f': seq<nat>, t': Node, lost: set<nat>)
    requires NoLeaks(f, t) && |f'| == |f| && Clusters(t') + Free(f') == Clusters(t) + Free(f) - lost
    requires lost <= Clusters(t) && forall c :: c in Clusters(t) ==> 2 <= c < |f|
    ensures NoLeaks(f', t') <==> lost == {}
  {
    hide Clusters, Free;
    if c :| c in lost {
      assert c !in Clusters(t') + Free(f');
    } else {
      forall c | 2 <= c < |f'|
        ensures c in Clusters(t') || c in Free(f')
      {
        assert c in Clusters(t) + Free(f);
        assert c in Clusters(t') + Free(f');
      }
    }
  }

  lemma Balance(all: set<nat>, dir: set<nat>, x: set<nat>, free: set<nat>, rs: set<nat>)
    requires rs <= x <= dir <= all && all !! free
    ensures (all - dir + (dir - x)) + (free + rs) == all + free - (x - rs)
    ensures x - rs == {} <==> rs == x
  {
    if x - rs == {} {
      assert forall c :: c in x ==> c !in x - rs;
      assert rs == x;
    }
  }

  /** Writing: what the file gives up is free, and what it gets was. */
  lemma WrittenNoLeaks(g: Geometry, f: seq<nat>, d: seq<Sector>, free: nat, t: Node, path: seq<Name>, t0: Node, j: nat,
                       f': seq<nat>, s': seq<nat>, n: nat, bytes: seq<byte>)
    requires VolumeOk(g, f, d, free, t) && At(t, path) == Some(t0) && t0.Dir? && j < |t0.kids| && t0.kids[j].node.File?
    requires NoLeaks(f, t)
    requires Rechained(f, t0.kids[j].node.chain, f', s', n)
    ensures NoLeaks(f', WithFile(t, path, t0, j, s', bytes))
  {
    DirProper(g, f, d, free, t, path, t0);
    var x, x' := t0.kids[j].node, File(s', bytes);
    RechainedParts(f, x.chain, f', s', n);
    NewClusters(f, x.chain, f', s', n);
    FileOwns(x);
    FileOwns(x');
    KidClustersIn(t0, j);
    ClustersOf(t0);
    if s' != [] {
      WalkDistinct(f', s');
    }
    FileProper(x');
    hide VolumeOk, Proper, Clusters, KidClusters, Free, At, Put, Rechained, Chain, Elems, Distinct;
    KidReplaced(t0, j, x');
    PutOwns(t, path, t0, Dir(t0.chain, t0.kids[j := Kid(t0.kids[j].name, x')]));
    WithFileIs(t, path, t0, j, s', bytes);
  }

  lemma FileOwns(x: Node)
    requires x.File?
    ensures Clusters(x) == Elems(x.chain)
  {
  }

  lemma FileProper(x: Node)
    requires x.File? && Distinct(x.chain)
    ensures Proper(x)
  {
  }
}
