/** The tree as a map from full names to what is there, and what each operation does to that map. */
module Views {
  import opened Bytes
  import opened Directories
  import opened Trees
  import opened Volumes
  import opened Rewriting

  datatype What = Folder | Bytes(bytes: seq<byte>)

  /** The first kid of a name, the one that the lookup loops find. */
  function KidIndex(kids: seq<Kid>, name: Name): (k: nat)
    ensures k <= |kids| && (k < |kids| ==> kids[k].name == Some(name))
    ensures forall j: nat :: j < k ==> kids[j].name != Some(name)
  {
    if kids == [] || kids[0].name == Some(name) then 0 else
      assert forall j: nat :: 0 < j < |kids| ==> kids[j] == kids[1..][j - 1];
      1 + KidIndex(kids[1..], name)
  }

  /** What the names of `q` lead to from `n`: None, a directory, or a file with its bytes. */
  function View(n: Node, q: seq<Name>): Option<What>
    decreases |q|
  {
    if q == [] then Some(if n.Dir? then Folder else Bytes(n.bytes))
    else if n.File? then None
    else
      var k := KidIndex(n.kids, q[0]);
      if k == |n.kids| then None else View(n.kids[k].node, q[1..])
  }

  lemma KidIndexIs(kids: seq<Kid>, name: Name, k: nat)
    requires UniqueNames(kids) && k < |kids| && kids[k].name == Some(name)
    ensures KidIndex(kids, name) == k
  {
  }

  lemma NoKid(kids: seq<Kid>, name: Name)
    ensures KidIndex(kids, name) == |kids| <==> !HasName(kids, name)
  {
  }

  /** A subdirectory is the kid of its name. */
  lemma SubIsKid(n: Node, name: Name)
    requires n.Dir? && Proper(n) && SubIndex(n.kids, name) < |n.kids|
    ensures KidIndex(n.kids, name) == SubIndex(n.kids, name)
  {
    KidIndexIs(n.kids, name, SubIndex(n.kids, name));
  }

  lemma KidProper(n: Node, k: nat)
    requires n.Dir? && Proper(n) && k < |n.kids|
    ensures Proper(n.kids[k].node) && UniqueNames(n.kids)
  {
  }

  /** A directory is where the view says there is one. */
  lemma {:induction false} AtIsFolder(n: Node, path: seq<Name>)
    requires Proper(n) && n.Dir?
    ensures At(n, path).Some? <==> View(n, path) == Some(Folder)
    decreases |path|
  {
    if path != [] {
      var k, i := SubIndex(n.kids, path[0]), KidIndex(n.kids, path[0]);
      if k < |n.kids| {
        SubIsKid(n, path[0]);
        KidProper(n, k);
        AtIsFolder(n.kids[k].node, path[1..]);
      } else if i < |n.kids| {
        assert !IsSub(n.kids, path[0], i);
      }
    }
  }

  lemma ReplacedIndex(kids: seq<Kid>, k: nat, x: Node, name: Name)
    requires k < |kids|
    ensures KidIndex(kids[k := Kid(kids[k].name, x)], name) == KidIndex(kids, name)
  {
    var ks := kids[k := Kid(kids[k].name, x)];
    assert forall j: nat :: j < |kids| ==> ks[j].name == kids[j].name;
    var a, b := KidIndex(kids, name), KidIndex(ks, name);
    assert a < |kids| ==> ks[a].name == Some(name);
    assert b < |kids| ==> kids[b].name == Some(name);
  }

  /** Replacing the directory at `path` changes what is found below `path`, and nothing else. */
  lemma {:induction false} PutView(n: Node, path: seq<Name>, m: Node, q: seq<Name>)
    requires Proper(n) && At(n, path).Some? && m.Dir?
    ensures View(Put(n, path, m), q) == if path <= q then View(m, q[|path|..]) else View(n, q)
    decreases |path|
  {
    if path != [] && q != [] {
      var k, x := SubIndex(n.kids, path[0]), Put(n.kids[SubIndex(n.kids, path[0])].node, path[1..], m);
      SubIsKid(n, path[0]);
      KidProper(n, k);
      ReplacedIndex(n.kids, k, x, q[0]);
      PutView(n.kids[k].node, path[1..], m, q[1..]);
      var i := KidIndex(n.kids, q[0]);
      if i == k {
        assert path[0] == q[0] && (path <= q <==> path[1..] <= q[1..]);
        assert path <= q ==> q[1..][|path[1..]|..] == q[|path|..];
      } else {
        assert !(path <= q);
      }
    }
  }

  lemma AtView(n: Node, path: seq<Name>, q: seq<Name>)
    requires Proper(n) && At(n, path).Some? && path <= q
    ensures View(n, q) == View(At(n, path).value, q[|path|..])
    decreases |path|
  {
    if path != [] {
      var k := SubIndex(n.kids, path[0]);
      SubIsKid(n, path[0]);
      KidProper(n, k);
      AtView(n.kids[k].node, path[1..], q[1..]);
      assert q[1..][|path[1..]|..] == q[|path|..];
    }
  }

  /** Two directories that differ in one name only. */
  ghost predicate SameButFor(t0: Node, m: Node, name: Name) {
    t0.Dir? && m.Dir? &&
    forall y, r :: y != name ==> View(m, [y] + r) == View(t0, [y] + r)
  }

  lemma LongerPrefix(path: seq<Name>, name: Name, q: seq<Name>)
    ensures path + [name] <= q ==> path <= q
  {
    if path + [name] <= q {
      assert path == (path + [name])[..|path|];
    }
  }

  /** What that means for the whole tree. */
  lemma DirView(t: Node, path: seq<Name>, t0: Node, m: Node, name: Name, q: seq<Name>)
    requires Proper(t) && At(t, path) == Some(t0) && SameButFor(t0, m, name)
    ensures View(Put(t, path, m), q) == if path + [name] <= q then View(m, q[|path|..]) else View(t, q)
  {
    PutView(t, path, m, q);
    if path <= q {
      AtView(t, path, q);
      var r := q[|path|..];
      assert q == path + r;
      if r == [] {
        assert !(path + [name] <= q);
      } else {
        assert r == [r[0]] + r[1..];
        assert path + [name] <= q <==> r[0] == name;
      }
    } else {
      LongerPrefix(path, name, q);
    }
  }

  lemma ViewStep(n: Node, y: Name, r: seq<Name>)
    requires n.Dir?
    ensures View(n, [y] + r) ==
            var k := KidIndex(n.kids, y); if k == |n.kids| then None else View(n.kids[k].node, r)
  {
    assert ([y] + r)[1..] == r;
  }

  lemma InsertIndex(kids: seq<Kid>, j: nat, kid: Kid, y: Name)
    requires j <= |kids| && UniqueNames(kids) && (kid.name.Some? ==> !HasName(kids, kid.name.value))
    ensures var ks, k := Insert(kids, j, kid), KidIndex(Insert(kids, j, kid), y);
      && (kid.name == Some(y) ==> k == j < |ks| && ks[k] == kid)
      && (kid.name != Some(y) ==>
            var i := KidIndex(kids, y);
            if i == |kids| then k == |ks| else k < |ks| && i < |kids| && ks[k] == kids[i])
  {
    var ks := Insert(kids, j, kid);
    InsertUnique(kids, j, kid);
    InsertAt(kids, j, kid, j);
    if kid.name == Some(y) {
      KidIndexIs(ks, y, j);
    } else {
      var i, k := KidIndex(kids, y), KidIndex(ks, y);
      if i < |kids| {
        InsertAt(kids, j, kid, if i < j then i else i + 1);
        KidIndexIs(ks, y, if i < j then i else i + 1);
      } else if k < |ks| {
        InsertAt(kids, j, kid, k);
      }
    }
  }

  /** Creating (fat.c:335-428, 544-644): the new name leads to what was created, all others to
      what they led to before. */
  lemma CreateView(t: Node, path: seq<Name>, t0: Node, j: nat, name: Name, x: Node, q: seq<Name>)
    requires Proper(t) && At(t, path) == Some(t0) && t0.Dir? && Proper(t0) && j <= |t0.kids| && !HasName(t0.kids, name)
    requires x == File(x.chain, []) || x == Dir(x.chain, [])
    ensures View(t, path + [name]) == None
    ensures View(Put(t, path, Dir(t0.chain, Insert(t0.kids, j, Kid(Some(name), x)))), q) ==
            if q == path + [name] then Some(if x.Dir? then Folder else Bytes([])) else View(t, q)
  {
    hide View, At, Put, KidIndex, Insert, Proper, HasName;
    var m := Dir(t0.chain, Insert(t0.kids, j, Kid(Some(name), x)));
    ProperNames(t0);
    forall y, r | y != name
      ensures View(m, [y] + r) == View(t0, [y] + r)
    {
      InsertIndex(t0.kids, j, Kid(Some(name), x), y);
      ViewStep(m, y, r);
      ViewStep(t0, y, r);
    }
    DirView(t, path, t0, m, name, q);
    NoKid(t0.kids, name);
    NoViewBelow(t, path, t0, name, []);
    assert path + [name] + [] == path + [name];
    if path + [name] <= q {
      var r := q[|path| + 1..];
      assert q == path + [name] + r && q[|path|..] == [name] + r;
      InsertIndex(t0.kids, j, Kid(Some(name), x), name);
      ViewStep(m, name, r);
      NoViewBelow(t, path, t0, name, r);
      EmptyView(x, r);
    }
  }

  lemma ProperNames(n: Node)
    requires n.Dir? && Proper(n)
    ensures UniqueNames(n.kids)
  {
  }

  lemma EmptyView(x: Node, r: seq<Name>)
    requires x == File(x.chain, []) || x == Dir(x.chain, [])
    ensures View(x, r) == if r != [] then None else Some(if x.Dir? then Folder else Bytes([]))
  {
  }

  lemma NoViewBelow(t: Node, path: seq<Name>, t0: Node, name: Name, r: seq<Name>)
    requires Proper(t) && At(t, path) == Some(t0) && t0.Dir? && KidIndex(t0.kids, name) == |t0.kids|
    ensures View(t, path + [name] + r) == None
  {
    var q := path + [name] + r;
    AtView(t, path, q);
    assert q[|path|..] == [name] + r;
    ViewStep(t0, name, r);
  }

  lemma RemoveNames(kids: seq<Kid>, j: nat)
    requires j < |kids| && UniqueNames(kids)
    ensures UniqueNames(Remove(kids, j))
  {
    var ks := Remove(kids, j);
    forall a, b | 0 <= a < b < |ks| && ks[a].name.Some?
      ensures ks[a].name != ks[b].name
    {
      RemoveAt(kids, j, a);
      RemoveAt(kids, j, b);
    }
  }

  lemma OtherIndex(kids: seq<Kid>, j: nat, y: Name)
    requires j < |kids| && kids[j].name != Some(y)
    ensures KidIndex(kids, y) != j
  {
  }

  lemma RemoveIndex(kids: seq<Kid>, j: nat, y: Name)
    requires j < |kids| && UniqueNames(kids)
    ensures var ks, k, i := Remove(kids, j), KidIndex(Remove(kids, j), y), KidIndex(kids, y);
      if i == |kids| || i == j then k == |ks| else k < |ks| && i < |kids| && ks[k] == kids[i]
  {
    var ks := Remove(kids, j);
    var i, k := KidIndex(kids, y), KidIndex(ks, y);
    if i < |kids| && i != j {
      var l := if i < j then i else i - 1;
      RemoveAt(kids, j, l);
      RemoveNames(kids, j);
      KidIndexIs(ks, y, l);
    } else {
      forall l | 0 <= l < |ks|
        ensures ks[l].name != Some(y)
      {
        RemoveAt(kids, j, l);
      }
    }
  }

  /** Deleting (fat.c:435-497, 695-761): the name and everything below it are gone, all other names
      lead to what they led to before. */
  lemma DeleteView(t: Node, path: seq<Name>, t0: Node, j: nat, name: Name, q: seq<Name>)
    requires Proper(t) && At(t, path) == Some(t0) && t0.Dir? && Proper(t0) && j < |t0.kids|
    requires t0.kids[j].name == Some(name)
    ensures View(Put(t, path, Dir(t0.chain, Remove(t0.kids, j))), q) == if path + [name] <= q then None else View(t, q)
  {
    hide View, At, Put, KidIndex, Remove, Proper, HasName, UniqueNames;
    var m := Dir(t0.chain, Remove(t0.kids, j));
    ProperNames(t0);
    KidIndexIs(t0.kids, name, j);
    forall y, r | y != name
      ensures View(m, [y] + r) == View(t0, [y] + r)
    {
      RemoveIndex(t0.kids, j, y);
      OtherIndex(t0.kids, j, y);
      ViewStep(m, y, r);
      ViewStep(t0, y, r);
    }
    DirView(t, path, t0, m, name, q);
    if path + [name] <= q {
      var r := q[|path| + 1..];
      assert q == path + [name] + r && q[|path|..] == [name] + r;
      RemoveIndex(t0.kids, j, name);
      ViewStep(m, name, r);
    }
  }

  /** Writing (fat.c:771-1017): that one file gets the bytes; no other file or directory changes. */
  lemma WriteView(t: Node, path: seq<Name>, t0: Node, j: nat, name: Name, s: seq<nat>, bytes: seq<byte>, q: seq<Name>)
    requires Proper(t) && At(t, path) == Some(t0) && t0.Dir? && Proper(t0)
    requires j < |t0.kids| && t0.kids[j].name == Some(name) && t0.kids[j].node.File?
    ensures View(t, path + [name]) == Some(Bytes(t0.kids[j].node.bytes))
    ensures View(WithFile(t, path, t0, j, s, bytes), q) == if q == path + [name] then Some(Bytes(bytes)) else View(t, q)
  {
    var x := File(s, bytes);
    var m := Dir(t0.chain, t0.kids[j := Kid(t0.kids[j].name, x)]);
    KidIndexIs(t0.kids, name, j);
    forall y, r | y != name
      ensures View(m, [y] + r) == View(t0, [y] + r)
    {
      ReplacedIndex(t0.kids, j, x, y);
      ViewStep(m, y, r);
      ViewStep(t0, y, r);
    }
    DirView(t, path, t0, m, name, q);
    FileView(t, path, t0, j, name, []);
    assert path + [name] + [] == path + [name];
    if path + [name] <= q {
      var r := q[|path| + 1..];
      assert q == path + [name] + r && q[|path|..] == [name] + r;
      ReplacedIndex(t0.kids, j, x, name);
      ViewStep(m, name, r);
      FileView(t, path, t0, j, name, r);
    }
  }

  lemma FileView(t: Node, path: seq<Name>, t0: Node, j: nat, name: Name, r: seq<Name>)
    requires Proper(t) && At(t, path) == Some(t0) && t0.Dir? && j < |t0.kids| && t0.kids[j].node.File?
    requires KidIndex(t0.kids, name) == j
    ensures View(t, path + [name] + r) == if r == [] then Some(Bytes(t0.kids[j].node.bytes)) else None
  {
    var q := path + [name] + r;
    AtView(t, path, q);
    assert q[|path|..] == [name] + r;
    ViewStep(t0, name, r);
  }

  // ---- where directories start ----

  /** Both lead to a directory, and it starts at the same cluster, or neither does. */
  ghost predicate SameDir(a: Option<Node>, b: Option<Node>) {
    (a.Some? <==> b.Some?) && (a.Some? ==> FirstOf(a.value) == FirstOf(b.value))
  }

  lemma AtStep(n: Node, y: Name, r: seq<Name>)
    requires n.Dir? && UniqueNames(n.kids)
    ensures At(n, [y] + r) ==
            var k := KidIndex(n.kids, y); if k == |n.kids| then None else At(n.kids[k].node, r)
  {
    assert ([y] + r)[1..] == r;
    var i, k := SubIndex(n.kids, y), KidIndex(n.kids, y);
    if i < |n.kids| {
      KidIndexIs(n.kids, y, i);
    } else if k < |n.kids| {
      assert !IsSub(n.kids, y, k);
    }
  }

  lemma {:induction false} AtBelow(n: Node, path: seq<Name>, q: seq<Name>)
    requires At(n, path).Some? && path <= q
    ensures At(n, q) == At(At(n, path).value, q[|path|..])
    decreases |path|
  {
    if path != [] {
      AtBelow(n.kids[SubIndex(n.kids, path[0])].node, path[1..], q[1..]);
      assert q[1..][|path[1..]|..] == q[|path|..];
    }
  }

  lemma {:induction false} PutAt(n: Node, path: seq<Name>, m: Node, q: seq<Name>)
    requires At(n, path).Some? && m.Dir? && FirstOf(m) == FirstOf(At(n, path).value)
    ensures path <= q ==> At(Put(n, path, m), q) == At(m, q[|path|..])
    ensures !(path <= q) ==> SameDir(At(Put(n, path, m), q), At(n, q))
    decreases |path|
  {
    if path != [] && q != [] {
      var k := SubIndex(n.kids, path[0]);
      var x := Put(n.kids[k].node, path[1..], m);
      PutAt(n.kids[k].node, path[1..], m, q[1..]);
      ReplacedSub(n.kids, k, x, q[0]);
      if q[0] == path[0] {
        assert path <= q <==> path[1..] <= q[1..];
        assert path <= q ==> q[1..][|path[1..]|..] == q[|path|..];
      } else {
        assert !(path <= q);
      }
    }
  }

  /** Two directories with the same subdirectories, but for one name. */
  ghost predicate SameDirsBut(t0: Node, m: Node, name: Name) {
    t0.Dir? && m.Dir? && m.chain == t0.chain &&
    forall y, r :: y != name ==> At(m, [y] + r) == At(t0, [y] + r)
  }

  lemma DirKept(t: Node, path: seq<Name>, t0: Node, m: Node, name: Name, q: seq<Name>)
    requires At(t, path) == Some(t0) && SameDirsBut(t0, m, name) && !(path + [name] <= q)
    ensures SameDir(At(Put(t, path, m), q), At(t, q))
  {
    PutAt(t, path, m, q);
    if path <= q {
      AtBelow(t, path, q);
      var r := q[|path|..];
      assert q == path + r;
      if r != [] {
        assert r == [r[0]] + r[1..];
      }
    }
  }

  /** Creating moves no directory. */
  lemma CreateKeepsDirs(t: Node, path: seq<Name>, t0: Node, j: nat, name: Name, x: Node, q: seq<Name>)
    requires Proper(t) && At(t, path) == Some(t0) && t0.Dir? && Proper(t0) && j <= |t0.kids| && !HasName(t0.kids, name)
    requires At(t, q).Some?
    ensures SameDir(At(Put(t, path, Dir(t0.chain, Insert(t0.kids, j, Kid(Some(name), x)))), q), At(t, q))
  {
    hide At, Put, KidIndex, Insert, Proper, HasName, SameDir, UniqueNames;
    var kid := Kid(Some(name), x);
    var m := Dir(t0.chain, Insert(t0.kids, j, kid));
    ProperNames(t0);
    InsertNames(t0.kids, j, kid);
    forall y, r | y != name
      ensures At(m, [y] + r) == At(t0, [y] + r)
    {
      InsertIndex(t0.kids, j, kid, y);
      AtStep(m, y, r);
      AtStep(t0, y, r);
    }
    if path + [name] <= q {
      LongerPrefix(path, name, q);
      AtBelow(t, path, q);
      AtStep(t0, name, q[|path| + 1..]);
      assert q[|path|..] == [name] + q[|path| + 1..];
      NoKid(t0.kids, name);
    } else {
      DirKept(t, path, t0, m, name, q);
    }
  }

  lemma InsertNames(kids: seq<Kid>, j: nat, kid: Kid)
    requires j <= |kids| && UniqueNames(kids) && (kid.name.Some? ==> !HasName(kids, kid.name.value))
    ensures UniqueNames(Insert(kids, j, kid))
  {
    InsertUnique(kids, j, kid);
  }

  /** Deleting takes the directories at and below the name, and moves no other. */
  lemma DeleteKeepsDirs(t: Node, path: seq<Name>, t0: Node, j: nat, name: Name, q: seq<Name>)
    requires Proper(t) && At(t, path) == Some(t0) && t0.Dir? && Proper(t0) && j < |t0.kids|
    requires t0.kids[j].name == Some(name)
    ensures var t' := Put(t, path, Dir(t0.chain, Remove(t0.kids, j)));
      if path + [name] <= q then At(t', q) == None else SameDir(At(t', q), At(t, q))
  {
    hide At, Put, KidIndex, Remove, Proper, HasName, SameDir, UniqueNames;
    var m := Dir(t0.chain, Remove(t0.kids, j));
    ProperNames(t0);
    RemoveNames(t0.kids, j);
    KidIndexIs(t0.kids, name, j);
    forall y, r | y != name
      ensures At(m, [y] + r) == At(t0, [y] + r)
    {
      RemoveIndex(t0.kids, j, y);
      OtherIndex(t0.kids, j, y);
      AtStep(m, y, r);
      AtStep(t0, y, r);
    }
    if path + [name] <= q {
      LongerPrefix(path, name, q);
      PutAt(t, path, m, q);
      RemoveIndex(t0.kids, j, name);
      AtStep(m, name, q[|path| + 1..]);
      assert q[|path|..] == [name] + q[|path| + 1..];
    } else {
      DirKept(t, path, t0, m, name, q);
    }
  }

  /** Writing moves no directory. */
  lemma WriteKeepsDirs(t: Node, path: seq<Name>, t0: Node, j: nat, s: seq<nat>, bytes: seq<byte>, q: seq<Name>)
    requires At(t, path) == Some(t0) && t0.Dir? && UniqueNames(t0.kids) && j < |t0.kids| && t0.kids[j].node.File?
    ensures SameDir(At(WithFile(t, path, t0, j, s, bytes), q), At(t, q))
  {
    hide At, Put, KidIndex, SameDir;
    var x := File(s, bytes);
    var m := Dir(t0.chain, t0.kids[j := Kid(t0.kids[j].name, x)]);
    assert UniqueNames(m.kids);
    forall y, r
      ensures At(m, [y] + r) == At(t0, [y] + r)
    {
      ReplacedIndex(t0.kids, j, x, y);
      AtStep(m, y, r);
      AtStep(t0, y, r);
      FileHasNoDirs(x, r);
      FileHasNoDirs(t0.kids[j].node, r);
    }
    DirKeptAll(t, path, t0, m, q);
  }

  lemma FileHasNoDirs(x: Node, r: seq<Name>)
    requires x.File?
    ensures At(x, r) == None
  {
  }

  lemma DirKeptAll(t: Node, path: seq<Name>, t0: Node, m: Node, q: seq<Name>)
    requires At(t, path) == Some(t0) && t0.Dir? && m.Dir? && m.chain == t0.chain
    requires forall y, r :: At(m, [y] + r) == At(t0, [y] + r)
    ensures SameDir(At(Put(t, path, m), q), At(t, q))
  {
    PutAt(t, path, m, q);
    if path <= q {
      AtBelow(t, path, q);
      var r := q[|path|..];
      if r != [] {
        assert r == [r[0]] + r[1..];
      }
    }
  }
}
