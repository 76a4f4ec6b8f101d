/** Path names: following one on the disk, and the working directory's own text
    (src/filesystem/fat.c:1228-1365). */
module Paths {
  import opened Bytes
  import opened Strings
  import opened FatTable
  import opened Chains
  import opened FileData
  import opened Partitions
  import opened Allocation
  import opened LongNames
  import opened Directories
  import opened Trees
  import opened Lookup
  import opened Volumes
  import opened Removal

  const DELIM: seq<byte> := [SLASH]
  const HERE: Name := [46]
  const UP: Name := [46, 46]
  const MAX_DEPTH := 64        // pointers in `tokens`
  const PATH_BUFFER := 512     // bytes in `combined` and in CWDString

  // ---- path names as rows of names ----

  function NormStep(cp: seq<Name>, name: Name): seq<Name> {
    if name == HERE then cp
    else if name == UP then (if cp == [] then [] else cp[..|cp| - 1])
    else cp + [name]
  }

  /** `.` and `..` removed from the text alone. */
  function Norm(cp: seq<Name>, names: seq<Name>): seq<Name>
    decreases |names|
  {
    if names == [] then cp else Norm(NormStep(cp, names[0]), names[1..])
  }

  /** Where one name leads from the directory at `cp` of the tree. */
  function Step(t: Node, cp: seq<Name>, name: Name): Option<seq<Name>> {
    if name == HERE || name == UP || At(t, cp + [name]).Some? then Some(NormStep(cp, name)) else None
  }

  function Resolve(t: Node, cp: seq<Name>, names: seq<Name>): Option<seq<Name>>
    decreases |names|
  {
    if names == [] then Some(cp)
    else
      var next := Step(t, cp, names[0]);
      if next.None? then None else Resolve(t, next.value, names[1..])
  }

  lemma {:induction false} AtSnoc(n: Node, path: seq<Name>, name: Name)
    requires At(n, path).Some?
    ensures At(n, path + [name]) ==
            var m := At(n, path).value; var k := SubIndex(m.kids, name);
            if k == |m.kids| then None else Some(m.kids[k].node)
    decreases |path|
  {
    if path != [] {
      assert (path + [name])[1..] == path[1..] + [name];
      AtSnoc(n.kids[SubIndex(n.kids, path[0])].node, path[1..], name);
    } else {
      assert (path + [name])[1..] == [];
    }
  }

  lemma {:induction false} AtInit(n: Node, path: seq<Name>, up: nat)
    requires path != [] && At(n, path).Some?
    ensures At(n, path[..|path| - 1]).Some?
    ensures UpAt(n, path, up) == FirstOf(At(n, path[..|path| - 1]).value)
    decreases |path|
  {
    if |path| > 1 {
      assert path[..|path| - 1][1..] == path[1..][..|path[1..]| - 1];
      AtInit(n.kids[SubIndex(n.kids, path[0])].node, path[1..], FirstOf(n));
    } else {
      assert path[..|path| - 1] == [] && path[1..] == [];
    }
  }

  /** A step leads to a directory again. */
  lemma StepAt(t: Node, cp: seq<Name>, name: Name)
    requires At(t, cp).Some? && Step(t, cp, name).Some?
    ensures At(t, Step(t, cp, name).value).Some?
  {
    if name == UP && cp != [] {
      AtInit(t, cp, 0);
    }
  }

  /** Following `..` on the disk and removing it from the text agree. */
  lemma {:induction false} ResolveIsNorm(t: Node, cp: seq<Name>, names: seq<Name>)
    requires At(t, cp).Some? && Resolve(t, cp, names).Some?
    ensures Resolve(t, cp, names).value == Norm(cp, names)
    ensures At(t, Norm(cp, names)).Some?
    decreases |names|
  {
    if names != [] {
      StepAt(t, cp, names[0]);
      ResolveIsNorm(t, Step(t, cp, names[0]).value, names[1..]);
    }
  }

  lemma {:induction false} NormJoin(cp: seq<Name>, a: seq<Name>, b: seq<Name>)
    ensures Norm(cp, a + b) == Norm(Norm(cp, a), b)
    decreases |a|
  {
    if a != [] {
      assert (a + b)[1..] == a[1..] + b;
      NormJoin(NormStep(cp, a[0]), a[1..], b);
    } else {
      assert a + b == b;
    }
  }

  /** Names that the text of a normal path is made of. */
  ghost predicate Plain(names: seq<Name>) {
    forall i :: 0 <= i < |names| ==>
      names[i] != HERE && names[i] != UP && names[i] != [] && 0 !in names[i] && SLASH !in names[i]
  }

  lemma {:induction false} NormPlain(cp: seq<Name>, names: seq<Name>)
    requires Plain(names)
    ensures Norm(cp, names) == cp + names
    decreases |names|
  {
    if names != [] {
      NormPlain(cp + [names[0]], names[1..]);
      assert cp + [names[0]] + names[1..] == cp + names;
    }
  }

  /** What strtok yields of a string. */
  ghost predicate Clean(names: seq<Name>) {
    forall i :: 0 <= i < |names| ==> names[i] != [] && 0 !in names[i] && SLASH !in names[i]
  }

  lemma {:induction false} NormIsPlain(cp: seq<Name>, names: seq<Name>)
    requires Plain(cp) && Clean(names)
    ensures Plain(Norm(cp, names))
    decreases |names|
  {
    if names != [] {
      NormIsPlain(NormStep(cp, names[0]), names[1..]);
    }
  }

  // ---- their text ----

  lemma {:induction false} SpanIs(s: seq<byte>, delim: seq<byte>, inside: bool, n: nat)
    requires n <= |s| && (forall k :: 0 <= k < n ==> (s[k] in delim) == inside)
    requires n < |s| ==> (s[n] in delim) != inside
    ensures Span(s, delim, inside) == n
    decreases |s|
  {
    if n > 0 {
      SpanIs(s[1..], delim, inside, n - 1);
    }
  }

  lemma TokensFirst(s: seq<byte>, n: nat)
    requires 0 < n <= |s| && (forall k :: 0 <= k < n ==> s[k] !in DELIM) && (n < |s| ==> s[n] in DELIM)
    ensures Tokens(s, DELIM) == [s[..n]] + Tokens(s[n..], DELIM)
  {
    SpanIs(s, DELIM, false, n);
    SpanIs(s, DELIM, true, 0);
    assert s[0..] == s;
  }

  lemma TokensNone()
    ensures Tokens([], DELIM) == []
  {
  }

  lemma {:induction false} TokensOfTwo(a: seq<byte>, b: seq<byte>)
    ensures Tokens(a + DELIM + b, DELIM) == Tokens(a, DELIM) + Tokens(b, DELIM)
    decreases |a|
  {
    hide Tokens, Span;
    var s := a + DELIM + b;
    if a == [] {
      TokensSkip(s, DELIM);
      TokensNone();
      assert s[1..] == b;
    } else if a[0] in DELIM {
      TokensSkip(s, DELIM);
      TokensSkip(a, DELIM);
      assert s[1..] == a[1..] + DELIM + b;
      TokensOfTwo(a[1..], b);
    } else {
      var n := Span(a, DELIM, false);
      TokensFirst(a, n);
      assert n < |a| ==> s[n] == a[n];
      TokensFirst(s, n);
      assert s[n..] == a[n..] + DELIM + b && s[..n] == a[..n];
      TokensOfTwo(a[n..], b);
    }
  }

  lemma TokensOfOne(w: seq<byte>)
    requires w != [] && SLASH !in w
    ensures Tokens(w, DELIM) == [w]
  {
    hide Tokens;
    TokensFirst(w, |w|);
    TokensNone();
    assert w[|w|..] == [] && w[..|w|] == w;
  }

  /** The text of a normal path: every name with a slash before it, or one slash (fat.c:1354-1363). */
  function Render(names: seq<Name>): seq<byte>
    decreases |names|
  {
    if names == [] then [] else Render(names[..|names| - 1]) + DELIM + names[|names| - 1]
  }

  function PathText(names: seq<Name>): seq<byte> {
    if names == [] then DELIM else Render(names)
  }

  lemma {:induction false} TokensOfRender(names: seq<Name>)
    requires Clean(names)
    ensures Tokens(Render(names), DELIM) == names && 0 !in Render(names)
    decreases |names|
  {
    hide Tokens;
    if names == [] {
      TokensNone();
    } else {
      var n := |names| - 1;
      TokensOfRender(names[..n]);
      TokensOfTwo(Render(names[..n]), names[n]);
      TokensOfOne(names[n]);
      assert names == names[..n] + [names[n]];
    }
  }

  /** The text leads back to the path. */
  lemma TokensOfText(names: seq<Name>)
    requires Clean(names)
    ensures Tokens(PathText(names), DELIM) == names && 0 !in PathText(names)
  {
    TokensOfRender(names);
    if names == [] {
      TokensSkip(DELIM, DELIM);
      assert DELIM[1..] == [];
      TokensNone();
    }
  }

  lemma TokensClean(s: seq<byte>)
    requires 0 !in s
    ensures Clean(Tokens(s, DELIM))
  {
    TokensAreClean(s, DELIM);
  }

  // ---- one step on the disk ----

  /** Below the root, no directory starts where the root does. */
  lemma OnlyRoot(g: Geometry, f: seq<nat>, d: seq<Sector>, free: nat, t: Node, cp: seq<Name>)
    requires VolumeOk(g, f, d, free, t) && At(t, cp).Some?
    ensures FirstOf(At(t, cp).value) == g.rootCluster <==> cp == []
    ensures 2 <= FirstOf(At(t, cp).value) < |f|
  {
    AtStored(g, f, d, t, 0, cp);
    hide Listed;
    if cp != [] {
      var k := SubIndex(t.kids, cp[0]);
      AtStored(g, f, d, t.kids[k].node, t.chain[0], cp[1..]);
      var m := At(t, cp).value;
      assert m.chain[0] in Clusters(m);
      assert t.chain[0] in Elems(t.chain);
    }
  }

  /** The second entry of a directory below the root gives its parent (fat.c:1259-1263). */
  lemma UpEntry(p: Partition, t: Node, cp: seq<Name>)
    requires Holds(p, t) && At(t, cp).Some? && cp != []
    ensures var c := FirstOf(At(t, cp).value);
      && At(t, cp[..|cp| - 1]).Some? && c >= 2 && Base(p.g.sectorsPerCluster, c) < |p.Data()|
      && First(Slots(p.Data()[Base(p.g.sectorsPerCluster, c)])[1]) == FirstOf(At(t, cp[..|cp| - 1]).value)
  {
    hide *;
    HoldsParts(p, t);
    MountedParts(p);
    var n := At(t, cp).value;
    VolumeBasics(p.g, p.Fat(), p.Data(), p.freeClusterCount, t, cp, n);
    AtInit(t, cp, 0);
    OnlyRoot(p.g, p.Fat(), p.Data(), p.freeClusterCount, t, cp[..|cp| - 1]);
    UpIsSecond(p.g, p.Data(), n, UpAt(t, cp, 0));
  }

  lemma UpIsSecond(g: Geometry, d: seq<Sector>, n: Node, up: nat)
    requires n.chain != [] && n.Dir? && InArea(|d|, g.sectorsPerCluster, n.chain) && g.sectorsPerCluster > 0
    requires Listed(g, DirSlots(d, g.sectorsPerCluster, n.chain), n.chain[0], n.kids, up) && up != 0
    ensures FirstOf(n) == n.chain[0] >= 2 && Base(g.sectorsPerCluster, n.chain[0]) < |d|
    ensures First(Slots(d[Base(g.sectorsPerCluster, n.chain[0])])[1]) == up
  {
    var es := DirSlots(d, g.sectorsPerCluster, n.chain);
    SectorSlots(d, g.sectorsPerCluster, n.chain, 0, 0, 0);
    assert es[0..0 + SLOTS][1] == es[1];
  }

  lemma SubEntry(g: Geometry, f: seq<nat>, d: seq<Sector>, free: nat, t: Node, cp: seq<Name>, t0: Node, es: seq<Entry>,
                 at: Place, q: nat, m: nat, j: nat, name: Name)
    requires VolumeOk(g, f, d, free, t) && At(t, cp) == Some(t0)
    requires InArea(|d|, g.sectorsPerCluster, t0.chain) && es == DirSlots(d, g.sectorsPerCluster, t0.chain)
    requires PlaceOk(g.sectorsPerCluster, d, t0.chain, es, at, q, m, j, name, true)
    ensures at.Place? && |at.dirent| == SLOTS && at.index < SLOTS
    ensures At(t, cp + [name]).Some? && First(at.dirent[at.index]) == FirstOf(At(t, cp + [name]).value)
  {
    hide Items, Listed, VolumeOk, PlaceOk, DirSlots, First, FirstOf, At, Chain, Clusters, KidClusters, Size, IsDir;
    VolumeBasics(g, f, d, free, t, cp, t0);
    ListedTidy(g, es, t0.chain[0], t0.kids, UpAt(t, cp, 0));
    PlaceParts(g, d, t0.chain, es, at, q, m, j, name, true);
    FoundMeans(g, es, t0.chain[0], t0.kids, UpAt(t, cp, 0), name, true, j);
    AtSnoc(t, cp, name);
  }

  lemma NoSub(g: Geometry, f: seq<nat>, d: seq<Sector>, free: nat, t: Node, cp: seq<Name>, t0: Node, es: seq<Entry>,
              name: Name)
    requires VolumeOk(g, f, d, free, t) && At(t, cp) == Some(t0)
    requires InArea(|d|, g.sectorsPerCluster, t0.chain) && es == DirSlots(d, g.sectorsPerCluster, t0.chain)
    requires Absent(es, name, true)
    ensures At(t, cp + [name]) == None
  {
    VolumeBasics(g, f, d, free, t, cp, t0);
    AbsentMeans(g, es, t0.chain[0], t0.kids, UpAt(t, cp, 0), name, true);
    hide Items, Listed, VolumeOk, DirSlots, Absent;
    AtSnoc(t, cp, name);
  }

  lemma StepCases(t: Node, cp: seq<Name>, name: Name)
    ensures name == HERE ==> Step(t, cp, name) == Some(cp)
    ensures name == UP ==> Step(t, cp, name) == Some(if cp == [] then [] else cp[..|cp| - 1])
    ensures name != HERE && name != UP ==>
      Step(t, cp, name) == if At(t, cp + [name]).Some? then Some(cp + [name]) else None
  {
  }

  /** The loop for one name (fat.c:1247-1303). Names are unique, so reading on behind a match
      changes nothing. */
  method FollowName(p: Partition, currentDirCluster: nat, nextDirName: Name, ghost t: Node, ghost cp: seq<Name>)
    returns (found: bool, cluster: nat)
    requires Holds(p, t) && At(t, cp).Some? && FirstOf(At(t, cp).value) == currentDirCluster && 0 !in nextDirName
    ensures found <==> Step(t, cp, nextDirName).Some?
    ensures found ==> At(t, Step(t, cp, nextDirName).value).Some?
    ensures found ==> cluster == FirstOf(At(t, Step(t, cp, nextDirName).value).value)
  {
    StepCases(t, cp, nextDirName);
    var here, up := HERE, UP;
    hide *;
    HoldsParts(p, t);
    MountedParts(p);
    ghost var t0 := At(t, cp).value;
    VolumeBasics(p.g, p.Fat(), p.Data(), p.freeClusterCount, t, cp, t0);
    OnlyRoot(p.g, p.Fat(), p.Data(), p.freeClusterCount, t, cp);
    found, cluster := true, currentDirCluster;
    if nextDirName == here {
    } else if nextDirName == up {
      if currentDirCluster != p.g.rootCluster {
        UpEntry(p, t, cp);
        var sector := p.ReadData(Base(p.g.sectorsPerCluster, currentDirCluster));
        cluster := First(SecondSlot(sector));
      }
    } else {
      DirReadable(p, t, cp);
      ghost var es := EntriesOf(p, t0);
      EntriesOfIs(p, t0);
      EntriesReadable(p, t0, es);
      var at;
      ghost var q, m, j;
      at, q, m, j := Locate(p, currentDirCluster, nextDirName, true, t0.chain, es);
      if at.Nowhere? {
        NoSub(p.g, p.Fat(), p.Data(), p.freeClusterCount, t, cp, t0, es, nextDirName);
        found := false;
      } else {
        SubEntry(p.g, p.Fat(), p.Data(), p.freeClusterCount, t, cp, t0, es, at, q, m, j, nextDirName);
        cluster := First(at.dirent[at.index]);
      }
    }
  }

  function SecondSlot(s: Sector): (e: Entry)
    ensures e == Slots(s)[1]
  {
    EntryAt(s, 1)
  }

  lemma EntriesOfIs(p: Partition, n: Node)
    requires p.Mounted() && n.Dir? && InArea(|p.Data()|, p.g.sectorsPerCluster, n.chain)
    ensures HasEntries(p, n, EntriesOf(p, n)) && EntriesOf(p, n) == DirSlots(p.Data(), p.g.sectorsPerCluster, n.chain)
  {
  }

  // ---- a whole path ----

  /** Where a path starts: at the root or at the working directory `cp` (fat.c:1232-1235). */
  function StartOf(path: seq<byte>, cp: seq<Name>): seq<Name> {
    if path != [] && path[0] == SLASH then [] else cp
  }

  /** The directory that a path name means. */
  function Target(t: Node, cp: seq<Name>, path: seq<byte>): Option<seq<Name>> {
    Resolve(t, StartOf(path, cp), Tokens(path, DELIM))
  }

  /** What the shortest paths mean, in bytes: `.`, `..`, `/` and a name. */
  lemma PathsInBytes(t: Node, cp: seq<Name>, name: Name)
    requires name != [] && 47 !in name
    ensures Target(t, cp, [46]) == Some(cp)
    ensures Target(t, cp, [46, 46]) == Some(if cp == [] then [] else cp[..|cp| - 1])
    ensures Target(t, cp, [47]) == Some([])
    ensures name != [46] && name != [46, 46] ==>
      Target(t, cp, name) == if At(t, cp + [name]).Some? then Some(cp + [name]) else None
  {
    OneName(t, cp, [46]);
    OneName(t, cp, [46, 46]);
    OneName(t, cp, name);
    TokensSkip([47], DELIM);
    assert [47][1..] == [];
    TokensNone();
  }

  lemma OneName(t: Node, cp: seq<Name>, name: Name)
    requires name != [] && SLASH !in name
    ensures Target(t, cp, name) == Step(t, cp, name)
  {
    TokensOfOne(name);
    hide Tokens, Step;
    assert [name][0] == name && [name][1..] == [];
    ResolveStep(t, cp, [name]);
    assert forall c :: Resolve(t, c, []) == Some(c);
  }

  /** A slash in front starts at the root, and one in between goes on from where the front led. */
  lemma {:induction false} PathsJoined(t: Node, cp: seq<Name>, a: seq<byte>, b: seq<byte>)
    requires b == [] || b[0] != 47
    ensures Target(t, cp, [47] + b) == Target(t, [], b)
    ensures a != [] ==>
      Target(t, cp, a + [47] + b) == if Target(t, cp, a).Some? then Target(t, Target(t, cp, a).value, b) else None
  {
    TokensSkip([47] + b, DELIM);
    assert ([47] + b)[1..] == b;
    TokensOfTwo(a, b);
    if a != [] {
      ResolveOn(t, StartOf(a, cp), Tokens(a, DELIM), Tokens(b, DELIM));
    }
  }

  lemma {:induction false} ResolveOn(t: Node, cp: seq<Name>, a: seq<Name>, b: seq<Name>)
    ensures Resolve(t, cp, a + b) ==
            if Resolve(t, cp, a).Some? then Resolve(t, Resolve(t, cp, a).value, b) else None
    decreases |a|
  {
    hide Step;
    if a == [] {
      assert a + b == b;
    } else {
      assert (a + b)[1..] == a[1..] + b;
      var next := Step(t, cp, a[0]);
      if next.Some? {
        ResolveOn(t, next.value, a[1..], b);
      }
    }
  }

  /** The text of a path, in bytes. */
  lemma TextInBytes(names: seq<Name>, name: Name)
    ensures PathText([]) == [47]
    ensures PathText(names + [name]) == (if names == [] then [] else PathText(names)) + [47] + name
  {
    var all := names + [name];
    assert all[..|all| - 1] == names && all[|all| - 1] == name;
    assert Render(all) == Render(names) + [47] + name;
    assert [] + [47] == [47];
  }

  lemma ResolveStep(t: Node, cp: seq<Name>, names: seq<Name>)
    ensures names == [] ==> Resolve(t, cp, names) == Some(cp)
    ensures names != [] && Step(t, cp, names[0]).None? ==> Resolve(t, cp, names) == None
    ensures names != [] && Step(t, cp, names[0]).Some? ==>
      Resolve(t, cp, names) == Resolve(t, Step(t, cp, names[0]).value, names[1..])
  {
  }

  lemma NotNoCluster(p: Partition, t: Node, cp: seq<Name>)
    requires Holds(p, t) && At(t, cp).Some?
    ensures FirstOf(At(t, cp).value) < END_OF_CHAIN
  {
    OnlyRoot(p.g, p.Fat(), p.Data(), p.freeClusterCount, t, cp);
  }

  lemma RootAt(p: Partition, t: Node)
    requires Holds(p, t)
    ensures At(t, []) == Some(t) && FirstOf(t) == p.g.rootCluster
  {
  }

  lemma DelimFine()
    ensures 0 !in DELIM && END_OF_CHAIN < NO_CLUSTER
  {
  }

  /** A copy of a string, as malloc and strcpy make it. */
  method CopyOf(s: seq<byte>) returns (a: array<byte>)
    requires 0 in s
    ensures fresh(a) && 0 in a[..] && CStr(a[..]) == CStr(s)
  {
    var n := |CStr(s)|;
    a := new byte[n + 1](i requires 0 <= i < n + 1 => s[i]);
    assert a[..][n] == 0 && a[..][..n] == CStr(s);
    CStrUnique(a[..], n);
  }

  lemma FirstByte(s: seq<byte>)
    requires 0 in s
    ensures s != [] && (s[0] == SLASH <==> CStr(s) != [] && CStr(s)[0] == SLASH)
  {
  }

  lemma StartCases(t: Node, path: seq<byte>, cp: seq<Name>)
    ensures Target(t, cp, path) == Resolve(t, StartOf(path, cp), Tokens(path, DELIM))
    ensures StartOf(path, cp) == if path != [] && path[0] == SLASH then [] else cp
  {
  }

  /** `tok` is the first of the remaining `names`, the cursor stands behind it. */
  ghost predicate TokenAt(tk: Tokenizer, temp: array<byte>, tok: Option<nat>, names: seq<Name>)
    reads tk, tk.text, temp
  {
    && tk.Valid() && tk.text == temp
    && (tok == None <==> names == [])
    && (tok.Some? ==>
          && tok.value < temp.Length && names != [] && CStr(temp[tok.value..]) == names[0]
          && tk.Rest(DELIM) == names[1..])
  }

  method NextToken(tk: Tokenizer, temp: array<byte>, ghost names: seq<Name>) returns (tok: Option<nat>)
    requires tk.Valid() && tk.text == temp && tk.Rest(DELIM) == names
    modifies tk, temp
    ensures TokenAt(tk, temp, tok, names)
  {
    hide Tokens, CStr, OneCut;
    tok := tk.Strtok(DELIM);
  }

  lemma TokenParts(tk: Tokenizer, temp: array<byte>, tok: Option<nat>, names: seq<Name>)
    requires TokenAt(tk, temp, tok, names)
    ensures tok == None <==> names == []
    ensures tok.Some? ==> tok.value < temp.Length && names != [] && CStr(temp[tok.value..]) == names[0]
    ensures tok.Some? ==> tk.Valid() && tk.text == temp && tk.Rest(DELIM) == names[1..]
  {
  }

  /** fat.c:1228-1313; 0xFFFFFFFF stands for a path that leads nowhere. */
  method FindDirFirstCluster(p: Partition, tk: Tokenizer, path: seq<byte>, ghost t: Node, ghost cp: seq<Name>)
    returns (cluster: nat)
    requires Holds(p, t) && At(t, cp).Some? && FirstOf(At(t, cp).value) == p.currentWorkingDir && 0 in path
    modifies tk
    ensures cluster == NO_CLUSTER <==> Target(t, cp, CStr(path)) == None
    ensures cluster != NO_CLUSTER ==> At(t, Target(t, cp, CStr(path)).value).Some?
    ensures cluster != NO_CLUSTER ==> cluster == FirstOf(At(t, Target(t, cp, CStr(path)).value).value)
  {
    var slash := SLASH;
    var none: nat := NO_CLUSTER;
    ghost var target, all := Target(t, cp, CStr(path)), Tokens(CStr(path), DELIM);
    hide *;
    DelimFine();
    FirstByte(path);
    RootAt(p, t);
    ghost var at := StartOf(CStr(path), cp);
    StartCases(t, CStr(path), cp);
    cluster := if path[0] == slash then p.g.rootCluster else p.currentWorkingDir;
    var temp := CopyOf(path);
    tk.Start(temp);
    TokenizerRest(tk);
    ghost var names := all;
    DirAtIs(t, at, cluster);
    var tok := NextToken(tk, temp, names);
    WalkingIs(p, tk, temp, tok, names, t, at, cluster, target);
    while tok.Some?
      invariant Walking(p, tk, temp, tok, names, t, at, cluster, target)
      decreases |names|
    {
      WalkingIs(p, tk, temp, tok, names, t, at, cluster, target);
      TokenParts(tk, temp, tok, names);
      var found;
      found, tok, cluster, at := FollowToken(p, tk, temp, tok, cluster, t, at, names, target);
      if !found {
        return none;
      }
      names := names[1..];
    }
    WalkingIs(p, tk, temp, tok, names, t, at, cluster, target);
    DirAtIs(t, at, cluster);
    TokenParts(tk, temp, tok, names);
    ResolveStep(t, at, names);
    NotNoCluster(p, t, at);
  }

  /** The walk stands at `at`, in the directory that starts at `cluster`, with `names` before it. */
  ghost predicate Walking(p: Partition, tk: Tokenizer, temp: array<byte>, tok: Option<nat>, names: seq<Name>,
                          t: Node, at: seq<Name>, cluster: nat, target: Option<seq<Name>>)
    reads p, p.hd.sectors, tk, tk.text, temp
  {
    Holds(p, t) && DirAt(t, at, cluster) && TokenAt(tk, temp, tok, names) && Resolve(t, at, names) == target
  }

  lemma WalkingIs(p: Partition, tk: Tokenizer, temp: array<byte>, tok: Option<nat>, names: seq<Name>,
                  t: Node, at: seq<Name>, cluster: nat, target: Option<seq<Name>>)
    ensures Walking(p, tk, temp, tok, names, t, at, cluster, target) <==>
            Holds(p, t) && DirAt(t, at, cluster) && TokenAt(tk, temp, tok, names) && Resolve(t, at, names) == target
  {
  }

  /** One name of the path (fat.c:1242-1309). */
  method FollowToken(p: Partition, tk: Tokenizer, temp: array<byte>, tok: Option<nat>, cluster: nat,
                     ghost t: Node, ghost at: seq<Name>, ghost names: seq<Name>, ghost target: Option<seq<Name>>)
    returns (found: bool, tok': Option<nat>, next: nat, ghost at': seq<Name>)
    requires Walking(p, tk, temp, tok, names, t, at, cluster, target) && tok.Some? && names != []
    modifies tk, temp
    ensures !found ==> target == None
    ensures found ==> Walking(p, tk, temp, tok', names[1..], t, at', next, target)
  {
    hide *;
    WalkingIs(p, tk, temp, tok, names, t, at, cluster, target);
    DirAtIs(t, at, cluster);
    TokenParts(tk, temp, tok, names);
    var name := CStr(temp[tok.value..]);
    found, next := FollowName(p, cluster, name, t, at);
    ResolveStep(t, at, names);
    at', tok' := at, tok;
    if found {
      at' := Step(t, at, names[0]).value;
      DirAtIs(t, at', next);
      tok' := NextToken(tk, temp, names[1..]);
      WalkingIs(p, tk, temp, tok', names[1..], t, at', next, target);
    }
  }

  lemma DirAtIs(t: Node, at: seq<Name>, cluster: nat)
    ensures DirAt(t, at, cluster) <==> At(t, at).Some? && FirstOf(At(t, at).value) == cluster
  {
  }

  lemma TokenizerRest(tk: Tokenizer)
    requires tk.Valid()
    ensures tk.Rest(DELIM) == Tokens(tk.Ahead(), DELIM)
  {
  }

  // ---- the working directory's text ----

  /** str.c:18-24 */
  method Strcpy(dest: array<byte>, src: seq<byte>)
    requires 0 in src && |CStr(src)| < dest.Length
    modifies dest
    ensures 0 in dest[..] && CStr(dest[..]) == CStr(src)
  {
    var i := 0;
    ghost var n := |CStr(src)|;
    while src[i] != 0
      invariant i <= n && dest[..i] == src[..i]
      decreases n - i
    {
      dest[i] := src[i];
      i := i + 1;
    }
    dest[i] := 0;
    CStrUnique(src, i);
    assert dest[..][i] == 0 && dest[..][..i] == src[..i];
    CStrUnique(dest[..], i);
  }

  /** The path in `combined` (fat.c:1331-1341). */
  function Combined(cwd: seq<byte>, path: seq<byte>): seq<byte> {
    if path != [] && path[0] == SLASH then path else cwd + DELIM + path
  }

  /** All the way through a path there are pointers enough. */
  ghost predicate DepthOk(names: seq<Name>) {
    forall i :: 0 <= i <= |names| ==> |Norm([], names[..i])| <= MAX_DEPTH
  }

  lemma NormSnoc(names: seq<Name>, i: nat)
    requires i < |names|
    ensures Norm([], names[..i + 1]) == NormStep(Norm([], names[..i]), names[i])
  {
    assert names[..i + 1] == names[..i] + [names[i]];
    NormJoin([], names[..i], [names[i]]);
  }

  /** One name of the path (fat.c:1346-1351). */
  method PlaceName(tokens: array<nat>, depth: nat, start: nat, name: Name, ghost text: seq<byte>, ghost cur: seq<Name>,
                   ghost limit: nat)
    returns (depth': nat)
    requires depth <= tokens.Length && Spelled(text, tokens[..depth], cur, limit)
    requires start + |name| <= limit && start + |name| < |text| && text[start + |name|] == 0
    requires CStr(text[start..]) == name
    requires |NormStep(cur, name)| <= tokens.Length
    modifies tokens
    ensures depth' <= tokens.Length && Spelled(text, tokens[..depth'], NormStep(cur, name), limit)
  {
    hide CStr, Spelled;
    depth' := depth;
    SpelledLength(text, tokens[..depth], cur, limit);
    if name == UP {
      if depth > 0 {
        depth' := depth - 1;
        assert tokens[..depth'] == tokens[..depth][..depth'];
        SpelledPop(text, tokens[..depth], cur, limit);
      }
    } else if name != HERE {
      ghost var before := tokens[..depth];
      SpelledPush(text, before, cur, limit, start, name);
      tokens[depth] := start;
      depth' := depth + 1;
      assert tokens[..depth'] == before + [start];
    }
  }

  lemma SpelledLength(text: seq<byte>, starts: seq<nat>, names: seq<Name>, limit: nat)
    requires Spelled(text, starts, names, limit)
    ensures |starts| == |names|
  {
  }

  lemma SpelledPush(text: seq<byte>, starts: seq<nat>, names: seq<Name>, limit: nat, start: nat, name: Name)
    requires Spelled(text, starts, names, limit)
    requires start + |name| <= limit && start + |name| < |text| && text[start + |name|] == 0
    requires CStr(text[start..]) == name
    ensures |starts| == |names| && Spelled(text, starts + [start], names + [name], limit)
  {
    hide CStr;
  }

  lemma SpelledPop(text: seq<byte>, starts: seq<nat>, names: seq<Name>, limit: nat)
    requires Spelled(text, starts, names, limit)
    ensures |starts| == |names|
    ensures starts != [] ==> Spelled(text, starts[..|starts| - 1], names[..|names| - 1], limit)
  {
    hide CStr;
  }

  /** The token at hand and those on the stack can be read. */
  ghost predicate Tokenizing(tk: Tokenizer, temp: array<byte>, tok: Option<nat>, names: seq<Name>, starts: seq<nat>,
                             cur: seq<Name>)
    reads tk, tk.text, temp
  {
    && TokenAt(tk, temp, tok, names) && Spelled(temp[..], starts, cur, tk.next)
    && (tok.Some? ==>
          && tok.value + |names[0]| <= tk.next && tok.value + |names[0]| < temp.Length
          && temp[tok.value + |names[0]|] == 0)
  }

  /** The next token; those on the stack stay readable. */
  method NextPart(tk: Tokenizer, temp: array<byte>, ghost names: seq<Name>, ghost starts: seq<nat>,
                  ghost cur: seq<Name>)
    returns (tok: Option<nat>)
    requires tk.Valid() && tk.text == temp && tk.Rest(DELIM) == names && Spelled(temp[..], starts, cur, tk.next)
    modifies tk, temp
    ensures Tokenizing(tk, temp, tok, names, starts, cur)
  {
    hide Tokens, CStr;
    ghost var t0, n0 := temp[..], tk.next;
    tok := tk.Strtok(DELIM);
    if tok.Some? {
      CutKeepsTokens(t0, temp[..], n0, tk.next, DELIM, starts, cur);
    }
    SpelledWithin(temp[..], starts, cur, n0, tk.next);
  }

  lemma TokenizingParts(tk: Tokenizer, temp: array<byte>, tok: Option<nat>, names: seq<Name>, starts: seq<nat>,
                        cur: seq<Name>)
    requires Tokenizing(tk, temp, tok, names, starts, cur)
    ensures tok == None <==> names == []
    ensures tok.Some? ==> tk.Valid() && tk.text == temp && names != [] && tk.Rest(DELIM) == names[1..]
    ensures tok.Some? ==>
      && tok.value + |names[0]| <= tk.next && tok.value + |names[0]| < |temp[..]|
      && temp[..][tok.value + |names[0]|] == 0
      && CStr(temp[..][tok.value..]) == names[0]
    ensures Spelled(temp[..], starts, cur, tk.next)
  {
    if tok.Some? {
      assert temp[..][tok.value..] == temp[tok.value..];
    }
  }

  lemma TokensBegin(text: seq<byte>, names: seq<Name>, limit: nat)
    ensures Spelled(text, [], [], limit) && Norm([], names[..0]) == [] && names[0..] == names
  {
  }

  lemma TokensEnd(names: seq<Name>, i: nat)
    requires i <= |names| && names[i..] == []
    ensures names[..i] == names
  {
  }

  lemma TokensOn(names: seq<Name>, i: nat)
    requires i <= |names| && names[i..] != []
    ensures i < |names| && names[i..][0] == names[i] && names[i..][1..] == names[i + 1..]
    ensures Norm([], names[..i + 1]) == NormStep(Norm([], names[..i]), names[i])
    ensures DepthOk(names) ==> |Norm([], names[..i + 1])| <= MAX_DEPTH
  {
    NormSnoc(names, i);
  }

  /** The first loop: names come and go on a stack of pointers (fat.c:1343-1352). */
  method Collect(tk: Tokenizer, combined: array<byte>, tokens: array<nat>) returns (depth: nat)
    requires 0 in combined[..] && DepthOk(Tokens(CStr(combined[..]), DELIM)) && tokens.Length == MAX_DEPTH
    modifies tk, combined, tokens
    ensures depth <= tokens.Length
    ensures exists limit: nat :: Spelled(combined[..], tokens[..depth],
                                         Norm([], Tokens(CStr(old(combined[..])), DELIM)), limit)
  {
    ghost var all := Tokens(CStr(combined[..]), DELIM);
    hide *;
    tk.Start(combined);
    TokenizerRest(tk);
    TokensBegin(combined[..], all, tk.next);
    depth := 0;
    assert tokens[..0] == [];
    ghost var i, cur := 0, Norm([], all[..0]);
    var tok := NextPart(tk, combined, all, tokens[..0], cur);
    while tok.Some?
      invariant depth <= tokens.Length && i <= |all| && cur == Norm([], all[..i])
      invariant Tokenizing(tk, combined, tok, all[i..], tokens[..depth], cur)
      decreases |all| - i
    {
      TokenizingParts(tk, combined, tok, all[i..], tokens[..depth], cur);
      TokensOn(all, i);
      var name := CStr(combined[..][tok.value..]);
      depth := PlaceName(tokens, depth, tok.value, name, combined[..], cur, tk.next);
      i, cur := i + 1, Norm([], all[..i + 1]);
      tok := NextPart(tk, combined, all[i..], tokens[..depth], cur);
    }
    TokenizingParts(tk, combined, tok, all[i..], tokens[..depth], cur);
    TokensEnd(all, i);
  }

  /** The second loop: the names are written out again (fat.c:1354-1363). */
  method WriteOut(combined: array<byte>, tokens: array<nat>, depth: nat, ghost names: seq<Name>, ghost limit: nat)
    returns (text: seq<byte>)
    requires depth <= tokens.Length && Spelled(combined[..], tokens[..depth], names, limit)
    ensures text == PathText(names)
  {
    if depth == 0 {
      return DELIM;
    }
    text := [];
    var i := 0;
    while i < depth
      invariant i <= depth == |names| && text == Render(names[..i])
    {
      assert tokens[..depth][i] == tokens[i];
      assert combined[..][tokens[i]..] == combined[tokens[i]..];
      assert names[..i + 1][..i] == names[..i];
      text := text + DELIM + CStr(combined[tokens[i]..]);
      i := i + 1;
    }
    assert names[..i] == names;
  }

  // ---- changing the working directory ----

  /** The text of the working directory agrees with its cluster: following the text from the root
      leads to that directory. */
  ghost predicate CwdOk(p: Partition, t: Node, cp: seq<Name>)
    reads p
  {
    && At(t, cp).Some? && FirstOf(At(t, cp).value) == p.currentWorkingDir
    && Plain(cp) && p.cwdString == PathText(cp)
  }

  /** Text and cluster agree means: the text, resolved from the root, is the directory. */
  lemma CwdResolves(p: Partition, t: Node, cp: seq<Name>)
    requires CwdOk(p, t, cp)
    ensures Target(t, [], p.cwdString) == Some(cp) && Target(t, cp, p.cwdString) == Some(cp)
  {
    TokensOfText(cp);
    assert [] + cp == cp;
    PlainResolves(t, [], cp);
    TextStarts(cp);
  }

  lemma TextStarts(cp: seq<Name>)
    ensures PathText(cp) != [] && PathText(cp)[0] == SLASH
  {
    if cp != [] {
      RenderStarts(cp);
    }
  }

  lemma {:induction false} RenderStarts(cp: seq<Name>)
    requires cp != []
    ensures Render(cp) != [] && Render(cp)[0] == SLASH
    decreases |cp|
  {
    if |cp| > 1 {
      RenderStarts(cp[..|cp| - 1]);
    } else {
      assert cp[..|cp| - 1] == [];
    }
  }

  lemma {:induction false} PlainResolves(t: Node, at: seq<Name>, names: seq<Name>)
    requires Plain(names) && At(t, at).Some? && At(t, at + names).Some?
    ensures Resolve(t, at, names) == Some(at + names)
    decreases |names|
  {
    if names != [] {
      assert at + names == at + [names[0]] + names[1..];
      PrefixAt(t, at + [names[0]], names[1..]);
      PlainResolves(t, at + [names[0]], names[1..]);
    } else {
      assert at + names == at;
    }
  }

  lemma {:induction false} PrefixAt(t: Node, a: seq<Name>, b: seq<Name>)
    requires At(t, a + b).Some?
    ensures At(t, a).Some?
    decreases |b|
  {
    if b != [] {
      var n := |a + b| - 1;
      AtInit(t, a + b, 0);
      assert (a + b)[..n] == a + b[..|b| - 1];
      PrefixAt(t, a, b[..|b| - 1]);
    } else {
      assert a + b == a;
    }
  }

  /** Cutting the combined text down gives the directory that the disk was asked for. */
  lemma CombinedNorm(t: Node, cp: seq<Name>, path: seq<byte>)
    requires Plain(cp) && At(t, cp).Some? && Target(t, cp, path).Some? && 0 !in path
    ensures Norm([], Tokens(Combined(PathText(cp), path), DELIM)) == Target(t, cp, path).value
    ensures At(t, Target(t, cp, path).value).Some? && Plain(Target(t, cp, path).value)
  {
    var at, names := StartOf(path, cp), Tokens(path, DELIM);
    ResolveIsNorm(t, at, names);
    TokensClean(path);
    NormIsPlain(at, names);
    if at == cp && Combined(PathText(cp), path) != path {
      TokensOfTwo(PathText(cp), path);
      TokensOfText(cp);
      NormPlain([], cp);
      assert [] + cp == cp;
      NormJoin([], cp, names);
    }
  }

  /** What the caller has to see to: that the combined path and its names fit their buffers. */
  ghost predicate PathFits(cwd: seq<byte>, path: seq<byte>) {
    |Combined(cwd, path)| < PATH_BUFFER && DepthOk(Tokens(Combined(cwd, path), DELIM))
  }

  /** fat.c:1331-1341 */
  method Combine(cwd: seq<byte>, path: seq<byte>) returns (combined: array<byte>)
    requires 0 in path && 0 !in cwd && |Combined(cwd, CStr(path))| < PATH_BUFFER
    ensures fresh(combined) && 0 in combined[..] && CStr(combined[..]) == Combined(cwd, CStr(path))
  {
    combined := new byte[PATH_BUFFER](i => 0);
    FirstByte(path);
    if path[0] == SLASH {
      Strcpy(combined, path);
    } else {
      CStrTerminated(cwd, []);
      assert cwd + [0] + [] == cwd + [0];
      CStrTerminated(DELIM, []);
      assert DELIM + [0] + [] == DELIM + [0];
      var merged := Concat(cwd + [0], DELIM + [0]);
      Strcpy(combined, merged);
      merged := Concat(combined[..], path);
      Strcpy(combined, merged);
    }
  }

  /** The working directory's new text (fat.c:1327-1363). */
  method NormalText(tk: Tokenizer, cwd: seq<byte>, path: seq<byte>) returns (text: seq<byte>)
    requires 0 in path && 0 !in cwd && PathFits(cwd, CStr(path))
    modifies tk
    ensures text == PathText(Norm([], Tokens(Combined(cwd, CStr(path)), DELIM)))
  {
    hide Tokens, CStr, PathText, DepthOk, Norm, Combined, Spelled;
    var combined := Combine(cwd, path);
    ghost var names := Norm([], Tokens(Combined(cwd, CStr(path)), DELIM));
    var tokens := new nat[MAX_DEPTH](i => 0);
    var depth := Collect(tk, combined, tokens);
    ghost var limit: nat :| Spelled(combined[..], tokens[..depth], names, limit);
    text := WriteOut(combined, tokens, depth, names, limit);
  }

  lemma CwdParts(p: Partition, t: Node, cp: seq<Name>)
    requires CwdOk(p, t, cp)
    ensures At(t, cp).Some? && FirstOf(At(t, cp).value) == p.currentWorkingDir
    ensures Plain(cp) && p.cwdString == PathText(cp) && 0 !in p.cwdString
  {
    TokensOfText(cp);
  }

  lemma CwdNow(p: Partition, t: Node, cp: seq<Name>)
    requires At(t, cp).Some? && FirstOf(At(t, cp).value) == p.currentWorkingDir
    requires Plain(cp) && p.cwdString == PathText(cp)
    ensures CwdOk(p, t, cp)
  {
  }

  lemma StringClean(path: seq<byte>)
    requires 0 in path
    ensures 0 !in CStr(path)
  {
  }

  /** fat.c:1319-1365. A path that leads nowhere changes nothing; any other moves the working
      directory there, and its new text is the normal form of where it is. */
  method ChangeCurrentWorkingDir(p: Partition, tk: Tokenizer, path: seq<byte>, ghost t: Node, ghost cp: seq<Name>)
    returns (ok: bool, ghost cp': seq<Name>)
    requires Holds(p, t) && CwdOk(p, t, cp) && 0 in path
    requires Target(t, cp, CStr(path)).Some? ==> PathFits(p.cwdString, CStr(path))
    modifies p`currentWorkingDir, p`cwdString, tk
    ensures ok <==> Target(t, cp, CStr(path)).Some?
    ensures !ok ==> p.currentWorkingDir == old(p.currentWorkingDir) && p.cwdString == old(p.cwdString) && cp' == cp
    ensures ok ==> Some(cp') == Target(t, cp, CStr(path))
    ensures Holds(p, t) && CwdOk(p, t, cp')
  {
    var none: nat := NO_CLUSTER;
    hide *;
    CwdParts(p, t, cp);
    HoldsParts(p, t);
    cp' := cp;
    var dirCluster := FindDirFirstCluster(p, tk, path, t, cp);
    CwdNow(p, t, cp);
    if dirCluster == none {
      return false, cp';
    }
    cp' := Target(t, cp, CStr(path)).value;
    StringClean(path);
    CombinedNorm(t, cp, CStr(path));
    p.currentWorkingDir := dirCluster;
    var text := NormalText(tk, p.cwdString, path);
    p.cwdString := text;
    ok := true;
    CwdNow(p, t, cp');
    HoldsNow(p, t);
  }
}
