/** The operations that take path names (src/filesystem/fat.c:1380-1498), said in terms of what the
    names of the file system lead to, one by one and in any order. */
module Commands {
  import opened Bytes
  import opened Strings
  import opened FatTable
  import opened Chains
  import opened FileData
  import opened Partitions
  import opened Allocation
  import opened LongNames
  import opened Directories
  import opened Trees
  import opened Volumes
  import opened FullVolume
  import opened SlotScan
  import opened Creation
  import opened MakeDir
  import opened Removal
  import opened Rechaining
  import opened Rewriting
  import opened Leaks
  import opened Views
  import opened Paths

  /** The partition stores `t`, and its working directory is the one at `cp`, by cluster and by text. */
  ghost predicate Ready(p: Partition, t: Node, cp: seq<Name>)
    reads p, p.hd.sectors
  {
    Holds(p, t) && CwdOk(p, t, cp)
  }

  datatype Answer =
    | InvalidPath
    | NotFound
    | Exists
    | NoRoom        // the names are as they were (but see FullVolume)
    | Damaged       // no file system is left: the free count is wrong from now on
    | Done

  lemma ReadyParts(p: Partition, t: Node, cp: seq<Name>)
    requires Ready(p, t, cp)
    ensures Holds(p, t) && CwdOk(p, t, cp) && At(t, cp).Some? && FirstOf(At(t, cp).value) == p.currentWorkingDir
    ensures p.Mounted()
    ensures Plain(cp) && p.cwdString == PathText(cp)
  {
  }

  /** The working directory is still where it was. */
  lemma StillReady(p: Partition, t: Node, t': Node, cp: seq<Name>)
    requires Holds(p, t') && At(t, cp).Some? && SameDir(At(t', cp), At(t, cp))
    requires FirstOf(At(t, cp).value) == p.currentWorkingDir && Plain(cp) && p.cwdString == PathText(cp)
    ensures Ready(p, t', cp)
  {
  }

  lemma NameInView(p: Partition, t: Node, dir: seq<Name>, name: Name)
    requires Holds(p, t) && At(t, dir).Some?
    ensures Proper(t) && Proper(At(t, dir).value) && At(t, dir).value.Dir?
    ensures HasName(At(t, dir).value.kids, name) <==> View(t, dir + [name]) != None
  {
    DirReadable(p, t, dir);
    var t0 := At(t, dir).value;
    AtView(t, dir, dir + [name]);
    assert (dir + [name])[|dir|..] == [name] + [];
    ViewStep(t0, name, []);
    NoKid(t0.kids, name);
  }

  /** The entries of a directory, as the data area `d` has them. */
  ghost function EntriesIn(g: Geometry, d: seq<Sector>, n: Node): seq<Entry> {
    if InArea(|d|, g.sectorsPerCluster, n.chain) then DirSlots(d, g.sectorsPerCluster, n.chain) else []
  }

  lemma Entries(p: Partition, t: Node, dir: seq<Name>) returns (t0: Node, es: seq<Entry>)
    requires Holds(p, t) && At(t, dir).Some?
    ensures At(t, dir) == Some(t0) && t0.Dir? && p.Mounted() && HasEntries(p, t0, es)
    ensures es == EntriesIn(p.g, p.Data(), t0)
  {
    t0 := At(t, dir).value;
    DirReadable(p, t, dir);
    es := EntriesOf(p, t0);
  }

  /** The directory named by `path`, and whether `name` is in it: how every command begins. */
  method Find(p: Partition, tk: Tokenizer, path: seq<byte>, name: Name, ghost t: Node, ghost cp: seq<Name>)
    returns (cluster: nat, answer: Answer, ghost dir: seq<Name>)
    requires Ready(p, t, cp) && 0 in path && 0 !in name
    modifies tk
    ensures answer.InvalidPath? <==> Target(t, cp, CStr(path)) == None
    ensures answer.NotFound? || answer.Exists? || answer.InvalidPath?
    ensures !answer.InvalidPath? ==> Target(t, cp, CStr(path)) == Some(dir) && At(t, dir).Some?
    ensures !answer.InvalidPath? ==> FirstOf(At(t, dir).value) == cluster
    ensures !answer.InvalidPath? ==> (answer.Exists? <==> View(t, dir + [name]) != None)
    ensures !answer.InvalidPath? ==> At(t, dir).value.Dir? && (answer.Exists? <==> HasName(At(t, dir).value.kids, name))
  {
    var none: nat := NO_CLUSTER;
    hide *;
    ReadyParts(p, t, cp);
    cluster := FindDirFirstCluster(p, tk, path, t, cp);
    if cluster == none {
      dir := [];
      return cluster, InvalidPath, dir;
    }
    dir := Target(t, cp, CStr(path)).value;
    NameInView(p, t, dir, name);
    ghost var t0, es := Entries(p, t, dir);
    var found := IsFileInDir(p, cluster, name, t, dir, t0, es);
    answer := if found then Exists else NotFound;
  }

  // ---- reading ----

  /** What reading a file prints; of a directory it prints nothing. */
  ghost predicate ReadOut(t: Node, cp: seq<Name>, path: seq<byte>, name: Name, a: Answer, out: seq<byte>) {
    match Target(t, cp, path)
    case None => a == InvalidPath && out == []
    case Some(dir) =>
      match View(t, dir + [name])
      case None => a == NotFound && out == []
      case Some(what) => a == Done && out == if what.Bytes? then what.bytes else []
  }

  /** fat.c:1380-1395 */
  method ReadFileAt(p: Partition, tk: Tokenizer, path: seq<byte>, name: Name, ghost t: Node, ghost cp: seq<Name>)
    returns (answer: Answer, out: seq<byte>)
    requires Ready(p, t, cp) && 0 in path && 0 !in name
    modifies tk
    ensures ReadOut(t, cp, CStr(path), name, answer, out)
  {
    hide *;
    out := [];
    var cluster;
    ghost var dir;
    cluster, answer, dir := Find(p, tk, path, name, t, cp);
    if answer.Exists? {
      ReadyParts(p, t, cp);
      ghost var t0, es := Entries(p, t, dir);
      var bytes;
      ghost var j;
      bytes, j := ReadFile(p, cluster, name, t, dir, t0, es);
      KidView(p, t, dir, t0, j, name);
      out := bytes.value;
      answer := Done;
    }
    ReadOutNow(t, cp, CStr(path), name, answer, out, dir);
  }

  lemma ReadOutNow(t: Node, cp: seq<Name>, path: seq<byte>, name: Name, a: Answer, out: seq<byte>, dir: seq<Name>)
    requires a.InvalidPath? || a.NotFound? || a.Done?
    requires a.InvalidPath? <==> Target(t, cp, path) == None
    requires !a.InvalidPath? ==> Target(t, cp, path) == Some(dir) && (a.NotFound? <==> View(t, dir + [name]) == None)
    requires !a.Done? ==> out == []
    requires a.Done? ==>
      View(t, dir + [name]) == Some(Bytes(out)) || (View(t, dir + [name]) == Some(Folder) && out == [])
    ensures ReadOut(t, cp, path, name, a, out)
  {
  }

  lemma KidView(p: Partition, t: Node, dir: seq<Name>, t0: Node, j: nat, name: Name)
    requires Holds(p, t) && At(t, dir) == Some(t0) && t0.Dir? && j < |t0.kids| && t0.kids[j].name == Some(name)
    ensures View(t, dir + [name]) == Some(if t0.kids[j].node.File? then Bytes(t0.kids[j].node.bytes) else Folder)
  {
    NameInView(p, t, dir, name);
    AtView(t, dir, dir + [name]);
    assert (dir + [name])[|dir|..] == [name] + [];
    ViewStep(t0, name, []);
    KidIndexIs(t0.kids, name, j);
  }

  // ---- creating ----

  /** From `t` to `t'`, what `at` leads to has become `what`, and nothing else has changed. */
  ghost predicate OneChange(t: Node, t': Node, at: seq<Name>, what: Option<What>) {
    forall q :: View(t', q) == if q == at then what else View(t, q)
  }

  /** What creating does: unless the path leads nowhere, the name exists or there is no `room`, the
      new name leads to `what` and every other name to what it led to before, provided that the scan
      found the `right` place. Without a `cluster` for a directory the volume is damaged. */
  ghost predicate MadeAt(t: Node, cp: seq<Name>, path: seq<byte>, name: Name, what: What, room: bool, cluster: bool,
                         right: bool, a: Answer, t': Node) {
    match Target(t, cp, path)
    case None => a == InvalidPath && t' == t
    case Some(dir) =>
      if View(t, dir + [name]) != None then a == Exists && t' == t
      else if !room then a == NoRoom && t' == t
      else if !cluster then a == Damaged
      else a == Done && (right ==> OneChange(t, t', dir + [name], Some(what)))
  }

  /** The scan finds a sector of the directory for the new entries (SlotScan.PickSlot). */
  ghost predicate HasRoom(g: Geometry, d: seq<Sector>, t: Node, cp: seq<Name>, path: seq<byte>, name: Name) {
    match Target(t, cp, path)
    case None => false
    case Some(dir) => At(t, dir).Some? && PickSlot(EntriesIn(g, d, At(t, dir).value), PartCount(name), 0).Some?
  }

  /** If the name is new, the place that the scan finds for it, if it finds one, is right. */
  ghost predicate LandsRight(g: Geometry, d: seq<Sector>, t: Node, cp: seq<Name>, path: seq<byte>, name: Name) {
    match Target(t, cp, path)
    case None => true
    case Some(dir) =>
      At(t, dir).Some? ==>
        HasName(At(t, dir).value.kids, name) || CreationOk(g, EntriesIn(g, d, At(t, dir).value), PartCount(name))
  }

  /** The run of the new entry goes where something else is, or behind an end mark ... */
  ghost predicate Misplaced(g: Geometry, d: seq<Sector>, t: Node, cp: seq<Name>, path: seq<byte>, name: Name) {
    match Target(t, cp, path)
    case None => false
    case Some(dir) => At(t, dir).Some? && !FreeForRun(EntriesIn(g, d, At(t, dir).value), name)
  }

  /** ... and then readers of the directory do not see one item more. */
  ghost predicate Unseen(g: Geometry, d: seq<Sector>, d': seq<Sector>, t: Node, cp: seq<Name>, path: seq<byte>,
                         name: Name) {
    match Target(t, cp, path)
    case None => false
    case Some(dir) =>
      At(t, dir).Some? && WentWrong(g, d', At(t, dir).value.chain, EntriesIn(g, d, At(t, dir).value), name)
  }

  /** What a caller has to see to in the directory named by `path`. */
  ghost predicate Creatable(g: Geometry, d: seq<Sector>, t: Node, cp: seq<Name>, path: seq<byte>, name: Name,
                            stack: seq<word>, sfn: seq<byte>) {
    match Target(t, cp, path)
    case None => true
    case Some(dir) =>
      At(t, dir).Some? ==>
        || HasName(At(t, dir).value.kids, name)
        || CanTry(g, EntriesIn(g, d, At(t, dir).value), At(t, dir).value.kids, name, stack, sfn)
  }

  lemma CreatableHere(g: Geometry, d: seq<Sector>, t: Node, cp: seq<Name>, path: seq<byte>, name: Name,
                      stack: seq<word>, sfn: seq<byte>, dir: seq<Name>, t0: Node, es: seq<Entry>)
    requires Creatable(g, d, t, cp, path, name, stack, sfn) && Target(t, cp, path) == Some(dir)
    requires At(t, dir) == Some(t0) && es == EntriesIn(g, d, t0) && t0.Dir? && !HasName(t0.kids, name)
    ensures CanTry(g, es, t0.kids, name, stack, sfn)
    ensures HasRoom(g, d, t, cp, path, name) <==> PickSlot(es, PartCount(name), 0).Some?
    ensures LandsRight(g, d, t, cp, path, name) <==> CreationOk(g, es, PartCount(name))
    ensures Misplaced(g, d, t, cp, path, name) <==> !FreeForRun(es, name)
    ensures forall d' :: Unseen(g, d, d', t, cp, path, name) <==> WentWrong(g, d', t0.chain, es, name)
  {
    hide CanTry, PickSlot, CreationOk, FreeForRun, WentWrong, EntriesIn;
  }

  /** The bytes of a new file's entry (Creation.EntryMade) in the directory named by `path`. */
  ghost predicate FileMadeAt(g: Geometry, d: seq<Sector>, d': seq<Sector>, t: Node, cp: seq<Name>, path: seq<byte>,
                             name: Name, stack: seq<word>, checksum: byte, sfn: seq<byte>) {
    match Target(t, cp, path)
    case None => false
    case Some(dir) =>
      && At(t, dir).Some?
      && EntryMade(g, d', At(t, dir).value.chain, EntriesIn(g, d, At(t, dir).value), name, stack, checksum, sfn, 0, 0)
  }

  /** The same for a new directory, in the first free cluster of the table `f`, whose bytes
      (MakeDir.NewDirData) are there as well. */
  ghost predicate FolderMadeAt(g: Geometry, f: seq<nat>, d: seq<Sector>, d': seq<Sector>, t: Node, cp: seq<Name>,
                               path: seq<byte>, name: Name, stack: seq<word>, checksum: byte, sfn: seq<byte>) {
    match Target(t, cp, path)
    case None => false
    case Some(dir) =>
      && At(t, dir).Some?
      && exists c: nat :: FirstFree(f, [c]) && FolderMade(g, d, d', At(t, dir).value, name, stack, checksum, sfn, c)
  }

  ghost predicate FolderMade(g: Geometry, d: seq<Sector>, d': seq<Sector>, t0: Node, name: Name, stack: seq<word>,
                             checksum: byte, sfn: seq<byte>, c: nat) {
    && EntryMade(g, d', t0.chain, EntriesIn(g, d, t0), name, stack, checksum, sfn, 0x10, c)
    && NewDirData(g, d', c, FirstOf(t0))
  }

  lemma FileMadeNow(g: Geometry, d: seq<Sector>, d': seq<Sector>, t: Node, cp: seq<Name>, path: seq<byte>, name: Name,
                    stack: seq<word>, checksum: byte, sfn: seq<byte>, dir: seq<Name>, t0: Node)
    requires Target(t, cp, path) == Some(dir) && At(t, dir) == Some(t0)
    requires EntryMade(g, d', t0.chain, EntriesIn(g, d, t0), name, stack, checksum, sfn, 0, 0)
    ensures FileMadeAt(g, d, d', t, cp, path, name, stack, checksum, sfn)
  {
    hide EntryMade, EntriesIn;
  }

  lemma FolderMadeNow(p: Partition, f: seq<nat>, d: seq<Sector>, t: Node, cp: seq<Name>, path: seq<byte>, name: Name,
                      stack: seq<word>, checksum: byte, sfn: seq<byte>, dir: seq<Name>, t0: Node,
                      es: seq<Entry>, c: nat)
    requires p.Mounted() && Target(t, cp, path) == Some(dir) && At(t, dir) == Some(t0) && es == EntriesIn(p.g, d, t0)
    requires FirstFree(f, [c]) && FolderBytes(p, t0, es, name, stack, checksum, sfn, c)
    ensures FolderMadeAt(p.g, f, d, p.Data(), t, cp, path, name, stack, checksum, sfn)
  {
    hide EntryMade, EntriesIn, NewDirData, FirstFree, FirstOf;
    assert FolderMade(p.g, d, p.Data(), t0, name, stack, checksum, sfn, c);
  }

  lemma CreatedNow(t: Node, cp: seq<Name>, path: seq<byte>, name: Name, what: What, room: bool, cluster: bool,
                   right: bool, a: Answer, t': Node, dir: seq<Name>)
    requires a.InvalidPath? || a.Exists? || a.NoRoom? || a.Damaged? || a.Done?
    requires a.InvalidPath? <==> Target(t, cp, path) == None
    requires !a.InvalidPath? ==> Target(t, cp, path) == Some(dir) && (a.Exists? <==> View(t, dir + [name]) != None)
    requires a.NoRoom? || a.Damaged? || a.Done? ==> (a.NoRoom? <==> !room) && (!a.NoRoom? ==> (a.Done? <==> cluster))
    requires a.Done? && right ==> OneChange(t, t', dir + [name], Some(what))
    requires !a.Done? && !a.Damaged? ==> t' == t
    ensures MadeAt(t, cp, path, name, what, room, cluster, right, a, t')
  {
  }

  /** The tree with one kid more shows one name more, and no directory has moved. */
  lemma CreatedView(p: Partition, t: Node, dir: seq<Name>, t0: Node, j: nat, name: Name, x: Node, t': Node,
                    cp: seq<Name>)
    requires Proper(t) && At(t, dir) == Some(t0) && t0.Dir? && Proper(t0) && j <= |t0.kids| && !HasName(t0.kids, name)
    requires name != []
    requires x == File(x.chain, []) || x == Dir(x.chain, [])
    requires t' == Put(t, dir, Dir(t0.chain, Insert(t0.kids, j, Kid(KidName(name), x)))) && Holds(p, t')
    requires At(t, cp).Some? && FirstOf(At(t, cp).value) == p.currentWorkingDir && Plain(cp)
    requires p.cwdString == PathText(cp)
    ensures OneChange(t, t', dir + [name], Some(if x.Dir? then Folder else Bytes([]))) && Ready(p, t', cp)
  {
    hide *;
    KidNameIs(name);
    forall q
      ensures View(t', q) == if q == dir + [name] then Some(if x.Dir? then Folder else Bytes([])) else View(t, q)
    {
      CreateView(t, dir, t0, j, name, x, q);
    }
    OneChangeNow(t, t', dir + [name], Some(if x.Dir? then Folder else Bytes([])));
    CreateKeepsDirs(t, dir, t0, j, name, x, cp);
    StillReady(p, t, t', cp);
  }

  lemma KidNameIs(name: Name)
    requires name != []
    ensures KidName(name) == Some(name)
  {
  }

  lemma OneChangeNow(t: Node, t': Node, at: seq<Name>, what: Option<What>)
    requires forall q :: View(t', q) == if q == at then what else View(t, q)
    ensures OneChange(t, t', at, what)
  {
  }

  /** A new file owns nothing. */
  lemma FileNoLeaks(g: Geometry, f: seq<nat>, d: seq<Sector>, free: nat, t: Node, dir: seq<Name>, t0: Node, j: nat,
                    name: Name)
    requires VolumeOk(g, f, d, free, t) && At(t, dir) == Some(t0) && t0.Dir? && j <= |t0.kids|
    requires !HasName(t0.kids, name)
    ensures NoLeaks(f, t) ==>
      NoLeaks(f, Put(t, dir, Dir(t0.chain, Insert(t0.kids, j, Kid(KidName(name), File([], []))))))
  {
    assert Clusters(File([], [])) == {} && Proper(File([], []));
    hide VolumeOk, NoLeaks, Clusters, Proper, Insert, Put;
    if NoLeaks(f, t) {
      CreatedNoLeaks(g, f, d, free, t, dir, t0, j, Kid(KidName(name), File([], [])), f);
    }
  }

  lemma OneClusterDir(c: nat)
    ensures Clusters(Dir([c], [])) == {c} && Proper(Dir([c], []))
  {
    assert Elems([c]) == {c};
  }

  /** A new directory owns the cluster that was taken for it. */
  lemma FolderNoLeaks(g: Geometry, f: seq<nat>, d: seq<Sector>, free: nat, t: Node, dir: seq<Name>, t0: Node, j: nat,
                      name: Name, c: nat)
    requires VolumeOk(g, f, d, free, t) && At(t, dir) == Some(t0) && t0.Dir? && j <= |t0.kids|
    requires !HasName(t0.kids, name)
    requires c in Free(f)
    ensures NoLeaks(f, t) ==>
      NoLeaks(f[c := END_OF_CHAIN], Put(t, dir, Dir(t0.chain, Insert(t0.kids, j, Kid(KidName(name), Dir([c], []))))))
  {
    assert c < |f|;
    hide VolumeOk, NoLeaks, Clusters, Proper, Insert, Put, Free;
    OneClusterDir(c);
    OneTaken(f, c);
    if NoLeaks(f, t) {
      CreatedNoLeaks(g, f, d, free, t, dir, t0, j, Kid(KidName(name), Dir([c], [])), f[c := END_OF_CHAIN]);
    }
  }

  /** fat.c:1402-1418. The new name leads to an empty file. */
  method CreateFileAt(p: Partition, tk: Tokenizer, path: seq<byte>, name: Name, sfn: seq<byte>, checksum: byte,
                      stack: seq<word>, ghost t: Node, ghost cp: seq<Name>)
    returns (answer: Answer, ghost t': Node)
    requires Ready(p, t, cp) && 0 in path && 0 !in name && name != []
    requires Creatable(p.g, p.Data(), t, cp, CStr(path), name, stack, sfn)
    modifies p.hd.sectors, tk
    ensures p.Mounted()
    ensures MadeAt(t, cp, CStr(path), name, Bytes([]), HasRoom(p.g, old(p.Data()), t, cp, CStr(path), name), true,
                   LandsRight(p.g, old(p.Data()), t, cp, CStr(path), name), answer, t')
    ensures (answer.Done? ==> LandsRight(p.g, old(p.Data()), t, cp, CStr(path), name)) ==>
      Ready(p, t', cp) && (NoLeaks(old(p.Fat()), t) ==> NoLeaks(p.Fat(), t'))
    ensures answer.Done? && Misplaced(p.g, old(p.Data()), t, cp, CStr(path), name) ==>
      Unseen(p.g, old(p.Data()), p.Data(), t, cp, CStr(path), name)
    ensures !answer.Done? ==> p.Disk() == old(p.Disk())
    ensures answer.Done? ==>
      && p.Sound() && p.InfoSynced()
      && FileMadeAt(p.g, old(p.Data()), p.Data(), t, cp, CStr(path), name, stack, checksum, sfn)
  {
    hide *;
    t' := t;
    ReadyParts(p, t, cp);
    HoldsParts(p, t);
    ghost var f, d, free, room :=
      p.Fat(), p.Data(), p.freeClusterCount, HasRoom(p.g, p.Data(), t, cp, CStr(path), name);
    ghost var right := LandsRight(p.g, d, t, cp, CStr(path), name);
    var cluster;
    ghost var dir;
    cluster, answer, dir := Find(p, tk, path, name, t, cp);
    if answer.NotFound? {
      ghost var t0, es := Entries(p, t, dir);
      CreatableHere(p.g, p.Data(), t, cp, CStr(path), name, stack, sfn, dir, t0, es);
      NameInView(p, t, dir, name);
      var found;
      ghost var j;
      found, t', j := CreateFileByDirCluster(p, cluster, name, sfn, checksum, stack, t, dir, t0, es);
      if found {
        FileMadeNow(p.g, d, p.Data(), t, cp, CStr(path), name, stack, checksum, sfn, dir, t0);
        if right {
          CreatedView(p, t, dir, t0, j, name, File([], []), t', cp);
          FileNoLeaks(p.g, f, d, free, t, dir, t0, j, name);
        }
      } else {
        SameDirs(t, cp);
        StillReady(p, t, t, cp);
      }
      answer := if found then Done else NoRoom;
    }
    CreatedNow(t, cp, CStr(path), name, Bytes([]), room, true, right, answer, t', dir);
  }

  lemma SameDirs(t: Node, cp: seq<Name>)
    ensures SameDir(At(t, cp), At(t, cp))
  {
  }

  /** fat.c:1443-1455. As for files, with an empty directory; without a free cluster for it, no
      file system is left. */
  method CreateDirAt(p: Partition, tk: Tokenizer, path: seq<byte>, name: Name, sfn: seq<byte>, checksum: byte,
                     stack: seq<word>, ghost t: Node, ghost cp: seq<Name>)
    returns (answer: Answer, ghost t': Node)
    requires Ready(p, t, cp) && 0 in path && 0 !in name && name != []
    requires Creatable(p.g, p.Data(), t, cp, CStr(path), name, stack, sfn)
    modifies p`freeClusterCount, p.hd.sectors, tk
    ensures p.Mounted()
    ensures MadeAt(t, cp, CStr(path), name, Folder, HasRoom(p.g, old(p.Data()), t, cp, CStr(path), name),
                   old(p.freeClusterCount) > 0,
                   LandsRight(p.g, old(p.Data()), t, cp, CStr(path), name), answer, t')
    ensures answer.Damaged? ==> StoresNoTree(p)
    ensures !answer.Damaged? && (answer.Done? ==> LandsRight(p.g, old(p.Data()), t, cp, CStr(path), name)) ==>
      Ready(p, t', cp) && (NoLeaks(old(p.Fat()), t) ==> NoLeaks(p.Fat(), t'))
    ensures answer.Done? && Misplaced(p.g, old(p.Data()), t, cp, CStr(path), name) ==>
      Unseen(p.g, old(p.Data()), p.Data(), t, cp, CStr(path), name)
    ensures !answer.Done? && !answer.Damaged? ==>
      p.Disk() == old(p.Disk()) && p.freeClusterCount == old(p.freeClusterCount)
    ensures answer.Done? ==>
      && p.Sound() && p.InfoSynced()
      && FolderMadeAt(p.g, old(p.Fat()), old(p.Data()), p.Data(), t, cp, CStr(path), name, stack, checksum, sfn)
  {
    hide *;
    t' := t;
    ReadyParts(p, t, cp);
    HoldsParts(p, t);
    ghost var f, d, free, room :=
      p.Fat(), p.Data(), p.freeClusterCount, HasRoom(p.g, p.Data(), t, cp, CStr(path), name);
    ghost var right := LandsRight(p.g, d, t, cp, CStr(path), name);
    var cluster;
    ghost var dir;
    cluster, answer, dir := Find(p, tk, path, name, t, cp);
    if answer.NotFound? {
      ghost var t0, es := Entries(p, t, dir);
      CreatableHere(p.g, p.Data(), t, cp, CStr(path), name, stack, sfn, dir, t0, es);
      NameInView(p, t, dir, name);
      var anyFree := p.freeClusterCount > 0;
      var found;
      ghost var j, c;
      label Before:
      found, t', j, c := CreateDirByParentCluster(p, cluster, name, sfn, checksum, stack, t, dir, t0, es);
      answer := if !found then NoRoom else if anyFree then Done else Damaged;
      if !found {
        DiskSame@Before(p);
        SameDirs(t, cp);
        StillReady(p, t, t, cp);
      } else if anyFree {
        MadeInParts(p, f, free, t, dir, t0, es, name, c, t', j);
        FolderMadeNow(p, f, d, t, cp, CStr(path), name, stack, checksum, sfn, dir, t0, es, c);
        if right {
          CreatedView(p, t, dir, t0, j, name, Dir([c], []), t', cp);
          FolderNoLeaks(p.g, f, d, free, t, dir, t0, j, name, c);
        }
      }
    }
    CreatedNow(t, cp, CStr(path), name, Folder, room, free > 0, right, answer, t', dir);
  }

  // ---- deleting ----

  /** From `t` to `t'`, `at` and everything below it has gone, and nothing else has changed. */
  ghost predicate Gone(t: Node, t': Node, at: seq<Name>) {
    forall q :: View(t', q) == if at <= q then None else View(t, q)
  }

  ghost predicate DeletedAt(t: Node, cp: seq<Name>, path: seq<byte>, name: Name, a: Answer, t': Node) {
    match Target(t, cp, path)
    case None => a == InvalidPath && t' == t
    case Some(dir) =>
      if View(t, dir + [name]) == None then a == NotFound && t' == t else a == Done && Gone(t, t', dir + [name])
  }

  /** Deleting the name takes the working directory away: it is that directory or lies below it. */
  ghost predicate TakesCwd(t: Node, cp: seq<Name>, path: seq<byte>, name: Name) {
    match Target(t, cp, path)
    case None => false
    case Some(dir) => dir + [name] <= cp
  }

  /** Some kid of that name is a directory with something below it that owns a cluster. */
  ghost predicate OwnsBelow(t: Node, cp: seq<Name>, path: seq<byte>, name: Name) {
    match Target(t, cp, path)
    case None => false
    case Some(dir) =>
      At(t, dir).Some? && At(t, dir).value.Dir? &&
      exists k :: 0 <= k < |At(t, dir).value.kids| && At(t, dir).value.kids[k].name == Some(name)
                  && KidClusters(At(t, dir).value.kids[k].node) != {}
  }

  /** Deleting by the entry alone loses exactly what lies below it. */
  lemma FileDeletedNoLeaks(g: Geometry, f: seq<nat>, d: seq<Sector>, free: nat, t: Node, cp: seq<Name>, path: seq<byte>,
                           name: Name, dir: seq<Name>, t0: Node, j: nat)
    requires VolumeOk(g, f, d, free, t) && Target(t, cp, path) == Some(dir) && At(t, dir) == Some(t0) && t0.Dir?
    requires j < |t0.kids| && t0.kids[j].name == Some(name) && NoLeaks(f, t)
    ensures NoLeaks(Released(f, Elems(t0.kids[j].node.chain)), Put(t, dir, Dir(t0.chain, Remove(t0.kids, j))))
            <==> !OwnsBelow(t, cp, path, name)
  {
    DirProper(g, f, d, free, t, dir, t0);
    OwnsBelowIs(t, cp, path, name, dir, t0, j);
    OnlyItsChain(t0, j);
    hide *;
    RemovedNoLeaksIff(g, f, d, free, t, dir, t0, j, Elems(t0.kids[j].node.chain));
  }

  lemma OwnsBelowIs(t: Node, cp: seq<Name>, path: seq<byte>, name: Name, dir: seq<Name>, t0: Node, j: nat)
    requires Target(t, cp, path) == Some(dir) && At(t, dir) == Some(t0) && t0.Dir? && Proper(t0)
    requires j < |t0.kids| && t0.kids[j].name == Some(name)
    ensures OwnsBelow(t, cp, path, name) <==> KidClusters(t0.kids[j].node) != {}
  {
    ProperNames(t0);
    hide KidClusters, Proper, Target, At;
  }

  lemma OnlyItsChain(t0: Node, j: nat)
    requires t0.Dir? && Proper(t0) && j < |t0.kids|
    ensures var x := t0.kids[j].node;
      Elems(x.chain) <= Clusters(x) && (Elems(x.chain) == Clusters(x) <==> KidClusters(x) == {})
  {
    var x := t0.kids[j].node;
    ClustersOf(x);
    KidProper(t0, j);
    if x.Dir? {
      forall c | c in KidClusters(x)
        ensures c !in Elems(x.chain)
      {
        var k := KidOf(x, c);
        OwnChainApart(x, k);
      }
    }
  }

  lemma DeletedNow(t: Node, cp: seq<Name>, path: seq<byte>, name: Name, a: Answer, t': Node, dir: seq<Name>)
    requires a.InvalidPath? || a.NotFound? || a.Done?
    requires a.InvalidPath? <==> Target(t, cp, path) == None
    requires !a.InvalidPath? ==> Target(t, cp, path) == Some(dir) && (a.NotFound? <==> View(t, dir + [name]) == None)
    requires if a.Done? then Gone(t, t', dir + [name]) else t' == t
    ensures DeletedAt(t, cp, path, name, a, t')
    ensures (!a.InvalidPath? ==> (TakesCwd(t, cp, path, name) <==> dir + [name] <= cp))
    ensures a.InvalidPath? ==> !TakesCwd(t, cp, path, name)
  {
  }

  lemma DeletedView(p: Partition, t: Node, dir: seq<Name>, t0: Node, j: nat, name: Name, t': Node, cp: seq<Name>)
    requires Proper(t) && At(t, dir) == Some(t0) && t0.Dir? && Proper(t0) && j < |t0.kids|
    requires t0.kids[j].name == Some(name)
    requires t' == Put(t, dir, Dir(t0.chain, Remove(t0.kids, j))) && Holds(p, t')
    requires At(t, cp).Some? && FirstOf(At(t, cp).value) == p.currentWorkingDir && Plain(cp)
    requires p.cwdString == PathText(cp)
    ensures Gone(t, t', dir + [name]) && (Ready(p, t', cp) <==> !(dir + [name] <= cp))
  {
    hide *;
    forall q
      ensures View(t', q) == if dir + [name] <= q then None else View(t, q)
    {
      DeleteView(t, dir, t0, j, name, q);
    }
    GoneNow(t, t', dir + [name]);
    DeleteKeepsDirs(t, dir, t0, j, name, cp);
    if dir + [name] <= cp {
      if Ready(p, t', cp) {
        ReadyParts(p, t', cp);
        assert false;
      }
    } else {
      StillReady(p, t, t', cp);
    }
  }

  lemma GoneNow(t: Node, t': Node, at: seq<Name>)
    requires forall q :: View(t', q) == if at <= q then None else View(t, q)
    ensures Gone(t, t', at)
  {
  }

  lemma AtIsDir(t: Node, dir: seq<Name>)
    requires At(t, dir).Some?
    ensures t.Dir?
  {
  }

  /** The working directory does not lie at or below a name that leads nowhere. */
  lemma MissingTakesNothing(p: Partition, t: Node, dir: seq<Name>, name: Name, cp: seq<Name>)
    requires Holds(p, t) && At(t, dir).Some? && At(t, cp).Some? && View(t, dir + [name]) == None
    ensures !(dir + [name] <= cp)
  {
    hide *;
    if dir + [name] <= cp {
      NameInView(p, t, dir, name);
      assert dir + [name] + cp[|dir| + 1..] == cp;
      PrefixAt(t, dir + [name], cp[|dir| + 1..]);
      AtIsDir(t, dir);
      AtIsFolder(t, dir + [name]);
    }
  }

  lemma NothingBelow(t: Node, cp: seq<Name>, path: seq<byte>, name: Name)
    ensures Target(t, cp, path) == None ==> !OwnsBelow(t, cp, path, name)
    ensures forall dir ::
              Target(t, cp, path) == Some(dir) && At(t, dir).Some? && At(t, dir).value.Dir?
              && !HasName(At(t, dir).value.kids, name) ==>
        !OwnsBelow(t, cp, path, name)
  {
  }

  /** The names in the directory fit the buffers when `name` is deleted from it. */
  ghost predicate NamesFitAt(g: Geometry, d: seq<Sector>, t: Node, cp: seq<Name>, path: seq<byte>, name: Name) {
    match Target(t, cp, path)
    case None => true
    case Some(dir) => At(t, dir).Some? ==> NamesFit(g, EntriesIn(g, d, At(t, dir).value), name)
  }

  /** Deleting `name` goes on to delete another entry. */
  ghost predicate DeletesMoreAt(g: Geometry, d: seq<Sector>, t: Node, cp: seq<Name>, path: seq<byte>, name: Name) {
    match Target(t, cp, path)
    case None => false
    case Some(dir) => At(t, dir).Some? && DeletesMore(g, EntriesIn(g, d, At(t, dir).value), name)
  }

  lemma DeletesHere(g: Geometry, d: seq<Sector>, t: Node, cp: seq<Name>, path: seq<byte>, name: Name, dir: seq<Name>,
                    t0: Node, es: seq<Entry>)
    requires Target(t, cp, path) == Some(dir) && At(t, dir) == Some(t0) && es == EntriesIn(g, d, t0)
    ensures NamesFitAt(g, d, t, cp, path, name) <==> NamesFit(g, es, name)
    ensures DeletesMoreAt(g, d, t, cp, path, name) <==> DeletesMore(g, es, name)
  {
  }

  /** In the directory named by `path`, some entry of that name has been erased, and nothing else changed. */
  ghost predicate ErasedAt(g: Geometry, d: seq<Sector>, d': seq<Sector>, t: Node, cp: seq<Name>, path: seq<byte>,
                           name: Name) {
    match Target(t, cp, path)
    case None => false
    case Some(dir) =>
      && At(t, dir).Some?
      && exists j: nat :: Names(At(t, dir).value, j, name)
                          && EntryErased(g, d', At(t, dir).value.chain, EntriesIn(g, d, At(t, dir).value), j)
  }

  ghost predicate Names(t0: Node, j: nat, name: Name) {
    t0.Dir? && j < |t0.kids| && t0.kids[j].name == Some(name)
  }

  lemma ErasedNow(g: Geometry, d: seq<Sector>, d': seq<Sector>, t: Node, cp: seq<Name>, path: seq<byte>, name: Name,
                  dir: seq<Name>, t0: Node, j: nat)
    requires Target(t, cp, path) == Some(dir) && At(t, dir) == Some(t0)
    requires t0.Dir? && j < |t0.kids| && t0.kids[j].name == Some(name)
    requires EntryErased(g, d', t0.chain, EntriesIn(g, d, t0), j)
    ensures ErasedAt(g, d, d', t, cp, path, name)
  {
    hide EntryErased, EntriesIn;
    assert Names(t0, j, name);
  }

  lemma DeletesNowhere(g: Geometry, d: seq<Sector>, t: Node, cp: seq<Name>, path: seq<byte>, name: Name)
    requires Target(t, cp, path) == None
    ensures !DeletesMoreAt(g, d, t, cp, path, name)
  {
  }

  /** Where the name is not, nothing is deleted. */
  lemma NothingDeleted(p: Partition, t: Node, dir: seq<Name>, name: Name, t0: Node, es: seq<Entry>)
    requires Holds(p, t) && At(t, dir) == Some(t0) && HasEntries(p, t0, es) && t0.Dir? && !HasName(t0.kids, name)
    ensures !DeletesMore(p.g, es, name)
  {
    hide *;
    HoldsParts(p, t);
    EntriesAre(p, t0, es);
    VolumeBasics(p.g, p.Fat(), p.Data(), p.freeClusterCount, t, dir, t0);
    AbsentMeans(p.g, es, t0.chain[0], t0.kids, UpAt(t, dir, 0), name, false);
    AbsentDeletesNone(p.g, es, name);
  }

  /** fat.c:1425-1436. The working directory survives unless it lies at or below the name. Whether
      the loop goes on to delete another entry `again` depends on the entries of the directory. */
  method DeleteFileAt(p: Partition, tk: Tokenizer, path: seq<byte>, name: Name, ghost t: Node, ghost cp: seq<Name>)
    returns (answer: Answer, again: bool, ghost t': Node)
    requires Ready(p, t, cp) && 0 in path && 0 !in name && NamesFitAt(p.g, p.Data(), t, cp, CStr(path), name)
    modifies p`freeClusterCount, p.hd.sectors, tk
    ensures p.Mounted() && (again <==> DeletesMoreAt(p.g, old(p.Data()), t, cp, CStr(path), name))
    ensures !answer.Done? ==> p.Disk() == old(p.Disk()) && p.freeClusterCount == old(p.freeClusterCount)
    ensures answer.Done? ==> ErasedAt(p.g, old(p.Data()), p.Data(), t, cp, CStr(path), name)
    ensures !again ==> Holds(p, t') && DeletedAt(t, cp, CStr(path), name, answer, t')
    ensures !again ==> (Ready(p, t', cp) <==> !TakesCwd(t, cp, CStr(path), name))
    ensures !again ==> (NoLeaks(old(p.Fat()), t) ==> (NoLeaks(p.Fat(), t') <==> !OwnsBelow(t, cp, CStr(path), name)))
  {
    hide *;
    t', again := t, false;
    ReadyParts(p, t, cp);
    HoldsParts(p, t);
    ghost var f, d, free := p.Fat(), p.Data(), p.freeClusterCount;
    var cluster;
    ghost var dir;
    cluster, answer, dir := Find(p, tk, path, name, t, cp);
    if answer.InvalidPath? {
      DeletesNowhere(p.g, d, t, cp, CStr(path), name);
    } else {
      ghost var t0, es := Entries(p, t, dir);
      NameInView(p, t, dir, name);
      DeletesHere(p.g, d, t, cp, CStr(path), name, dir, t0, es);
      if answer.Exists? {
        var found;
        ghost var j;
        found, again, t', j := DeleteFileByDirCluster(p, cluster, name, t, dir, t0, es);
        ErasedNow(p.g, d, p.Data(), t, cp, CStr(path), name, dir, t0, j);
        answer := Done;
        if again {
          return;
        }
        DeletedView(p, t, dir, t0, j, name, t', cp);
        if NoLeaks(f, t) {
          FileDeletedNoLeaks(p.g, f, d, free, t, cp, CStr(path), name, dir, t0, j);
        }
      } else {
        MissingTakesNothing(p, t, dir, name, cp);
        NothingDeleted(p, t, dir, name, t0, es);
      }
    }
    NothingBelow(t, cp, CStr(path), name);
    DeletedNow(t, cp, CStr(path), name, answer, t', dir);
  }

  /** The name is not that of a file. */
  ghost predicate NoFileThere(t: Node, cp: seq<Name>, path: seq<byte>, name: Name) {
    match Target(t, cp, path)
    case None => true
    case Some(dir) => View(t, dir + [name]) == None || View(t, dir + [name]) == Some(Folder)
  }

  lemma FolderThere(t: Node, cp: seq<Name>, path: seq<byte>, name: Name, dir: seq<Name>)
    requires NoFileThere(t, cp, path, name) && Target(t, cp, path) == Some(dir)
    ensures View(t, dir + [name]) == None || View(t, dir + [name]) == Some(Folder)
  {
  }

  /** fat.c:1462-1473, for a name that is not a file's. */
  method DeleteDirAt(p: Partition, tk: Tokenizer, path: seq<byte>, name: Name, ghost t: Node, ghost cp: seq<Name>)
    returns (answer: Answer, ghost t': Node)
    requires Ready(p, t, cp) && 0 in path && 0 !in name && NoFileThere(t, cp, CStr(path), name)
    modifies p`freeClusterCount, p.hd.sectors, tk
    ensures !answer.Done? ==> p.Disk() == old(p.Disk()) && p.freeClusterCount == old(p.freeClusterCount)
    ensures answer.Done? ==> ErasedAt(p.g, old(p.Data()), p.Data(), t, cp, CStr(path), name)
    ensures Holds(p, t') && DeletedAt(t, cp, CStr(path), name, answer, t')
    ensures Ready(p, t', cp) <==> !TakesCwd(t, cp, CStr(path), name)
    ensures p.Mounted() && (NoLeaks(old(p.Fat()), t) ==> NoLeaks(p.Fat(), t'))
  {
    hide *;
    t' := t;
    ReadyParts(p, t, cp);
    HoldsParts(p, t);
    ghost var f, d, free := p.Fat(), p.Data(), p.freeClusterCount;
    var cluster;
    ghost var dir;
    cluster, answer, dir := Find(p, tk, path, name, t, cp);
    if answer.Exists? {
      ghost var t0, es := Entries(p, t, dir);
      NameInView(p, t, dir, name);
      FolderThere(t, cp, CStr(path), name, dir);
      FolderIsSub(p, t, dir, t0, name);
      t' := DeleteDirByParentCluster(p, cluster, name, t, dir, t0, es);
      ErasedNow(p.g, d, p.Data(), t, cp, CStr(path), name, dir, t0, SubIndex(t0.kids, name));
      DeletedView(p, t, dir, t0, SubIndex(t0.kids, name), name, t', cp);
      if NoLeaks(f, t) {
        RemovedNoLeaksIff(p.g, f, d, free, t, dir, t0, SubIndex(t0.kids, name),
                          Clusters(t0.kids[SubIndex(t0.kids, name)].node));
      }
      answer := Done;
    } else if answer.NotFound? {
      MissingTakesNothing(p, t, dir, name, cp);
    }
    DeletedNow(t, cp, CStr(path), name, answer, t', dir);
  }

  lemma FolderIsSub(p: Partition, t: Node, dir: seq<Name>, t0: Node, name: Name)
    requires Holds(p, t) && At(t, dir) == Some(t0) && View(t, dir + [name]) == Some(Folder)
    ensures t0.Dir? && SubIndex(t0.kids, name) < |t0.kids| && t0.kids[SubIndex(t0.kids, name)].name == Some(name)
  {
    NameInView(p, t, dir, name);
    AtIsFolder(t, dir + [name]);
    AtSnoc(t, dir, name);
  }

  // ---- writing ----

  function NowBytes(was: seq<byte>, data: seq<byte>, rewrite: bool): seq<byte> {
    if rewrite then data else was + data
  }

  /** What a write of `data` does, by the clusters that the file has, needs and can get. `fine` says
      that the loop puts every sector in its place. */
  ghost predicate WrittenAt(g: Geometry, free: nat, heapOk: bool, fine: bool, t: Node, cp: seq<Name>, path: seq<byte>,
                            name: Name, data: seq<byte>, rewrite: bool, a: Answer, t': Node)
    requires g.sectorsPerCluster > 0
  {
    match Target(t, cp, path)
    case None => a == InvalidPath && t' == t
    case Some(dir) =>
      match View(t, dir + [name])
      case None => a == NotFound && t' == t
      case Some(what) =>
        && what.Bytes?
        && var was, now := what.bytes, NowBytes(what.bytes, data, rewrite);
        if Affordable(ClustersFor(g, |was|), ClustersFor(g, |now|), free, heapOk) then
          a == Done && (fine && Keeps(was, now) ==> OneChange(t, t', dir + [name], Some(Bytes(now))))
        else if was == [] && free > 0 then a == Damaged
        else a == NoRoom && t' == t
  }

  /** What a caller has to see to before the file is written. */
  ghost predicate CanWrite(g: Geometry, free: nat, t: Node, cp: seq<Name>, path: seq<byte>, name: Name, size: nat,
                           rewrite: bool) {
    match Target(t, cp, path)
    case None => true
    case Some(dir) =>
      At(t, dir).Some? ==>
        if rewrite then CanRewrite(g, At(t, dir).value.kids, name, free, size)
        else CanAppend(g, At(t, dir).value.kids, name, free, size)
  }

  lemma CanWriteHere(g: Geometry, free: nat, t: Node, cp: seq<Name>, path: seq<byte>, name: Name, size: nat,
                     rewrite: bool, dir: seq<Name>, t0: Node)
    requires CanWrite(g, free, t, cp, path, name, size, rewrite) && Target(t, cp, path) == Some(dir)
    requires At(t, dir) == Some(t0) && t0.Dir?
    ensures rewrite ==> CanRewrite(g, t0.kids, name, free, size)
    ensures !rewrite ==> CanAppend(g, t0.kids, name, free, size)
  {
  }

  /** A file has as many clusters as its size needs. */
  lemma ClustersOfFile(p: Partition, t: Node, dir: seq<Name>, t0: Node, j: nat)
    requires Holds(p, t) && At(t, dir) == Some(t0) && t0.Dir? && j < |t0.kids| && t0.kids[j].node.File?
    ensures p.g.sectorsPerCluster > 0 && |t0.kids[j].node.chain| == ClustersFor(p.g, |t0.kids[j].node.bytes|)
    ensures t0.kids[j].node.chain == [] <==> t0.kids[j].node.bytes == []
  {
    hide *;
    HoldsParts(p, t);
    HoldsCounted(p, t);
    FileKid(p.g, p.Fat(), p.Data(), p.freeClusterCount, t, dir, t0, j);
    var n := |t0.kids[j].node.bytes|;
    ClustersForIs(p.g, n);
    CeilRounds(n, p.g.sectorsPerCluster);
    RoundsUnique(n, p.g.sectorsPerCluster, |t0.kids[j].node.chain|, ClustersFor(p.g, n));
    NoClusters(n, p.g.sectorsPerCluster, |t0.kids[j].node.chain|);
  }

  ghost predicate FilesCounted(g: Geometry, t0: Node) {
    && g.sectorsPerCluster > 0 && t0.Dir?
    && forall j :: 0 <= j < |t0.kids| && t0.kids[j].node.File? ==>
         && |t0.kids[j].node.chain| == ClustersFor(g, |t0.kids[j].node.bytes|)
         && (t0.kids[j].node.chain == [] <==> t0.kids[j].node.bytes == [])
  }

  lemma FilesAreCounted(p: Partition, t: Node, dir: seq<Name>, t0: Node)
    requires Holds(p, t) && At(t, dir) == Some(t0) && t0.Dir?
    ensures FilesCounted(p.g, t0)
  {
    HoldsCounted(p, t);
    hide Holds, ClustersFor, At;
    forall j | 0 <= j < |t0.kids| && t0.kids[j].node.File?
      ensures |t0.kids[j].node.chain| == ClustersFor(p.g, |t0.kids[j].node.bytes|)
      ensures t0.kids[j].node.chain == [] <==> t0.kids[j].node.bytes == []
    {
      ClustersOfFile(p, t, dir, t0, j);
    }
  }

  lemma FileCounted(g: Geometry, t0: Node, j: nat)
    requires FilesCounted(g, t0) && j < |t0.kids| && t0.kids[j].node.File?
    ensures |t0.kids[j].node.chain| == ClustersFor(g, |t0.kids[j].node.bytes|)
    ensures t0.kids[j].node.chain == [] <==> t0.kids[j].node.bytes == []
  {
  }

  /** The tree with one file's bytes replaced shows that, and no directory has moved. */
  lemma WrittenView(t: Node, dir: seq<Name>, t0: Node, j: nat, name: Name, s: seq<nat>, bytes: seq<byte>, cp: seq<Name>)
    requires Proper(t) && At(t, dir) == Some(t0) && t0.Dir? && Proper(t0)
    requires j < |t0.kids| && t0.kids[j].name == Some(name) && t0.kids[j].node.File?
    ensures OneChange(t, WithFile(t, dir, t0, j, s, bytes), dir + [name], Some(Bytes(bytes)))
    ensures SameDir(At(WithFile(t, dir, t0, j, s, bytes), cp), At(t, cp))
  {
    hide *;
    forall q
      ensures View(WithFile(t, dir, t0, j, s, bytes), q) == if q == dir + [name] then Some(Bytes(bytes)) else View(t, q)
    {
      WriteView(t, dir, t0, j, name, s, bytes, q);
    }
    OneChangeNow(t, WithFile(t, dir, t0, j, s, bytes), dir + [name], Some(Bytes(bytes)));
    ProperNames(t0);
    WriteKeepsDirs(t, dir, t0, j, s, bytes, cp);
  }

  lemma WrittenNow(g: Geometry, free: nat, heapOk: bool, fine: bool, t: Node, cp: seq<Name>, path: seq<byte>,
                   name: Name, data: seq<byte>, rewrite: bool, a: Answer, t': Node, dir: seq<Name>, was: seq<byte>)
    requires g.sectorsPerCluster > 0
    requires a.InvalidPath? || a.NotFound? || a.NoRoom? || a.Damaged? || a.Done?
    requires a.InvalidPath? <==> Target(t, cp, path) == None
    requires !a.InvalidPath? ==> Target(t, cp, path) == Some(dir) && (a.NotFound? <==> View(t, dir + [name]) == None)
    requires a.InvalidPath? || a.NotFound? || a.NoRoom? ==> t' == t
    requires !a.InvalidPath? && !a.NotFound? ==>
      && View(t, dir + [name]) == Some(Bytes(was))
      && (a.Done? <==> Affordable(ClustersFor(g, |was|), ClustersFor(g, |NowBytes(was, data, rewrite)|), free, heapOk))
      && (a.NoRoom? && was == [] ==> free == 0) && (a.Damaged? ==> was == [] && free > 0)
    requires a.Done? && fine && Keeps(was, NowBytes(was, data, rewrite)) ==>
      OneChange(t, t', dir + [name], Some(Bytes(NowBytes(was, data, rewrite))))
    ensures WrittenAt(g, free, heapOk, fine, t, cp, path, name, data, rewrite, a, t')
  {
  }

  /** The file `name` of the directory at `dir` went from its old clusters to `s`. */
  ghost predicate Regrown(g: Geometry, f: seq<nat>, f': seq<nat>, t: Node, dir: seq<Name>, name: Name, s: seq<nat>,
                          j: nat, data: seq<byte>, rewrite: bool) {
    && At(t, dir).Some? && g.sectorsPerCluster > 0
    && var t0 := At(t, dir).value;
    j < |t0.kids| && t0.kids[j].name == Some(name) && t0.kids[j].node.File?
    && Rechained(f, t0.kids[j].node.chain, f', s, ClustersFor(g, |NowBytes(t0.kids[j].node.bytes, data, rewrite)|))
  }

  /** Everything that the write loop stores comes where it belongs, old bytes in front. */
  ghost predicate Fine(g: Geometry, s: seq<nat>, was: seq<byte>, data: seq<byte>, rewrite: bool) {
    Aligned(g, s, if rewrite then 0 else |was|, |NowBytes(was, data, rewrite)|)
  }

  lemma NowSize(was: seq<byte>, data: seq<byte>, rewrite: bool)
    ensures |NowBytes(was, data, rewrite)| == if rewrite then |data| else |was| + |data|
    ensures NowBytes(was, data, rewrite) == if rewrite then data else was + data
    ensures !rewrite ==> Keeps(was, was + data)
  {
  }

  lemma FineIs(g: Geometry, s: seq<nat>, was: seq<byte>, data: seq<byte>, rewrite: bool)
    ensures Fine(g, s, was, data, rewrite) <==>
      if rewrite then Aligned(g, s, 0, |data|) else Aligned(g, s, |was|, |was| + |data|)
  {
  }

  lemma RegrownNow(g: Geometry, f: seq<nat>, f': seq<nat>, t: Node, dir: seq<Name>, name: Name, s: seq<nat>, j: nat,
                   data: seq<byte>, rewrite: bool, t0: Node)
    requires At(t, dir) == Some(t0) && g.sectorsPerCluster > 0 && t0.Dir?
    requires j < |t0.kids| && t0.kids[j].name == Some(name) && t0.kids[j].node.File?
    requires Rechained(f, t0.kids[j].node.chain, f', s,
                       ClustersFor(g, |NowBytes(t0.kids[j].node.bytes, data, rewrite)|))
    ensures Regrown(g, f, f', t, dir, name, s, j, data, rewrite)
  {
  }

  /** The drive after a file with bytes `was` could not grow. */
  function AfterNoRoom(g: Geometry, d: seq<Sector>, was: seq<byte>): seq<Sector> {
    if was == [] then Strayed(g, d) else d
  }

  lemma NoRoomIs(g: Geometry, d: seq<Sector>, was: seq<byte>)
    ensures AfterNoRoom(g, d, was) == if was == [] then Strayed(g, d) else d
  {
  }

  /** The two ways to write, in one contract. */
  method WriteByDirCluster(p: Partition, cluster: nat, name: Name, data: seq<byte>, rewrite: bool, heapOk: bool,
                           ghost t: Node, ghost dir: seq<Name>, ghost t0: Node, ghost es: seq<Entry>)
    returns (answer: Answer, ghost t': Node, ghost j: nat, ghost s: seq<nat>)
    requires Holds(p, t) && At(t, dir) == Some(t0) && FirstOf(t0) == cluster && HasEntries(p, t0, es) && 0 !in name
    requires HasName(t0.kids, name)
    requires if rewrite then CanRewrite(p.g, t0.kids, name, p.freeClusterCount, |data|)
      else CanAppend(p.g, t0.kids, name, p.freeClusterCount, |data|)
    modifies p`freeClusterCount, p.hd.sectors
    ensures p.Mounted() && p.g.sectorsPerCluster > 0 && (answer.NoRoom? || answer.Damaged? || answer.Done?)
    ensures j < |t0.kids| && t0.kids[j].name == Some(name) && t0.kids[j].node.File?
    ensures answer.NoRoom? ==> t' == t && p.freeClusterCount == old(p.freeClusterCount)
    ensures answer.NoRoom? ==> p.Disk() == AfterNoRoom(p.g, old(p.Disk()), t0.kids[j].node.bytes)
    ensures answer.NoRoom? && (t0.kids[j].node.bytes == [] ==> Spared(p.g, old(p.Disk()))) ==>
      Holds(p, t) && p.Fat() == old(p.Fat())
    ensures var was := t0.kids[j].node.bytes;
      var now := NowBytes(was, data, rewrite);
      && (answer.Done? <==>
          Affordable(ClustersFor(p.g, |was|), ClustersFor(p.g, |now|), old(p.freeClusterCount), heapOk))
      && (answer.NoRoom? && was == [] ==> old(p.freeClusterCount) == 0)
      && (answer.Damaged? ==> was == [] && old(p.freeClusterCount) > 0)
      && (answer.Done? && Keeps(was, now) && Fine(p.g, s, was, data, rewrite) ==>
            Holds(p, t') && t' == WithFile(t, dir, t0, j, s, now))
      && (answer.Done? && !Keeps(was, now) ==> StoresNoTree(p))
    ensures answer.Done? ==> Regrown(p.g, old(p.Fat()), p.Fat(), t, dir, name, s, j, data, rewrite)
    ensures answer.Done? || answer.Damaged? ==> p.Sound() && p.InfoSynced()
    ensures answer.Done? && Fine(p.g, s, t0.kids[j].node.bytes, data, rewrite) ==>
      EntryWritten(p.g, p.Data(), t0.chain, es, j, s, |NowBytes(t0.kids[j].node.bytes, data, rewrite)|)
    ensures answer.Damaged? ==> StoresNoTree(p)
  {
    hide *;
    HoldsParts(p, t);
    HoldsCounted(p, t);
    EntriesAre(p, t0, es);
    FilesAreCounted(p, t, dir, t0);
    ghost var f, disk := p.Fat(), p.Disk();
    var r;
    if rewrite {
      r, t', j, s := RewriteFileByDirCluster(p, cluster, name, data, heapOk, t, dir, t0, es);
    } else {
      r, t', j, s := AppendToFileByDirCluster(p, cluster, name, data, heapOk, t, dir, t0, es);
    }
    FileCounted(p.g, t0, j);
    NowSize(t0.kids[j].node.bytes, data, rewrite);
    FineIs(p.g, s, t0.kids[j].node.bytes, data, rewrite);
    if r.Wrote? {
      RegrownNow(p.g, f, p.Fat(), t, dir, name, s, j, data, rewrite, t0);
    }
    answer := if r.NoSpace? then NoRoom else if r.Lost? then Damaged else Done;
    if r.NoSpace? {
      NoRoomIs(p.g, disk, t0.kids[j].node.bytes);
      t' := t;
    }
  }

  /** fat.c:1483-1498. Where the write goes through, the file reads as `data`, or as its old bytes
      and then `data`. Rewriting a file that has bytes with none leaves no file system behind. */
  method WriteToFile(p: Partition, tk: Tokenizer, path: seq<byte>, name: Name, data: seq<byte>, rewrite: bool,
                     heapOk: bool, ghost t: Node, ghost cp: seq<Name>)
    returns (answer: Answer, ghost t': Node, ghost was: seq<byte>, ghost j: nat, ghost s: seq<nat>)
    requires Ready(p, t, cp) && 0 in path && 0 !in name
    requires CanWrite(p.g, p.freeClusterCount, t, cp, CStr(path), name, |data|, rewrite)
    modifies p`freeClusterCount, p.hd.sectors, tk
    ensures p.Mounted() && p.g.sectorsPerCluster > 0
    ensures answer.Done? || answer.Damaged? ==> p.Sound() && p.InfoSynced()
    ensures WrittenAt(p.g, old(p.freeClusterCount), heapOk, Fine(p.g, s, was, data, rewrite), t, cp, CStr(path), name,
                      data, rewrite, answer, t')
    ensures answer.InvalidPath? || answer.NotFound? ==>
      Ready(p, t, cp) && p.Disk() == old(p.Disk()) && p.freeClusterCount == old(p.freeClusterCount)
    ensures answer.NoRoom? ==>
      p.Disk() == AfterNoRoom(p.g, old(p.Disk()), was) && p.freeClusterCount == old(p.freeClusterCount)
    ensures answer.NoRoom? && (was == [] ==> Spared(p.g, old(p.Disk()))) ==> Ready(p, t, cp)
    ensures answer.Damaged? || (answer.Done? && !Keeps(was, NowBytes(was, data, rewrite))) ==> StoresNoTree(p)
    ensures answer.Done? && Keeps(was, NowBytes(was, data, rewrite)) && Fine(p.g, s, was, data, rewrite) ==>
      Ready(p, t', cp)
    ensures NoLeaks(old(p.Fat()), t) && !answer.Damaged? && (answer.NoRoom? && was == [] ==> Spared(p.g, old(p.Disk())))
            && (answer.Done? ==> Keeps(was, NowBytes(was, data, rewrite)) && Fine(p.g, s, was, data, rewrite)) ==>
      NoLeaks(p.Fat(), t')
    ensures answer.Done? || answer.NoRoom? || answer.Damaged? ==>
      Target(t, cp, CStr(path)).Some? && View(t, Target(t, cp, CStr(path)).value + [name]) == Some(Bytes(was))
    ensures answer.Done? && Fine(p.g, s, was, data, rewrite) ==>
      EntryWrittenAt(p.g, old(p.Data()), p.Data(), t, cp, CStr(path), j, s, |NowBytes(was, data, rewrite)|)
    ensures answer.Done? ==>
      && Target(t, cp, CStr(path)).Some?
      && Regrown(p.g, old(p.Fat()), p.Fat(), t, Target(t, cp, CStr(path)).value, name, s, j, data, rewrite)
  {
    hide *;
    t', was, j, s := t, [], 0, [];
    ReadyParts(p, t, cp);
    HoldsCounted(p, t);
    HoldsParts(p, t);
    ghost var f, d, free, disk := p.Fat(), p.Data(), p.freeClusterCount, p.Disk();
    var cluster;
    ghost var dir;
    cluster, answer, dir := Find(p, tk, path, name, t, cp);
    if answer.Exists? {
      ghost var t0, es := Entries(p, t, dir);
      NameInView(p, t, dir, name);
      CanWriteHere(p.g, free, t, cp, CStr(path), name, |data|, rewrite, dir, t0);
      KidViews(p, t, dir, t0, name);
      answer, t', j, s := WriteByDirCluster(p, cluster, name, data, rewrite, heapOk, t, dir, t0, es);
      KidViewIs(t, dir, t0, name, j);
      was := t0.kids[j].node.bytes;
      EntryWrittenHere(p.g, d, p.Data(), t, cp, CStr(path), j, s, |NowBytes(was, data, rewrite)|, dir, t0, es);
      WrittenView(t, dir, t0, j, name, s, NowBytes(was, data, rewrite), cp);
      if answer.NoRoom? {
        SameDirs(t, cp);
        if was == [] ==> Spared(p.g, disk) {
          StillReady(p, t, t, cp);
        }
      } else if answer.Done? && Keeps(was, NowBytes(was, data, rewrite)) && Fine(p.g, s, was, data, rewrite) {
        StillReady(p, t, t', cp);
        if NoLeaks(f, t) {
          RegrownNoLeaks(p.g, f, d, free, t, dir, t0, j, name, p.Fat(), s, data, rewrite);
        }
      }
    }
    WrittenNow(p.g, free, heapOk, Fine(p.g, s, was, data, rewrite), t, cp, CStr(path), name, data, rewrite, answer, t',
               dir, was);
  }

  /** In the directory named by `path`, the entry of item `j` gives the new size and first cluster, and
      no other byte has changed. */
  ghost predicate EntryWrittenAt(g: Geometry, d: seq<Sector>, d': seq<Sector>, t: Node, cp: seq<Name>, path: seq<byte>,
                                 j: nat, s: seq<nat>, size: nat) {
    match Target(t, cp, path)
    case None => false
    case Some(dir) =>
      && At(t, dir).Some?
      && EntryWritten(g, d', At(t, dir).value.chain, EntriesIn(g, d, At(t, dir).value), j, s, size)
  }

  lemma EntryWrittenHere(g: Geometry, d: seq<Sector>, d': seq<Sector>, t: Node, cp: seq<Name>, path: seq<byte>, j: nat,
                         s: seq<nat>, size: nat, dir: seq<Name>, t0: Node, es: seq<Entry>)
    requires Target(t, cp, path) == Some(dir) && At(t, dir) == Some(t0) && es == EntriesIn(g, d, t0)
    ensures EntryWrittenAt(g, d, d', t, cp, path, j, s, size) <==> EntryWritten(g, d', t0.chain, es, j, s, size)
  {
    hide EntryWritten, EntriesIn;
  }

  lemma RegrownNoLeaks(g: Geometry, f: seq<nat>, d: seq<Sector>, free: nat, t: Node, dir: seq<Name>, t0: Node, j: nat,
                       name: Name, f': seq<nat>, s: seq<nat>, data: seq<byte>, rewrite: bool)
    requires VolumeOk(g, f, d, free, t) && At(t, dir) == Some(t0) && t0.Dir? && NoLeaks(f, t)
    requires Regrown(g, f, f', t, dir, name, s, j, data, rewrite)
    ensures j < |t0.kids| && t0.kids[j].node.File?
    ensures NoLeaks(f', WithFile(t, dir, t0, j, s, NowBytes(t0.kids[j].node.bytes, data, rewrite)))
  {
    hide VolumeOk, NoLeaks, Rechained, At, WithFile, NowBytes, ClustersFor;
    WrittenNoLeaks(g, f, d, free, t, dir, t0, j, f', s,
                   ClustersFor(g, |NowBytes(t0.kids[j].node.bytes, data, rewrite)|),
                   NowBytes(t0.kids[j].node.bytes, data, rewrite));
  }

  ghost predicate KidsInView(t: Node, dir: seq<Name>, t0: Node, name: Name) {
    t0.Dir? && forall j :: 0 <= j < |t0.kids| && t0.kids[j].name == Some(name) ==>
      View(t, dir + [name]) == Some(if t0.kids[j].node.File? then Bytes(t0.kids[j].node.bytes) else Folder)
  }

  lemma KidViews(p: Partition, t: Node, dir: seq<Name>, t0: Node, name: Name)
    requires Holds(p, t) && At(t, dir) == Some(t0) && t0.Dir?
    ensures KidsInView(t, dir, t0, name)
  {
    hide Holds, At, View;
    forall j | 0 <= j < |t0.kids| && t0.kids[j].name == Some(name)
      ensures View(t, dir + [name]) == Some(if t0.kids[j].node.File? then Bytes(t0.kids[j].node.bytes) else Folder)
    {
      KidView(p, t, dir, t0, j, name);
    }
  }

  lemma KidViewIs(t: Node, dir: seq<Name>, t0: Node, name: Name, j: nat)
    requires KidsInView(t, dir, t0, name) && j < |t0.kids| && t0.kids[j].name == Some(name) && t0.kids[j].node.File?
    ensures View(t, dir + [name]) == Some(Bytes(t0.kids[j].node.bytes))
  {
  }
}
